/**
 The benchmark's generator, SplitMix64: 64-bit words that wrap, a state that steps by an odd constant and a
 mix that loses nothing. So the draws of one generator repeat only after 2^64 of them.
 */
module SplitMix {

  type Word = bv64

  /** The three lines that make a draw of the state. */
  function First(z: Word): Word {
    (z ^ (z >> 30)) * 0xBF58_476D_1CE4_E5B9
  }

  function Second(z: Word): Word {
    (z ^ (z >> 27)) * 0x94D0_49BB_1331_11EB
  }

  function Third(z: Word): Word {
    z ^ (z >> 31)
  }

  /** What a draw makes of the state. */
  function Mix(state: Word): Word {
    Third(Second(First(state)))
  }

  function Unfirst(z: Word): Word {
    var y := z * 0x96DE_1B17_3F11_9089;
    y ^ (y >> 30) ^ (y >> 60)
  }

  function Unsecond(z: Word): Word {
    var y := z * 0x3196_42B2_D24D_8EC3;
    y ^ (y >> 27) ^ (y >> 54)
  }

  function Unthird(z: Word): Word {
    z ^ (z >> 31) ^ (z >> 62)
  }

  lemma FirstWrittenOut(z: Word)
    ensures Unfirst((z ^ (z >> 30)) * 0xBF58_476D_1CE4_E5B9) == z
  {
  }

  lemma SecondWrittenOut(z: Word)
    ensures Unsecond((z ^ (z >> 27)) * 0x94D0_49BB_1331_11EB) == z
  {
  }

  lemma ThirdWrittenOut(z: Word)
    ensures Unthird(z ^ (z >> 31)) == z
  {
  }

  lemma FirstUndone(z: Word)
    ensures Unfirst(First(z)) == z
  {
    FirstWrittenOut(z);
  }

  lemma SecondUndone(z: Word)
    ensures Unsecond(Second(z)) == z
  {
    SecondWrittenOut(z);
  }

  lemma ThirdUndone(z: Word)
    ensures Unthird(Third(z)) == z
  {
    ThirdWrittenOut(z);
  }

  /** The mix can be undone, so no two states give one draw. */
  lemma MixLosesNothing(state: Word)
    ensures Unfirst(Unsecond(Unthird(Mix(state)))) == state
  {
    FirstUndone(state);
    SecondUndone(First(state));
    ThirdUndone(Second(First(state)));
  }

  function Step(state: Word): Word {
    state + 0x9E37_79B9_7F4A_7C15
  }

  /** The state after `k` draws. */
  function StateAfter(seed: Word, k: nat): Word {
    if k == 0 then seed else Step(StateAfter(seed, k - 1))
  }

  /** Draw number `k`, counting from zero. */
  function Draw(seed: Word, k: nat): Word {
    Mix(StateAfter(seed, k + 1))
  }

  function Next(c: Word): Word {
    c + 1
  }

  /** A number as a word, wrapping. */
  function Count(k: nat): Word {
    if k == 0 then 0 else Next(Count(k - 1))
  }

  /** The state `c` steps on, and the steps read back from a state. */
  function Forward(seed: Word, c: Word): Word {
    seed + c * 0x9E37_79B9_7F4A_7C15
  }

  function StepsFrom(seed: Word, state: Word): Word {
    (state - seed) * 0xF1DE_83E1_9937_733D
  }

  lemma StepWrittenOut(seed: Word, c: Word)
    ensures Step(seed + c * 0x9E37_79B9_7F4A_7C15) == Forward(seed, c + 1)
  {
  }

  lemma StepIsForward(seed: Word, c: Word)
    ensures Step(Forward(seed, c)) == Forward(seed, Next(c))
  {
    StepWrittenOut(seed, c);
  }

  lemma StepsWrittenOut(seed: Word, c: Word)
    ensures StepsFrom(seed, seed + c * 0x9E37_79B9_7F4A_7C15) == c
  {
  }

  lemma StepsReadBack(seed: Word, c: Word)
    ensures StepsFrom(seed, Forward(seed, c)) == c
  {
    StepsWrittenOut(seed, c);
  }

  lemma {:induction false} StateIsForward(seed: Word, k: nat)
    ensures StateAfter(seed, k) == Forward(seed, Count(k))
  {
    if k > 0 {
      StateIsForward(seed, k - 1);
      StepIsForward(seed, Count(k - 1));
    }
  }

  function Plus(a: Word, b: Word): Word {
    a + b
  }

  lemma NextWrittenOut(a: Word, b: Word)
    ensures Next(a + b) == Plus(a, b + 1)
  {
  }

  lemma NextOfPlus(a: Word, b: Word)
    ensures Next(Plus(a, b)) == Plus(a, Next(b))
  {
    NextWrittenOut(a, b);
  }

  lemma {:induction false} CountAdds(a: nat, b: nat)
    ensures Count(a + b) == Plus(Count(a), Count(b))
    decreases b
  {
    if b > 0 {
      CountAdds(a, b - 1);
      NextOfPlus(Count(a), Count(b - 1));
    }
  }

  lemma {:induction false} CountParity(k: nat)
    ensures Count(k) & 1 == if k % 2 == 0 then 0 else 1
  {
    if k > 0 { CountParity(k - 1); }
  }

  function Pow2(w: nat): (p: nat)
    ensures p > 0
  {
    if w == 0 then 1 else 2 * Pow2(w - 1)
  }

  lemma {:induction false} Pow2Adds(a: nat, b: nat)
    ensures Pow2(a + b) == Pow2(a) * Pow2(b)
    decreases b
  {
    if b > 0 {
      Pow2Adds(a, b - 1);
      assert Pow2(a + b) == 2 * Pow2(a + (b - 1));
    }
  }

  lemma HalfWordsHave32Bits()
    ensures Pow2(32) == 0x1_0000_0000
  {
    assert Pow2(4) == 16;
    Pow2Adds(4, 4);
    Pow2Adds(8, 8);
    Pow2Adds(16, 16);
  }

  lemma WordsHave64Bits()
    ensures Pow2(64) == 0x1_0000_0000_0000_0000
  {
    HalfWordsHave32Bits();
    Pow2Adds(32, 32);
  }

  function Times(a: Word, b: Word): Word {
    a * b
  }

  function Double(a: Word): Word {
    a + a
  }

  /** The bit of weight two to the `w`, nothing beyond the top one. */
  function Bit(w: nat): Word {
    if w == 0 then 1 else Double(Bit(w - 1))
  }

  lemma DoubleWrittenOut(a: Word, b: Word)
    ensures Double(a * b) == Times(a, b + b)
  {
  }

  lemma DoubleOfTimes(a: Word, b: Word)
    ensures Double(Times(a, b)) == Times(a, Double(b))
  {
    DoubleWrittenOut(a, b);
  }

  lemma {:induction false} BitsAdd(a: nat, b: nat)
    ensures Bit(a + b) == Times(Bit(a), Bit(b))
    decreases b
  {
    if b > 0 {
      BitsAdd(a, b - 1);
      DoubleOfTimes(Bit(a), Bit(b - 1));
    }
  }

  predicate IsOneBit(b: Word) {
    b != 0 && b & (b - 1) == 0
  }

  lemma TopBit()
    ensures Bit(63) == 0x8000_0000_0000_0000
  {
    assert Bit(3) == 8;
    BitsAdd(3, 3);
    BitsAdd(7, 7);
    BitsAdd(15, 15);
    BitsAdd(31, 31);
  }

  lemma DoubleOneBit(b: Word)
    requires IsOneBit(b) && Double(b) != 0
    ensures IsOneBit(Double(b))
  {
  }

  lemma TimesZero(b: Word)
    ensures Times(0, b) == 0
  {
  }

  lemma {:induction false} BitIsOneBit(w: nat)
    requires w < 64
    ensures IsOneBit(Bit(w))
    decreases w
  {
    if w > 0 {
      BitIsOneBit(w - 1);
      BitsAdd(w, 63 - w);
      TopBit();
      TimesZero(Bit(63 - w));
      DoubleOneBit(Bit(w - 1));
    }
  }

  /** No bit of `c` below the bit `b`. */
  predicate ClearBelow(c: Word, b: Word) {
    c & (b - 1) == 0
  }

  lemma HalfIsClear(c: Word, b: Word)
    requires IsOneBit(b) && ClearBelow(Plus(c, c), Double(b))
    ensures ClearBelow(c, b)
  {
  }

  lemma OddIsNotClear(c: Word, b: Word)
    ensures c & 1 == 1 ==> !ClearBelow(c, Double(b))
  {
  }

  lemma HalvingKeepsClear(k: nat, w: nat)
    requires 0 < w <= 64 && ClearBelow(Count(k), Bit(w))
    ensures k % 2 == 0 && ClearBelow(Count(k / 2), Bit(w - 1))
  {
    CountParity(k);
    OddIsNotClear(Count(k), Bit(w - 1));
    CountAdds(k / 2, k / 2);
    BitIsOneBit(w - 1);
    HalfIsClear(Count(k / 2), Bit(w - 1));
  }

  /** A count with no bit below the `w`th is a multiple of that power of two. */
  lemma {:induction false} LowBitsVanish(k: nat, w: nat) returns (q: nat)
    requires w <= 64 && ClearBelow(Count(k), Bit(w))
    ensures k == q * Pow2(w)
    decreases w
  {
    if w == 0 {
      q := k;
    } else {
      HalvingKeepsClear(k, w);
      q := LowBitsVanish(k / 2, w - 1);
      assert Pow2(w) == 2 * Pow2(w - 1);
    }
  }

  lemma ZeroIsClear(b: Word)
    ensures ClearBelow(0, b)
  {
  }

  lemma {:induction false} CountOfPow2(w: nat)
    ensures Count(Pow2(w)) == Bit(w)
  {
    if w > 0 {
      CountOfPow2(w - 1);
      CountAdds(Pow2(w - 1), Pow2(w - 1));
      SumIsDouble(Bit(w - 1));
    }
  }

  lemma SumIsDouble(a: Word)
    ensures Plus(a, a) == Double(a)
  {
  }

  lemma TopBitDoubles()
    ensures Bit(64) == 0
  {
    TopBit();
  }

  const TURN: nat := 0x1_0000_0000_0000_0000

  lemma FullTurnCountsNothing()
    ensures Count(TURN) == 0
  {
    CountOfPow2(64);
    TopBitDoubles();
    WordsHave64Bits();
  }

  lemma PlusZero(a: Word)
    ensures Plus(a, 0) == a
  {
  }

  lemma {:induction false} FullTurnsCountNothing(k: nat)
    requires k % TURN == 0
    ensures Count(k) == 0
  {
    if k > 0 {
      FullTurnsCountNothing(k - TURN);
      FullTurnCountsNothing();
      CountAdds(k - TURN, TURN);
      PlusZero(0);
    }
  }

  /** Counting comes back to zero exactly at the multiples of 2^64. */
  lemma CountIsZeroExactlyWhen(k: nat)
    ensures Count(k) == 0 <==> k % TURN == 0
  {
    if Count(k) == 0 {
      ZeroIsClear(Bit(64));
      var q := LowBitsVanish(k, 64);
      WordsHave64Bits();
    }
    if k % TURN == 0 { FullTurnsCountNothing(k); }
  }

  lemma PlusCancels(a: Word, b: Word)
    ensures Plus(a, b) == a <==> b == 0
  {
  }

  lemma StatesTellDrawsApart(seed: Word, i: nat, j: nat)
    ensures Draw(seed, i) == Draw(seed, j) <==> Count(i + 1) == Count(j + 1)
  {
    MixLosesNothing(StateAfter(seed, i + 1));
    MixLosesNothing(StateAfter(seed, j + 1));
    StateIsForward(seed, i + 1);
    StateIsForward(seed, j + 1);
    StepsReadBack(seed, Count(i + 1));
    StepsReadBack(seed, Count(j + 1));
  }

  /** From any seed, two draws are equal exactly when they are a multiple of 2^64 steps apart. */
  lemma DrawsRepeatExactlyWhen(seed: Word, i: nat, j: nat)
    requires i <= j
    ensures Draw(seed, i) == Draw(seed, j) <==> (j - i) % TURN == 0
  {
    StatesTellDrawsApart(seed, i, j);
    CountAdds(i + 1, j - i);
    PlusCancels(Count(i + 1), Count(j - i));
    CountIsZeroExactlyWhen(j - i);
  }

  function Total<T>(table: seq<(T, nat)>): nat {
    if table == [] then 0 else Total(table[..|table| - 1]) + table[|table| - 1].1
  }

  /** Entry `i` owns the points from the shares before it up to its own. */
  ghost predicate Owns<T>(table: seq<(T, nat)>, i: nat, point: nat) {
    i < |table| && Total(table[..i]) <= point < Total(table[..i]) + table[i].1
  }

  /** The entries' shares split the points between them: each point has one owner, with nothing left over. */
  lemma {:induction false} EveryPointHasOneOwner<T>(table: seq<(T, nat)>, point: nat) returns (i: nat)
    ensures point < Total(table) <==> Owns(table, i, point)
    ensures forall j: nat :: Owns(table, j, point) ==> j == i
    decreases |table|
  {
    if table == [] {
      i := 0;
    } else {
      var n := |table| - 1;
      i := EveryPointHasOneOwner(table[..n], point);
      forall j: nat | j < n ensures Owns(table, j, point) <==> Owns(table[..n], j, point) {
        assert table[..n][..j] == table[..j];
      }
      if point >= Total(table[..n]) { i := n; }
    }
  }

  /** A draw brought below `bound`, or to zero when nothing is below it. */
  function PointOf(draw: Word, bound: nat): (r: nat)
    ensures bound > 0 ==> r < bound
  {
    (draw as nat) % (if bound == 0 then 1 else bound)
  }

  /** The walk along the table, taking each share off the point until one covers it. */
  method ValueAt<T>(table: seq<(T, nat)>, start: nat) returns (value: T)
    requires table != []
    ensures forall i: nat :: Owns(table, i, start) ==> value == table[i].0
    ensures start >= Total(table) ==> value == table[0].0
  {
    ghost var owner := EveryPointHasOneOwner(table, start);
    var point: nat := start;
    var i: nat := 0;
    while i < |table|
      invariant i <= |table| && start == point + Total(table[..i])
    {
      assert table[..i + 1][..i] == table[..i];
      if point < table[i].1 {
        assert Owns(table, i, start);
        return table[i].0;
      }
      point := point - table[i].1;
      i := i + 1;
    }
    assert table[..i] == table;
    value := table[0].0;
  }

  class Rng {
    var state: Word
    ghost var seed: Word
    ghost var drawn: nat

    /** The state is where the seed's draws have brought it. */
    ghost predicate Valid()
      reads this
    {
      state == StateAfter(seed, drawn)
    }

    constructor (from: Word)
      ensures Valid() && seed == from && drawn == 0
    {
      state, seed, drawn := from, from, 0;
    }

    /** The next raw draw. */
    method Next() returns (draw: Word)
      requires Valid()
      modifies this
      ensures Valid() && seed == old(seed) && drawn == old(drawn) + 1
      ensures draw == Draw(seed, old(drawn))
    {
      state, drawn := Step(state), drawn + 1;
      var z := state;
      z := First(z);
      z := Second(z);
      draw := Third(z);
    }

    /** A draw below `bound`, or zero when nothing is below it. */
    method Below(bound: nat) returns (r: nat)
      requires Valid()
      modifies this
      ensures Valid() && seed == old(seed) && drawn == old(drawn) + 1
      ensures r == PointOf(Draw(seed, old(drawn)), bound)
    {
      var draw := Next();
      r := PointOf(draw, bound);
    }

    /** Picks the value whose share owns the drawn point, or the first one when no share is positive. */
    method Weighted<T>(table: seq<(T, nat)>) returns (value: T)
      requires Valid()
      requires table != [] && Total(table) < 0x1_0000_0000
      modifies this
      ensures Valid() && seed == old(seed) && drawn == old(drawn) + 1
      ensures forall i: nat ::
                Owns(table, i, PointOf(Draw(seed, old(drawn)), Total(table))) ==> value == table[i].0
      ensures Total(table) == 0 ==> value == table[0].0
    {
      var total := 0;
      var i: nat := 0;
      while i < |table|
        invariant i <= |table| && total == Total(table[..i])
        invariant unchanged(this)
      {
        assert table[..i + 1][..i] == table[..i];
        total := total + table[i].1;
        i := i + 1;
      }
      assert table[..i] == table;
      var point := Below(total);
      value := ValueAt(table, point);
    }
  }
}
