/**
 Entry file names: a sequence number in twenty zero-padded digits and a suffix, and how a name is
 read back. Reading is the standard library's `u64` parsing, which also takes a leading plus sign and
 any number of leading zeros.
 */
module SpoolNames {
  import opened Wrappers

  const SUFFIX: string := ".entry"
  const SEQ_WIDTH: nat := 20
  const U64_LIMIT: nat := 0x1_0000_0000_0000_0000

  predicate IsDigit(c: char) {
    '0' <= c <= '9'
  }

  function DigitOf(d: nat): (c: char)
    requires d < 10
    ensures IsDigit(c) && c as int - '0' as int == d
  {
    '0' + d as char
  }

  /** `n` in exactly `width` digits, most significant first; what does not fit is cut off. */
  function Digits(n: nat, width: nat): (s: string)
    ensures |s| == width
    ensures forall i :: 0 <= i < width ==> IsDigit(s[i])
  {
    if width == 0 then "" else Digits(n / 10, width - 1) + [DigitOf(n % 10)]
  }

  /** The value of a string of digits. */
  function Value(s: string): nat
    requires forall i :: 0 <= i < |s| ==> IsDigit(s[i])
  {
    if s == "" then 0 else assert IsDigit(s[|s| - 1]); 10 * Value(s[..|s| - 1]) + (s[|s| - 1] as int - '0' as int)
  }

  predicate AllDigits(s: string) {
    forall i :: 0 <= i < |s| ==> IsDigit(s[i])
  }

  function ParseU64(s: string): Option<nat> {
    var digits := if s != "" && s[0] == '+' then s[1..] else s;
    if digits == "" || !AllDigits(digits) || Value(digits) >= U64_LIMIT then None else Some(Value(digits))
  }

  function NameOf(n: nat): string {
    Digits(n, SEQ_WIDTH) + SUFFIX
  }

  /** The sequence number a directory entry carries, if any. */
  function SeqOf(name: string): Option<nat> {
    if |name| >= |SUFFIX| && name[|name| - |SUFFIX|..] == SUFFIX
    then ParseU64(name[..|name| - |SUFFIX|])
    else None
  }

  function Pow10(k: nat): (p: nat)
    ensures p > 0
  {
    if k == 0 then 1 else 10 * Pow10(k - 1)
  }

  /** Digits read back as the number, as far as the width reaches. */
  lemma {:induction false} DigitsHaveValue(n: nat, width: nat)
    requires n < Pow10(width)
    ensures Value(Digits(n, width)) == n
    decreases width
  {
    if width > 0 {
      DigitsHaveValue(n / 10, width - 1);
      var s := Digits(n, width);
      assert s[..width - 1] == Digits(n / 10, width - 1);
      assert s[width - 1] == DigitOf(n % 10);
    }
  }

  lemma TwentyDigitsAreEnough(n: nat)
    requires n < U64_LIMIT
    ensures n < Pow10(SEQ_WIDTH)
  {
    assert Pow10(5) == 100_000;
    assert Pow10(10) == 100_000 * Pow10(5) by {
      assert Pow10(6) == 10 * Pow10(5);
      assert Pow10(7) == 100 * Pow10(5);
      assert Pow10(8) == 1_000 * Pow10(5);
    }
    assert Pow10(15) == 100_000 * Pow10(10) by {
      assert Pow10(11) == 10 * Pow10(10);
      assert Pow10(12) == 100 * Pow10(10);
      assert Pow10(13) == 1_000 * Pow10(10);
    }
    assert Pow10(20) == 100_000 * Pow10(15) by {
      assert Pow10(16) == 10 * Pow10(15);
      assert Pow10(17) == 100 * Pow10(15);
      assert Pow10(18) == 1_000 * Pow10(15);
    }
  }

  /** Every name the spool writes is read back as the number it was written for. */
  lemma NamesRoundTrip(n: nat)
    requires n < U64_LIMIT
    ensures SeqOf(NameOf(n)) == Some(n)
  {
    TwentyDigitsAreEnough(n);
    DigitsHaveValue(n, SEQ_WIDTH);
    var name := NameOf(n);
    assert name[..SEQ_WIDTH] == Digits(n, SEQ_WIDTH);
    assert name[SEQ_WIDTH..] == SUFFIX;
    assert IsDigit(Digits(n, SEQ_WIDTH)[0]);
  }

  /** Lexical order of strings, as a sorted directory listing has it. */
  predicate LexLess(a: string, b: string) {
    if b == "" then false
    else if a == "" then true
    else if a[0] != b[0] then a[0] < b[0]
    else LexLess(a[1..], b[1..])
  }

  lemma {:induction false} LexOnLast(a: string, b: string, x: char, y: char)
    requires |a| == |b|
    ensures LexLess(a + [x], b + [y]) <==> LexLess(a, b) || (a == b && x < y)
    decreases |a|
  {
    if a != "" {
      assert (a + [x])[1..] == a[1..] + [x] && (b + [y])[1..] == b[1..] + [y];
      LexOnLast(a[1..], b[1..], x, y);
      assert a == [a[0]] + a[1..] && b == [b[0]] + b[1..];
    }
  }

  lemma {:induction false} LexOnSuffix(a: string, b: string, suffix: string)
    requires |a| == |b|
    ensures LexLess(a + suffix, b + suffix) <==> LexLess(a, b)
    decreases |a|
  {
    if a == "" {
      assert a + suffix == suffix && b + suffix == suffix;
      LexIrreflexive(suffix);
    } else {
      assert (a + suffix)[1..] == a[1..] + suffix && (b + suffix)[1..] == b[1..] + suffix;
      LexOnSuffix(a[1..], b[1..], suffix);
    }
  }

  lemma {:induction false} LexIrreflexive(a: string)
    ensures !LexLess(a, a)
    decreases |a|
  {
    if a != "" { LexIrreflexive(a[1..]); }
  }

  lemma {:induction false} DigitsCompare(a: nat, b: nat, width: nat)
    requires a < Pow10(width) && b < Pow10(width)
    ensures LexLess(Digits(a, width), Digits(b, width)) <==> a < b
    ensures Digits(a, width) == Digits(b, width) <==> a == b
    decreases width
  {
    if width > 0 {
      DigitsCompare(a / 10, b / 10, width - 1);
      LexOnLast(Digits(a / 10, width - 1), Digits(b / 10, width - 1), DigitOf(a % 10), DigitOf(b % 10));
      DigitsHaveValue(a, width);
      DigitsHaveValue(b, width);
      assert Digits(a, width)[width - 1] == DigitOf(a % 10);
      assert Digits(b, width)[width - 1] == DigitOf(b % 10);
    }
  }

  /** Directory order is replay order: names compare exactly as the numbers in them. */
  lemma NamesCompareAsNumbers(a: nat, b: nat)
    requires a < U64_LIMIT && b < U64_LIMIT
    ensures LexLess(NameOf(a), NameOf(b)) <==> a < b
    ensures NameOf(a) == NameOf(b) ==> a == b
  {
    TwentyDigitsAreEnough(a);
    TwentyDigitsAreEnough(b);
    DigitsCompare(a, b, SEQ_WIDTH);
    LexOnSuffix(Digits(a, SEQ_WIDTH), Digits(b, SEQ_WIDTH), SUFFIX);
    NamesRoundTrip(a);
    NamesRoundTrip(b);
  }

  /**
   The order is a property of names the spool itself writes. A file somebody else put there with a plus
   sign in its number is read as an entry too, beside the spool's own file of that number.
   */
  lemma PlusSignIsReadAsThatNumber()
    ensures SeqOf("+7.entry") == Some(7) && SeqOf(NameOf(7)) == Some(7) && "+7.entry" != NameOf(7)
  {
    NamesRoundTrip(7);
    var plus := "+7.entry";
    assert plus[..2] == "+7" && plus[2..] == SUFFIX && "+7"[1..] == "7";
    assert "7"[..0] == "";
    assert Value("") == 0;
    assert Value("7") == 7;
    assert |NameOf(7)| != |plus|;
  }

  /** A foreign name with fewer digits is read as an entry out of its lexical place. */
  lemma ShortNameSortsLate()
    ensures SeqOf("9.entry") == Some(9) && LexLess(NameOf(10), "9.entry")
  {
    var short := "9.entry";
    assert short[..1] == "9" && short[1..] == SUFFIX;
    assert "9"[..0] == "";
    assert Value("") == 0;
    assert Value("9") == 9;
    TenStartsWithZero();
  }

  lemma TenStartsWithZero()
    ensures NameOf(10) != [] && NameOf(10)[0] == '0'
  {
    TwentyDigitsAreEnough(10);
    FirstDigit(10, SEQ_WIDTH);
    assert NameOf(10)[0] == Digits(10, SEQ_WIDTH)[0];
  }

  lemma {:induction false} FirstDigit(n: nat, width: nat)
    requires 0 < width && n < Pow10(width - 1)
    ensures Digits(n, width)[0] == '0'
    decreases width
  {
    if width > 1 {
      FirstDigit(n / 10, width - 1);
      assert Digits(n, width)[0] == Digits(n / 10, width - 1)[0];
    }
  }
}
