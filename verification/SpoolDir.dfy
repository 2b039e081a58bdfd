/**
 The spool itself: one file per entry in a directory that other files may share, and no other record
 of what is pending.

 I/O failures are inputs (`PushFault`, and the `readable`/`removable` oracles of `Drain`). An fsync
 failure is not among them: it counts as a crash, which the `Protocol` module has.
 */
module SpoolDir {
  import opened Wrappers
  import opened Outcomes
  import opened Sets
  import opened SpoolNames
  import opened Utf8

  /** The directory: every file in it by name, entries and foreign files alike. */
  type Files = map<string, seq<Byte>>

  predicate IsEntry(name: string) {
    SeqOf(name).Some?
  }

  function SeqIn(name: string): nat {
    match SeqOf(name)
    case Some(n) => n
    case None => 0
  }

  /** Whatever carries a sequence number carries the spool's own spelling of it. */
  ghost predicate OwnNames(dir: Files) {
    forall name :: name in dir && IsEntry(name) ==> name == NameOf(SeqIn(name)) && SeqIn(name) < U64_LIMIT
  }

  function EntriesAmong(names: set<string>): set<string> {
    set name | name in names && IsEntry(name)
  }

  function EntryNames(dir: Files): set<string> {
    EntriesAmong(dir.Keys)
  }

  type Found = (nat, string)

  predicate Ordered(found: seq<Found>) {
    forall i, j :: 0 <= i < j < |found| ==> found[i].0 <= found[j].0
  }

  function Insert(found: seq<Found>, e: Found): (r: seq<Found>)
    ensures multiset(r) == multiset(found) + multiset{e}
  {
    if found == [] then [e]
    else if e.0 <= found[0].0 then [e] + found
    else
      assert found == [found[0]] + found[1..];
      [found[0]] + Insert(found[1..], e)
  }

  lemma {:induction false} InsertStaysAbove(low: nat, found: seq<Found>, e: Found)
    requires low <= e.0 && forall i :: 0 <= i < |found| ==> low <= found[i].0
    ensures forall i :: 0 <= i < |Insert(found, e)| ==> low <= Insert(found, e)[i].0
    decreases |found|
  {
    if found != [] && found[0].0 < e.0 { InsertStaysAbove(low, found[1..], e); }
  }

  lemma {:induction false} InsertKeepsOrder(found: seq<Found>, e: Found)
    requires Ordered(found)
    ensures Ordered(Insert(found, e))
    decreases |found|
  {
    if found != [] && found[0].0 < e.0 {
      InsertKeepsOrder(found[1..], e);
      InsertStaysAbove(found[0].0, found[1..], e);
    }
  }

  /** Stands for the library's sort by sequence number. */
  function SortBySeq(found: seq<Found>): (r: seq<Found>)
    ensures multiset(r) == multiset(found)
  {
    if found == [] then []
    else
      assert found == [found[0]] + found[1..];
      Insert(SortBySeq(found[1..]), found[0])
  }

  lemma {:induction false} SortOrders(found: seq<Found>)
    ensures Ordered(SortBySeq(found))
    decreases |found|
  {
    if found != [] {
      SortOrders(found[1..]);
      InsertKeepsOrder(SortBySeq(found[1..]), found[0]);
    }
  }

  predicate Ascending(order: seq<nat>) {
    forall i, j :: 0 <= i < j < |order| ==> order[i] < order[j]
  }

  /** The pending sequence numbers, oldest first. */
  ghost predicate IsOrder(dir: Files, order: seq<nat>) {
    && Ascending(order)
    && (forall n :: n in order ==> n < U64_LIMIT && NameOf(n) in dir)
    && (forall name :: name in dir && IsEntry(name) ==> SeqIn(name) in order)
  }

  lemma HeadIsLeast(a: seq<nat>, n: nat)
    requires Ascending(a) && a != []
    ensures n in a[1..] <==> n in a && n != a[0]
  {
    assert a == [a[0]] + a[1..];
    if n in a[1..] {
      var i :| 0 <= i < |a[1..]| && a[1..][i] == n;
      assert a[0] < a[i + 1];
    }
  }

  /** A directory has one replay order. */
  lemma {:induction false} OrderIsUnique(a: seq<nat>, b: seq<nat>)
    requires Ascending(a) && Ascending(b)
    requires forall n :: n in a <==> n in b
    ensures a == b
    decreases |a|
  {
    if a == [] {
      assert forall i :: 0 <= i < |b| ==> b[i] in b;
    } else {
      assert a[0] in b && b != [];
      assert b[0] in a;
      forall n ensures n in a[1..] <==> n in b[1..] {
        HeadIsLeast(a, n);
        HeadIsLeast(b, n);
      }
      OrderIsUnique(a[1..], b[1..]);
    }
  }

  lemma OneMoreName(names: set<string>, name: string)
    requires name !in names
    ensures IsEntry(name) ==> EntriesAmong(names + {name}) == EntriesAmong(names) + {name} && name !in EntriesAmong(names)
    ensures !IsEntry(name) ==> EntriesAmong(names + {name}) == EntriesAmong(names)
  {
  }

  lemma SortKeepsMembers(found: seq<Found>)
    ensures Ordered(SortBySeq(found)) && |SortBySeq(found)| == |found|
    ensures forall e :: e in SortBySeq(found) <==> e in found
  {
    SortOrders(found);
    var r := SortBySeq(found);
    assert |r| == |multiset(r)| == |multiset(found)| == |found|;
    forall e ensures e in r <==> e in found {
      assert e in r <==> e in multiset(r);
    }
  }

  /** Pending entries of a directory, oldest first: `entries`. */
  method Entries(dir: Files) returns (found: seq<Found>)
    ensures Ordered(found)
    ensures forall e :: e in found <==> e.1 in dir && SeqOf(e.1) == Some(e.0)
    ensures |found| == |EntryNames(dir)|
    ensures forall e :: multiset(found)[e] <= 1
  {
    found := [];
    var left := dir.Keys;
    ghost var seen: set<string> := {};
    while left != {}
      invariant left !! seen && left + seen == dir.Keys
      invariant forall e :: e in found <==> e.1 in seen && SeqOf(e.1) == Some(e.0)
      invariant |found| == |EntriesAmong(seen)|
      invariant forall e :: multiset(found)[e] <= 1
      decreases left
    {
      var name :| name in left;
      OneMoreName(seen, name);
      left := left - {name};
      match SeqOf(name) {
        case Some(n) =>
          assert (n, name) !in found;
          found := found + [(n, name)];
        case None =>
      }
      seen := seen + {name};
    }
    assert seen == dir.Keys;
    SortKeepsMembers(found);
    found := SortBySeq(found);
  }

  function Seqs(found: seq<Found>): (order: seq<nat>)
    ensures |order| == |found| && forall i :: 0 <= i < |found| ==> order[i] == found[i].0
  {
    seq(|found|, i requires 0 <= i < |found| => found[i].0)
  }

  lemma TwiceCounts(found: seq<Found>, i: nat, j: nat)
    requires i < j < |found| && found[i] == found[j]
    ensures multiset(found)[found[i]] >= 2
  {
    assert found == found[..j] + found[j..];
    assert found[i] in found[..j] && found[j] in found[j..];
  }

  /** A listing of a directory with no foreign numbered names is its replay order. */
  lemma ListingIsOrder(dir: Files, found: seq<Found>)
    requires OwnNames(dir) && Ordered(found) && forall e :: multiset(found)[e] <= 1
    requires forall e :: e in found <==> e.1 in dir && SeqOf(e.1) == Some(e.0)
    ensures IsOrder(dir, Seqs(found))
    ensures forall i :: 0 <= i < |found| ==> found[i].1 == NameOf(found[i].0)
  {
    forall i, j | 0 <= i < j < |found| ensures found[i].0 < found[j].0 {
      assert found[i] in found && found[j] in found;
      if found[i].0 == found[j].0 { TwiceCounts(found, i, j); }
    }
    forall i | 0 <= i < |found| ensures found[i].1 == NameOf(found[i].0) { assert found[i] in found; }
    forall name | name in dir && IsEntry(name) ensures SeqIn(name) in Seqs(found) {
      var e := (SeqIn(name), name);
      assert e in found;
      var i :| 0 <= i < |found| && found[i] == e;
      assert Seqs(found)[i] == SeqIn(name);
    }
    forall n | n in Seqs(found) ensures n < U64_LIMIT && NameOf(n) in dir {
      var i :| 0 <= i < |found| && Seqs(found)[i] == n;
      assert found[i] in found;
    }
  }

  lemma AddingAnEntry(dir: Files, n: nat, contents: seq<Byte>)
    requires OwnNames(dir) && n < U64_LIMIT && NameOf(n) !in dir
    ensures OwnNames(dir[NameOf(n) := contents]) && SeqOf(NameOf(n)) == Some(n)
    ensures |EntryNames(dir[NameOf(n) := contents])| == |EntryNames(dir)| + 1
  {
    NamesRoundTrip(n);
    var name := NameOf(n);
    OneMoreName(dir.Keys, name);
    assert dir[name := contents].Keys == dir.Keys + {name};
  }

  /**
   A pushed entry goes last: with every number on disk below `n`, the replay order of the directory
   grows by `n` at its end, whatever else is in it.
   */
  lemma PushedGoesLast(dir: Files, order: seq<nat>, n: nat, contents: seq<Byte>)
    requires OwnNames(dir) && IsOrder(dir, order) && n < U64_LIMIT
    requires forall name :: name in dir && IsEntry(name) ==> SeqIn(name) < n
    ensures NameOf(n) !in dir && IsOrder(dir[NameOf(n) := contents], order + [n])
  {
    NamesRoundTrip(n);
    var name := NameOf(n);
    assert name !in dir;
    forall i | 0 <= i < |order| ensures order[i] < n {
      assert order[i] in order;
      NamesRoundTrip(order[i]);
    }
    forall k | k in order + [n] ensures k < U64_LIMIT && NameOf(k) in dir[name := contents] {
      assert k == n || k in order;
    }
    forall other | other in dir[name := contents] && IsEntry(other) ensures SeqIn(other) in order + [n] {
      if other != name { assert SeqIn(other) in order; } else { assert (order + [n])[|order|] == n; }
    }
  }

  /** Where a push can fail short of a crash. */
  datatype PushFault = NoFault | ListingFails | CreateFails | WriteFails(written: nat)

  /** `after` is `before` without its `n` oldest entries; every other file, foreign ones too, is untouched. */
  ghost predicate OldestRemoved(before: Files, after: Files, order: seq<nat>, n: nat) {
    && n <= |order|
    && (forall name :: name in after <==> name in before && !(IsEntry(name) && SeqIn(name) in order[..n]))
    && (forall name :: name in after ==> after[name] == before[name])
  }

  lemma NextIsThere(before: Files, dir: Files, order: seq<nat>, n: nat)
    requires OwnNames(before) && IsOrder(before, order) && OldestRemoved(before, dir, order, n) && n < |order|
    ensures NameOf(order[n]) in dir && NameOf(order[n]) in before && dir[NameOf(order[n])] == before[NameOf(order[n])]
    ensures forall name :: name in before && IsEntry(name) && SeqIn(name) == order[n] ==> name == NameOf(order[n])
  {
    assert order[n] in order && order[n] !in order[..n];
    NamesRoundTrip(order[n]);
  }

  lemma RemovingTheNext(before: Files, dir: Files, order: seq<nat>, n: nat)
    requires OwnNames(before) && IsOrder(before, order) && OldestRemoved(before, dir, order, n) && n < |order|
    ensures NameOf(order[n]) in dir && NameOf(order[n]) in before && dir[NameOf(order[n])] == before[NameOf(order[n])]
    ensures OldestRemoved(before, dir - {NameOf(order[n])}, order, n + 1)
    ensures OwnNames(dir - {NameOf(order[n])})
  {
    NextIsThere(before, dir, order, n);
    NamesRoundTrip(order[n]);
    var left := dir - {NameOf(order[n])};
    assert order[..n + 1] == order[..n] + [order[n]];
    forall name ensures name in left <==> name in before && !(IsEntry(name) && SeqIn(name) in order[..n + 1]) {
      assert SeqIn(name) in order[..n + 1] <==> SeqIn(name) in order[..n] || SeqIn(name) == order[n];
    }
  }

  lemma RemovingLeavesFewer(before: Files, after: Files, order: seq<nat>, n: nat, next: nat, writeFailed: bool)
    requires OldestRemoved(before, after, order, n)
    ensures |EntryNames(after)| <= |EntryNames(before)|
    ensures NumbersBelow(before, next, writeFailed) ==> NumbersBelow(after, next, writeFailed)
  {
    assert EntryNames(after) <= EntryNames(before);
    SubsetSize(EntryNames(after), EntryNames(before));
  }

  /** Every number on disk is below `next`, or at it once a write has failed. */
  ghost predicate NumbersBelow(dir: Files, next: nat, writeFailed: bool) {
    forall name :: name in dir && IsEntry(name) ==> SeqIn(name) < next || (writeFailed && SeqIn(name) == next)
  }

  lemma NumbersStayBelow(dir: Files, n: nat, contents: seq<Byte>, writeFailed: bool)
    requires NumbersBelow(dir, n, writeFailed) && n < U64_LIMIT
    ensures NumbersBelow(dir[NameOf(n) := contents], n + 1, writeFailed)
    ensures NumbersBelow(dir[NameOf(n) := contents], n, true)
  {
    NamesRoundTrip(n);
  }

  /** The number after a 64-bit number, which past the last one is zero. */
  function After(n: nat): nat {
    if n + 1 == U64_LIMIT then 0 else n + 1
  }

  predicate EndsAtTheTop(found: seq<Found>) {
    found != [] && found[|found| - 1].0 + 1 == U64_LIMIT
  }

  /** One past the last number of a listing, or zero. */
  function NextAfter(found: seq<Found>): nat {
    if found == [] then 0 else After(found[|found| - 1].0)
  }

  lemma LastIsHighest(dir: Files, found: seq<Found>)
    requires OwnNames(dir) && Ordered(found) && forall e :: e in found <==> e.1 in dir && SeqOf(e.1) == Some(e.0)
    ensures forall name :: name in dir && IsEntry(name) ==> found != [] && SeqIn(name) <= found[|found| - 1].0
    ensures found != [] ==> found[|found| - 1].0 < U64_LIMIT && NameOf(found[|found| - 1].0) in dir
    ensures NameOf(U64_LIMIT - 1) in dir <==> EndsAtTheTop(found)
  {
    if found != [] { assert found[|found| - 1] in found; }
    forall name | name in dir && IsEntry(name) ensures found != [] && SeqIn(name) <= found[|found| - 1].0 {
      assert (SeqIn(name), name) in found;
    }
    NamesRoundTrip(U64_LIMIT - 1);
  }

  lemma NextIsPastTheLast(dir: Files, found: seq<Found>)
    requires OwnNames(dir) && Ordered(found) && forall e :: e in found <==> e.1 in dir && SeqOf(e.1) == Some(e.0)
    ensures NextAfter(found) < U64_LIMIT && (NextAfter(found) == 0 || NameOf(NextAfter(found) - 1) in dir)
    ensures !EndsAtTheTop(found) ==> NumbersBelow(dir, NextAfter(found), false)
    ensures EndsAtTheTop(found) <==> NameOf(U64_LIMIT - 1) in dir
  {
    LastIsHighest(dir, found);
    if found != [] && !EndsAtTheTop(found) { assert NextAfter(found) == found[|found| - 1].0 + 1; }
  }

  /** What was sent is the contents of the first entries, in order. */
  ghost predicate SentOldest(before: Files, order: seq<nat>, sent: seq<seq<Byte>>) {
    && |sent| <= |order|
    && forall i :: 0 <= i < |sent| ==> NameOf(order[i]) in before && sent[i] == before[NameOf(order[i])]
  }

  ghost predicate AllFinal(send: (nat, seq<Byte>) -> Outcome, sent: seq<seq<Byte>>, n: nat) {
    n <= |sent| && forall i :: 0 <= i < n ==> IsFinal(send(i, sent[i]))
  }

  lemma SendingTheNext(before: Files, order: seq<nat>, sent: seq<seq<Byte>>, x: seq<Byte>, send: (nat, seq<Byte>) -> Outcome)
    requires |sent| < |order| && NameOf(order[|sent|]) in before && x == before[NameOf(order[|sent|])]
    requires SentOldest(before, order, sent) && AllFinal(send, sent, |sent|)
    ensures SentOldest(before, order, sent + [x]) && AllFinal(send, sent + [x], |sent|)
    ensures IsFinal(send(|sent|, x)) ==> AllFinal(send, sent + [x], |sent| + 1)
  {
  }

  /** Why a drain ended after removing `n` entries, and with which error, `Ok` standing for none. */
  ghost predicate EndedFor(send: (nat, seq<Byte>) -> Outcome, readable: nat -> bool, removable: nat -> bool,
                           order: seq<nat>, sent: seq<seq<Byte>>, n: nat, error: Outcome) {
    || (n == |sent| == |order| && error == Ok)
    || (n == |sent| < |order| && !readable(n) && error == Io)
    || (n + 1 == |sent| && readable(n) &&
        var verdict := send(n, sent[n]);
        if verdict == Spooled then error == Ok
        else if IsFinal(verdict) then !removable(n) && error == Io
        else error == verdict)
  }

  class Spool {
    var dir: Files
    var next: nat
    const capacity: nat
    ghost const foundAtOpen: nat   // entries found when this spool was opened
    ghost var writeFailed: bool    // a write has failed since then
    ghost var wrapped: bool        // the sequence number has come round to zero since then

    ghost predicate Valid()
      reads this
    {
      && next < U64_LIMIT
      && OwnNames(dir)
      && (!wrapped ==> NumbersBelow(dir, next, writeFailed))
      && (|EntryNames(dir)| <= capacity || |EntryNames(dir)| <= foundAtOpen)
    }

    /**
     `open_with_capacity`: resumes past the highest number on disk; past the last 64-bit number comes zero,
     as it does where overflow is not checked.
     */
    constructor Open(onDisk: Files, capacity: nat)
      requires OwnNames(onDisk)
      ensures Valid() && dir == onDisk && this.capacity == capacity && !writeFailed
      ensures foundAtOpen == |EntryNames(onDisk)|
      ensures next == 0 || NameOf(next - 1) in onDisk
      ensures wrapped <==> NameOf(U64_LIMIT - 1) in onDisk
    {
      var found := Entries(onDisk);
      this.dir := onDisk;
      this.capacity := capacity;
      this.next := NextAfter(found);
      this.wrapped := EndsAtTheTop(found);
      this.foundAtOpen := |EntryNames(onDisk)|;
      this.writeFailed := false;
      NextIsPastTheLast(onDisk, found);
    }

    method Depth() returns (n: nat)
      requires Valid()
      ensures n == |EntryNames(dir)|
    {
      var found := Entries(dir);
      n := |found|;
    }

    /** `push`: one new file under the next number, or nothing, or a torn file after a failed write. */
    method Push(sealed: seq<Byte>, fault: PushFault) returns (r: Outcome)
      requires Valid()
      requires fault.WriteFails? ==> fault.written < |sealed|
      modifies this
      ensures Valid()
      ensures r == SpoolFull <==> fault != ListingFails && |EntryNames(old(dir))| >= capacity
      ensures r == Ok <==>
                fault == NoFault && |EntryNames(old(dir))| < capacity && NameOf(old(next)) !in old(dir)
      ensures r == Ok || r == SpoolFull || r == Io
      ensures r == Ok ==> dir == old(dir)[NameOf(old(next)) := sealed] && next == After(old(next))
      ensures r == Ok ==> SeqOf(NameOf(old(next))) == Some(old(next)) && NameOf(old(next)) !in old(dir)
      ensures r != Ok ==> next == old(next)
      ensures r != Ok && dir != old(dir) ==>
                fault.WriteFails? && NameOf(next) !in old(dir) && dir == old(dir)[NameOf(next) := sealed[..fault.written]]
      ensures fault.WriteFails? && r == Io && NameOf(next) !in old(dir) ==> NameOf(next) in dir
      ensures r == SpoolFull ==> dir == old(dir)
      ensures wrapped == (old(wrapped) || (r == Ok && old(next) + 1 == U64_LIMIT))
      ensures writeFailed == (old(writeFailed) || (dir != old(dir) && r == Io))
    {
      r := Io;
      if fault != ListingFails {
        var depth := Depth();
        if depth >= capacity {
          r := SpoolFull;
        } else if fault != CreateFails && NameOf(next) !in dir {
          var contents := if fault.WriteFails? then sealed[..fault.written] else sealed;
          AddingAnEntry(dir, next, contents);
          if !wrapped { NumbersStayBelow(dir, next, contents, writeFailed); }
          dir := dir[NameOf(next) := contents];
          if fault.WriteFails? {
            writeFailed := true;
          } else {
            wrapped := wrapped || next + 1 == U64_LIMIT;
            next := After(next);
            r := Ok;
          }
        }
      }
    }

    /**
     `drain`: replays the entries oldest first and removes each one only on its own final verdict.
     `send(i, bytes)` is the closure's i-th result; `readable(i)` and `removable(i)` say whether the
     i-th read and unlink succeed.
     */
    method Drain(send: (nat, seq<Byte>) -> Outcome, readable: nat -> bool, removable: nat -> bool)
      returns (removed: nat, error: Outcome, sent: seq<seq<Byte>>, ghost order: seq<nat>)
      requires Valid()
      modifies this`dir
      ensures Valid() && IsOrder(old(dir), order)
      ensures OldestRemoved(old(dir), dir, order, removed)
      ensures SentOldest(old(dir), order, sent) && AllFinal(send, sent, removed)
      ensures EndedFor(send, readable, removable, order, sent, removed, error)
    {
      ghost var before := dir;
      var found := Entries(dir);
      ListingIsOrder(dir, found);
      order := Seqs(found);
      removed, error, sent := 0, Ok, [];
      var stopped := false;
      while removed < |found| && !stopped
        invariant removed <= |found| && OldestRemoved(before, dir, order, removed) && OwnNames(dir)
        invariant SentOldest(before, order, sent) && AllFinal(send, sent, removed)
        invariant if stopped then EndedFor(send, readable, removable, order, sent, removed, error)
                  else removed == |sent| && error == Ok
        decreases |found| - removed, !stopped
      {
        var name := found[removed].1;
        RemovingTheNext(before, dir, order, removed);
        if !readable(removed) {
          error, stopped := Io, true;
        } else {
          SendingTheNext(before, order, sent, dir[name], send);
          sent := sent + [dir[name]];
          var verdict := send(removed, dir[name]);
          if verdict == Spooled {
            stopped := true;
          } else if !IsFinal(verdict) {
            error, stopped := verdict, true;
          } else if !removable(removed) {
            error, stopped := Io, true;
          } else {
            dir := dir - {name};
            removed := removed + 1;
          }
        }
      }
      RemovingLeavesFewer(before, dir, order, removed, next, writeFailed);
    }
  }
}
