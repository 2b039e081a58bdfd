/**
 What a crash leaves, at any point of a push or a drain, and how full the spool can get.
 */
module Recovery {
  import opened Outcomes
  import opened Protocol
  import opened Sets
  import opened Conservation

  /** The entries both views agree on: pushed, synced and not yet removed. */
  ghost predicate Pending(d: Disk, k: nat) {
    k in d.vol && k in d.dur && d.vol[k] == d.dur[k]
  }

  /** No success was ever reported for this record. */
  ghost predicate Unacknowledged(s: State, r: Record) {
    && (r in s.answered ==> s.answered[r] == ErrorStatus)
    && (forall c :: c in s.conns && s.conns[c].Answering? && s.conns[c].rec == r ==> s.conns[c].outcome == Io)
  }

  /** A file standing at the next number belongs to a push that has not succeeded. */
  ghost predicate TailUnacknowledged(s: State) {
    && (s.disk.next in s.disk.vol ==> Unacknowledged(s, s.disk.vol[s.disk.next].rec))
    && (s.disk.next in s.disk.vol ==> s.disk.vol[s.disk.next].rec < |s.submitted|)
  }

  lemma LineKeepsTail(s: State, step: LineStep)
    requires TailUnacknowledged(s) && NotYetSpooled(s) && LineEnabled(s, step)
    ensures TailUnacknowledged(LineApply(s, step))
  {
    LineLeavesSpool(s, step);
    if s.disk.next in s.disk.vol {
      var f := s.disk.vol[s.disk.next];
      assert Has(s.disk, s.disk.next, f);
      assert f == File(f.rec, true) || f == File(f.rec, false);
      assert Holds(s.disk, s.disk.next, f.rec);
    }
  }

  lemma DrainKeepsTail(s: State, step: DrainStep)
    requires TailUnacknowledged(s) && HolderOk(s) && DrainEnabled(s, step)
    ensures TailUnacknowledged(DrainApply(s, step))
  {
  }

  lemma PushKeepsTail(s: State, step: PushStep)
    requires TailUnacknowledged(s) && NotYetSpooled(s) && AnsweredDone(s) && ConnsOk(s) && HolderOk(s)
    requires SpoolOk(s) && PushEnabled(s, step)
    ensures TailUnacknowledged(PushApply(s, step))
  {
    var t := PushApply(s, step);
    if s.disk.next in s.disk.vol {
      var f := s.disk.vol[s.disk.next];
      assert Has(s.disk, s.disk.next, f);
      assert f == File(f.rec, true) || f == File(f.rec, false);
      assert Holds(s.disk, s.disk.next, f.rec);
    }
    if step.Create? || step.Write? {
      var c := if step.Create? then step.c else s.lock.conn;
      assert InHand(s.submitted, c, RecordOf(s, c));
    }
  }

  lemma StepKeepsTail(s: State, step: Step)
    requires Inv(s) && TailUnacknowledged(s) && Enabled(s, step)
    ensures TailUnacknowledged(Apply(s, step))
  {
    match step
    case Line(l) => LineKeepsTail(s, l);
    case Drain(d) => DrainKeepsTail(s, d);
    case Push(p) => PushKeepsTail(s, p);
    case Stray(r) =>
    case Crash(left, _) => NextExists(left);
  }

  lemma {:induction false} RunKeepsTail(s: State, steps: seq<Step>)
    requires Inv(s) && TailUnacknowledged(s) && Legal(s, steps)
    ensures TailUnacknowledged(Exec(s, steps))
    decreases |steps|
  {
    if steps != [] {
      StepKeepsInv(s, steps[0]);
      StepKeepsTail(s, steps[0]);
      RunKeepsTail(Apply(s, steps[0]), steps[1..]);
    }
  }

  /** An entry unlinked but not synced: its record was settled, and it stood before everything pending. */
  ghost predicate SettledHead(s: State, k: nat, f: File) {
    s.lock.Removed? && k == s.lock.at && Settled(s, f.rec) && forall j: nat :: Pending(s.disk, j) ==> k < j
  }

  /** The file of an unfinished or failed push: never acknowledged, behind everything pending. */
  ghost predicate UnacknowledgedTail(s: State, k: nat, f: File) {
    k == s.disk.next && Unacknowledged(s, f.rec) && forall j: nat :: Pending(s.disk, j) ==> j < k
  }

  lemma ExtraIsHeadOrTail(s: State, left: Directory, config: Config, k: nat)
    requires SpoolOk(s) && TailUnacknowledged(s) && Enabled(s, Crash(left, config))
    requires k in left && !Pending(s.disk, k)
    ensures SettledHead(s, k, left[k]) || UnacknowledgedTail(s, k, left[k])
  {
    assert (k in s.disk.dur && left[k] == s.disk.dur[k]) || MaySurvive(s.disk, k, left[k], s.lock.Synced?);
    assert forall j: nat :: Pending(s.disk, j) ==> j <= s.disk.next;
  }

  ghost predicate AtMostOneExtra(s: State, left: Directory) {
    forall j, k :: j in left && k in left && !Pending(s.disk, j) && !Pending(s.disk, k) ==> j == k
  }

  /**
   Crash recovery, at every point of every run: reopening finds every pending entry unchanged, and
   beyond those only the head whose removal was not synced yet or the never acknowledged tail, at most
   one of them unless a write failed since the spool was opened; every record answered as spooled and
   not settled meanwhile is there whole; and the next number is past every name found.
   */
  lemma CrashFindsPending(config0: Config, steps: seq<Step>, s: State,
                          left: Directory, config: Config)
    requires Reached(config0, steps, s) && Enabled(s, Crash(left, config))
    ensures forall k: nat :: Pending(s.disk, k) ==> k in left && left[k] == s.disk.vol[k]
    ensures forall k :: k in left && !Pending(s.disk, k) ==>
              SettledHead(s, k, left[k]) || UnacknowledgedTail(s, k, left[k])
    ensures !s.torn ==> AtMostOneExtra(s, left)
    ensures forall r :: r in s.answered && s.answered[r] == SpooledStatus && !Settled(s, r) ==>
              exists k :: k in left && left[k] == File(r, true)
    ensures forall k :: k in left ==> k < Apply(s, Crash(left, config)).disk.next
  {
    StartInv(config0);
    RunKeepsInv(Start(config0), steps);
    RunKeepsTail(Start(config0), steps);
    forall k: nat | Pending(s.disk, k) ensures k in left && left[k] == s.disk.vol[k] {
      assert Durable(s.disk, k, s.disk.vol[k]);
    }
    forall k | k in left && !Pending(s.disk, k)
      ensures SettledHead(s, k, left[k]) || UnacknowledgedTail(s, k, left[k])
    {
      ExtraIsHeadOrTail(s, left, config, k);
    }
    if !s.torn { OneExtra(s, left, config); }
    forall r | r in s.answered && s.answered[r] == SpooledStatus && !Settled(s, r)
      ensures exists k :: k in left && left[k] == File(r, true)
    {
      assert Promise(s, r, SpooledStatus);
      var k :| Durable(s.disk, k, File(r, true));
      assert k in left && left[k] == File(r, true);
    }
    NextExists(left);
  }

  lemma OneExtra(s: State, left: Directory, config: Config)
    requires SpoolOk(s) && Enabled(s, Crash(left, config)) && !s.torn
    ensures AtMostOneExtra(s, left)
  {
    forall k | k in left && !Pending(s.disk, k)
      ensures (s.lock.Removed? && k == s.lock.at) || (Writing(s.lock) && k == s.disk.next)
    {
      assert (k in s.disk.dur && left[k] == s.disk.dur[k]) || MaySurvive(s.disk, k, left[k], s.lock.Synced?);
    }
  }

  /** A failed write's file still stands unsynced while a removal is being synced. */
  ghost predicate TwoLooseEnds(s: State) {
    s.lock.Removed? && s.lock.at in s.disk.dur && s.disk.next in s.disk.vol && s.disk.next !in s.disk.dur
  }

  /**
   When exactly a crash can leave two extra entries: at most one is
   right in every state but those where a failed write's file is still unsynced when a drain has
   unlinked an entry and not synced the directory yet.
   */
  lemma OneExtraExactly(s: State)
    requires SpoolOk(s)
    ensures (forall left, config :: Enabled(s, Crash(left, config)) ==> AtMostOneExtra(s, left)) <==> !TwoLooseEnds(s)
  {
    if TwoLooseEnds(s) {
      var left := s.disk.dur + s.disk.vol;
      assert s.lock.at in left && s.disk.next in left;
      assert !Pending(s.disk, s.lock.at) && !Pending(s.disk, s.disk.next);
      assert Enabled(s, Crash(left, s.config)) && !AtMostOneExtra(s, left);
    } else {
      forall left, config | Enabled(s, Crash(left, config)) ensures AtMostOneExtra(s, left) {
        forall k | k in left && !Pending(s.disk, k)
          ensures if s.lock.Removed? && s.lock.at in s.disk.dur then k == s.lock.at else k == s.disk.next
        {
          assert (k in s.disk.dur && left[k] == s.disk.dur[k]) || MaySurvive(s.disk, k, left[k], s.lock.Synced?);
        }
      }
    }
  }

  ghost predicate Bounded(s: State) {
    |s.disk.vol| <= s.config.capacity || |s.disk.vol| <= s.found
  }

  lemma RemovingShrinks(d: Directory, k: nat)
    ensures |d - {k}| <= |d|
  {
    assert (d - {k}).Keys == d.Keys - {k};
    SubsetSize((d - {k}).Keys, d.Keys);
  }

  lemma UpdateGrowsByOne(d: Directory, k: nat, f: File)
    ensures |d[k := f]| == if k in d then |d| else |d| + 1
  {
    assert d[k := f].Keys == d.Keys + {k};
  }

  lemma DrainKeepsLimits(s: State, step: DrainStep)
    requires DrainEnabled(s, step)
    ensures DrainApply(s, step).config == s.config && DrainApply(s, step).found == s.found
    ensures !step.Unlink? ==> DrainApply(s, step).disk.vol == s.disk.vol
  {
    if !step.Unlink? && !step.SyncRemoval? { DrainLeaves(s, step); }
  }

  lemma DrainKeepsBound(s: State, step: DrainStep)
    requires Bounded(s) && DrainEnabled(s, step)
    ensures Bounded(DrainApply(s, step))
  {
    DrainKeepsLimits(s, step);
    if step.Unlink? { RemovingShrinks(s.disk.vol, s.lock.at); }
  }

  lemma PushKeepsBound(s: State, step: PushStep)
    requires Bounded(s) && ViewsAgree(s.disk, s.lock) && PushEnabled(s, step)
    ensures Bounded(PushApply(s, step))
  {
    if step.Create? {
      UpdateGrowsByOne(s.disk.vol, s.disk.next, File(RecordOf(s, step.c), false));
    } else if step.Write? {
      UpdateGrowsByOne(s.disk.vol, s.disk.next, File(RecordOf(s, s.lock.conn), true));
    }
  }

  lemma LineKeepsBound(s: State, step: LineStep)
    requires Bounded(s) && LineEnabled(s, step)
    ensures Bounded(LineApply(s, step))
  {
  }

  lemma StepKeepsBound(s: State, step: Step)
    requires Bounded(s) && ViewsAgree(s.disk, s.lock) && Enabled(s, step)
    ensures Bounded(Apply(s, step))
  {
    match step
    case Line(l) => LineKeepsBound(s, l);
    case Drain(d) => DrainKeepsBound(s, d);
    case Push(p) => PushKeepsBound(s, p);
    case Stray(r) =>
    case Crash(_, _) =>
  }

  lemma {:induction false} RunKeepsBound(s: State, steps: seq<Step>)
    requires Inv(s) && Bounded(s) && Legal(s, steps)
    ensures Bounded(Exec(s, steps))
    decreases |steps|
  {
    if steps != [] {
      StepKeepsInv(s, steps[0]);
      StepKeepsBound(s, steps[0]);
      RunKeepsBound(Apply(s, steps[0]), steps[1..]);
    }
  }

  /**
   Over every run the spool never holds more than its capacity, or than what it was opened with, and no
   entry's number is past the next one; one stands at it only while it is being written or after a failed
   write, and then it is not a finished push.
   */
  lemma SpoolStaysInBounds(config: Config, steps: seq<Step>, s: State)
    requires Reached(config, steps, s)
    ensures |s.disk.vol| <= s.config.capacity || |s.disk.vol| <= s.found
    ensures forall k :: k in s.disk.vol || k in s.disk.dur ==> k <= s.disk.next
    ensures s.disk.next in s.disk.vol ==> Writing(s.lock) || (s.torn && !s.disk.vol[s.disk.next].whole)
  {
    StartInv(config);
    RunKeepsInv(Start(config), steps);
    RunKeepsBound(Start(config), steps);
  }

  /** A file stands at the next number and nobody is writing it: the next push cannot create its own. */
  predicate Blocked(s: State) {
    !Writing(s.lock) && s.disk.next in s.disk.vol
  }

  /** The step that clears the way: a drain unlinks that file, or the sidecar reopens past it. */
  predicate Clears(s: State, step: Step) {
    step.Crash? || (step.Drain? && step.d.Unlink? && s.lock.Decided? && s.lock.at == s.disk.next)
  }

  /** After a failed write the way is blocked, and every push fails. */
  lemma FailedWriteBlocks(s: State)
    requires WorkOk(s) && PushEnabled(s, WriteFails)
    ensures Blocked(PushApply(s, WriteFails))
  {
  }

  lemma BlockedPushFails(s: State, step: PushStep)
    requires Blocked(s) && PushEnabled(s, step)
    ensures step.PushRefused? && (step.why == Io || |s.disk.vol| >= s.config.capacity)
  {
  }

  lemma BlockedDrain(s: State, step: DrainStep)
    requires Blocked(s) && DrainEnabled(s, step)
    ensures Blocked(DrainApply(s, step)) <==> !Clears(s, Drain(step))
  {
    DrainKeepsLimits(s, step);
    if !step.Unlink? && !step.SyncRemoval? { DrainLeaves(s, step); }
  }

  /** It stays blocked exactly until the tail is drained or the sidecar reopens. */
  lemma BlockedExactlyUntilCleared(s: State, step: Step)
    requires Blocked(s) && Enabled(s, step)
    ensures Blocked(Apply(s, step)) <==> !Clears(s, step)
  {
    match step
    case Line(l) => LineLeavesSpool(s, l);
    case Drain(d) => BlockedDrain(s, d);
    case Push(p) => BlockedPushFails(s, p);
    case Stray(_) =>
    case Crash(left, _) => NextExists(left);
  }

  ghost predicate Uncleared(s: State, steps: seq<Step>)
    requires Legal(s, steps)
    decreases |steps|
  {
    steps == [] || (!Clears(s, steps[0]) && Uncleared(Apply(s, steps[0]), steps[1..]))
  }

  /** Over every run from there that does not clear the way: no push creates anything, and it is blocked still. */
  lemma {:induction false} NothingIsPushedUntilCleared(s: State, steps: seq<Step>)
    requires Blocked(s) && Legal(s, steps) && Uncleared(s, steps)
    ensures Blocked(Exec(s, steps))
    ensures forall i :: 0 <= i < |steps| && steps[i].Push? ==> steps[i].p.PushRefused?
    decreases |steps|
  {
    if steps != [] {
      BlockedExactlyUntilCleared(s, steps[0]);
      if steps[0].Push? { BlockedPushFails(s, steps[0].p); }
      NothingIsPushedUntilCleared(Apply(s, steps[0]), steps[1..]);
    }
  }

  /** So from a failed write in any run on, every push is refused until the way is cleared. */
  lemma FailedWriteStopsEveryPush(config: Config, before: seq<Step>, s: State, steps: seq<Step>)
    requires Reached(config, before, s) && PushEnabled(s, WriteFails)
    requires Legal(PushApply(s, WriteFails), steps) && Uncleared(PushApply(s, WriteFails), steps)
    ensures forall i :: 0 <= i < |steps| && steps[i].Push? ==> steps[i].p.PushRefused?
  {
    StartInv(config);
    RunKeepsInv(Start(config), before);
    FailedWriteBlocks(s);
    NothingIsPushedUntilCleared(PushApply(s, WriteFails), steps);
  }
}
