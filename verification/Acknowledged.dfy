/**
 Records answered accepted or spooled reach the service in the order they were sent, late acceptances
 included: among the records of one connection in every run, and among all records in a run with one
 submitter at a time. `solo` says which of the two is meant.
 */
module Acknowledged {
  import opened Outcomes
  import opened Protocol
  import opened Conservation
  import opened Ordering
  import opened SoloOrder

  /** `l` was sent after `e`: on the same connection, or by whoever, when there is one submitter at a time. */
  predicate Follows(solo: bool, submitted: seq<ConnId>, e: Record, l: Record) {
    e < l < |submitted| && (solo || submitted[e] == submitted[l])
  }

  predicate Acked(s: State, r: Record) {
    r in s.answered && (s.answered[r] == AcceptedStatus || s.answered[r] == SpooledStatus)
  }

  /** Turned away after it was acknowledged, or never heard of again by the spool. */
  predicate TurnedAway(s: State, r: Record) {
    r in s.refused || r in s.dropped
  }

  /** Whatever leaves for the service has every acknowledged record before it settled. */
  ghost predicate PostedBehind(solo: bool, s: State) {
    forall e: Record, l: Record ::
      Follows(solo, s.submitted, e, l) && l in s.posted && Acked(s, e) ==> Settled(s, e)
  }

  /** At every acceptance, the acknowledged records before it were accepted before, or are turned away. */
  ghost predicate LogInOrder(solo: bool, s: State) {
    forall j, e: Record ::
      0 <= j < |s.log| && Follows(solo, s.submitted, e, s.log[j]) && Acked(s, e)
      ==> e in s.log[..j] || TurnedAway(s, e)
  }

  ghost predicate AckInv(solo: bool, s: State) {
    PostedBehind(solo, s) && LogPosted(s) && LogInOrder(solo, s)
  }

  ghost predicate FilesInOrder(solo: bool, s: State) {
    if solo then Ascending(s.disk) && OnlyNewest(s) else FilesOrdered(s.disk, s.submitted)
  }

  /** Sent last, so far. */
  ghost predicate NoFollower(solo: bool, s: State, e: Record) {
    forall l: Record :: !Follows(solo, s.submitted, e, l)
  }

  /** Everything acknowledged before `l` is settled. */
  ghost predicate ClearBefore(solo: bool, s: State, l: Record) {
    forall e: Record :: Follows(solo, s.submitted, e, l) && Acked(s, e) ==> Settled(s, e)
  }

  /** Records newly posted have all before them settled; records newly acknowledged have none after them. */
  ghost predicate Advances(solo: bool, s: State, t: State) {
    && Grows(s, t) && s.submitted <= t.submitted
    && (forall e: Record :: Acked(t, e) ==> Acked(s, e) || NoFollower(solo, t, e))
    && (forall l :: l in t.posted && l !in s.posted ==> l < |s.submitted| && ClearBefore(solo, s, l))
    && (t.log == s.log || (|t.log| == |s.log| + 1 && t.log[|s.log|] in t.posted))
  }

  lemma AdvancingSettles(solo: bool, s: State, t: State, e: Record, l: Record)
    requires PostedBehind(solo, s) && HistoryOk(s) && Advances(solo, s, t)
    requires Follows(solo, t.submitted, e, l) && l in t.posted && Acked(t, e)
    ensures Settled(s, e) && l < |s.submitted| && Acked(s, e)
  {
    assert !NoFollower(solo, t, e);
    assert l < |s.submitted|;
    assert Follows(solo, s.submitted, e, l);
    if l !in s.posted { assert ClearBefore(solo, s, l); }
  }

  lemma AdvancingKeepsOrder(solo: bool, s: State, t: State)
    requires AckInv(solo, s) && HistoryOk(s) && Advances(solo, s, t)
    ensures AckInv(solo, t)
  {
    forall e: Record, l: Record | Follows(solo, t.submitted, e, l) && l in t.posted && Acked(t, e) ensures Settled(t, e) {
      AdvancingSettles(solo, s, t, e, l);
    }
    forall r | r in t.log ensures r in t.posted {
      if r !in s.log { assert t.log[|s.log|] == r; }
    }
    forall j, e: Record | 0 <= j < |t.log| && Follows(solo, t.submitted, e, t.log[j]) && Acked(t, e)
      ensures e in t.log[..j] || TurnedAway(t, e)
    {
      assert t.log[j] in t.log;
      AdvancingSettles(solo, s, t, e, t.log[j]);
      if j < |s.log| {
        assert s.log[j] == t.log[j] && s.log[..j] == t.log[..j];
        assert Follows(solo, s.submitted, e, s.log[j]);
      } else {
        assert t.log[..j] == s.log;
      }
    }
  }

  lemma EmptySpoolIsClear(solo: bool, s: State, l: Record)
    requires PromisesKept(s) && s.disk.vol == map[]
    ensures ClearBefore(solo, s, l)
  {
    forall e: Record | Follows(solo, s.submitted, e, l) && Acked(s, e) ensures Settled(s, e) {
      assert Promise(s, e, s.answered[e]);
    }
  }

  lemma OldestIsClear(solo: bool, s: State, at: nat)
    requires PromisesKept(s) && FilesInOrder(solo, s) && HistoryOk(s) && IsMin(s.disk.vol, at)
    ensures ClearBefore(solo, s, s.disk.vol[at].rec)
  {
    var l := s.disk.vol[at].rec;
    forall e: Record | Follows(solo, s.submitted, e, l) && Acked(s, e) ensures Settled(s, e) {
      assert Promise(s, e, s.answered[e]);
      if !Settled(s, e) {
        var k :| Durable(s.disk, k, File(e, true));
        assert Has(s.disk, k, File(e, true)) && Has(s.disk, at, s.disk.vol[at]);
        assert false;
      }
    }
  }

  lemma LastSentHasNoFollower(solo: bool, s: State, c: ConnId)
    requires ConnsOk(s) && FilesInOrder(solo, s) && c in s.conns && !s.conns[c].Idle?
    ensures NoFollower(solo, s, s.conns[c].rec)
  {
    var e := s.conns[c].rec;
    assert InHand(s.submitted, c, e);
  }

  lemma LinePosts(s: State, step: LineStep)
    requires LineEnabled(s, step)
    ensures forall l :: l in LineApply(s, step).posted && l !in s.posted ==>
              step.SecondDepth? && l == RecordOf(s, step.c) && s.disk.vol == map[]
    ensures var t := LineApply(s, step);
      t.log == s.log || (|t.log| == |s.log| + 1 && t.log[|s.log|] in t.posted)
    ensures s.submitted <= LineApply(s, step).submitted
  {
  }

  lemma LineAnswers(s: State, step: LineStep)
    requires LineEnabled(s, step)
    ensures forall e: Record :: Acked(LineApply(s, step), e) ==>
              Acked(s, e) || (step.Answer? && e == RecordOf(s, step.c) && LineApply(s, step).submitted == s.submitted)
  {
  }

  lemma LineAdvances(solo: bool, s: State, step: LineStep)
    requires ConnsOk(s) && PromisesKept(s) && FilesInOrder(solo, s) && LineEnabled(s, step)
    ensures Advances(solo, s, LineApply(s, step))
  {
    var t := LineApply(s, step);
    LineGrows(s, step);
    LinePosts(s, step);
    LineAnswers(s, step);
    forall l | l in t.posted && l !in s.posted ensures l < |s.submitted| && ClearBefore(solo, s, l) {
      assert InHand(s.submitted, step.c, RecordOf(s, step.c));
      EmptySpoolIsClear(solo, s, l);
    }
    if step.Answer? { LastSentHasNoFollower(solo, s, step.c); }
  }

  lemma DrainPosts(s: State, step: DrainStep)
    requires DrainEnabled(s, step)
    ensures forall l :: l in DrainApply(s, step).posted && l !in s.posted ==>
              step.Hand? && l == s.disk.vol[step.at].rec
    ensures var t := DrainApply(s, step);
      t.log == s.log || (|t.log| == |s.log| + 1 && t.log[|s.log|] in t.posted)
  {
  }

  lemma DrainAdvances(solo: bool, s: State, step: DrainStep)
    requires PromisesKept(s) && HistoryOk(s) && FilesInOrder(solo, s) && DrainEnabled(s, step)
    ensures Advances(solo, s, DrainApply(s, step))
  {
    var t := DrainApply(s, step);
    DrainGrows(s, step);
    DrainPosts(s, step);
    DrainLeaves(s, step);
    forall l | l in t.posted && l !in s.posted ensures l < |s.submitted| && ClearBefore(solo, s, l) {
      OldestIsClear(solo, s, step.at);
    }
    assert forall e: Record :: Acked(t, e) ==> Acked(s, e);
  }

  lemma PushAdvances(solo: bool, s: State, step: PushStep)
    requires PushEnabled(s, step)
    ensures Advances(solo, s, PushApply(s, step))
  {
    assert forall e: Record :: Acked(PushApply(s, step), e) ==> Acked(s, e);
  }

  lemma OtherAdvances(solo: bool, s: State, step: Step)
    requires Enabled(s, step) && (step.Stray? || step.Crash?)
    ensures Advances(solo, s, Apply(s, step))
  {
    assert forall e: Record :: Acked(Apply(s, step), e) ==> Acked(s, e);
  }

  lemma StepAdvances(solo: bool, s: State, step: Step)
    requires Inv(s) && FilesInOrder(solo, s) && Enabled(s, step)
    ensures Advances(solo, s, Apply(s, step))
  {
    match step
    case Line(l) => LineAdvances(solo, s, l);
    case Drain(d) => DrainAdvances(solo, s, d);
    case Push(p) => PushAdvances(solo, s, p);
    case Stray(_) => OtherAdvances(solo, s, step);
    case Crash(_, _) => OtherAdvances(solo, s, step);
  }

  lemma LineKeepsFilesInOrder(solo: bool, s: State, step: LineStep)
    requires FilesInOrder(solo, s) && HistoryOk(s) && LineEnabled(s, step) && (solo ==> KeepsToOne(s, Line(step)))
    ensures FilesInOrder(solo, LineApply(s, step))
  {
    LineLeavesSpool(s, step);
    if solo { LineKeepsNewest(s, step); } else { LineKeepsFiles(s, step); }
  }

  lemma DrainKeepsFilesInOrder(solo: bool, s: State, step: DrainStep)
    requires FilesInOrder(solo, s) && HolderOk(s) && DrainEnabled(s, step)
    ensures FilesInOrder(solo, DrainApply(s, step))
  {
    var t := DrainApply(s, step);
    forall k, f | Has(t.disk, k, f) ensures Has(s.disk, k, f) { DrainOnlyRemoves(s, step, k, f); }
    if solo { DrainKeepsNewest(s, step); } else { DrainLeaves(s, step); }
  }

  lemma PushKeepsFilesInOrder(solo: bool, s: State, step: PushStep)
    requires FilesInOrder(solo, s) && PushEnabled(s, step)
    requires SpoolOk(s) && HolderOk(s) && ConnsOk(s) && HistoryOk(s) && NotYetSpooled(s)
    ensures FilesInOrder(solo, PushApply(s, step))
  {
    if solo {
      PushKeepsAscending(s, step);
      PushKeepsNewest(s, step);
    } else {
      PushKeepsFiles(s, step);
    }
  }

  lemma CrashKeepsFilesInOrder(solo: bool, s: State, left: Directory, config: Config)
    requires FilesInOrder(solo, s) && Enabled(s, Crash(left, config))
    ensures FilesInOrder(solo, Apply(s, Crash(left, config)))
  {
    var t := Apply(s, Crash(left, config));
    forall k, f | Has(t.disk, k, f) ensures Has(s.disk, k, f) || Has(s.disk, k, File(f.rec, true)) {
      assert (k in s.disk.dur && left[k] == s.disk.dur[k]) || MaySurvive(s.disk, k, left[k], s.lock.Synced?);
    }
  }

  lemma StepKeepsFilesInOrder(solo: bool, s: State, step: Step)
    requires Inv(s) && FilesInOrder(solo, s) && Enabled(s, step) && (solo ==> KeepsToOne(s, step))
    ensures FilesInOrder(solo, Apply(s, step))
  {
    match step
    case Line(l) => LineKeepsFilesInOrder(solo, s, l);
    case Drain(d) => DrainKeepsFilesInOrder(solo, s, d);
    case Push(p) => PushKeepsFilesInOrder(solo, s, p);
    case Stray(_) =>
    case Crash(left, config) => CrashKeepsFilesInOrder(solo, s, left, config);
  }

  lemma {:induction false} RunKeepsAcknowledged(solo: bool, s: State, steps: seq<Step>)
    requires Inv(s) && FilesInOrder(solo, s) && AckInv(solo, s) && Legal(s, steps) && (solo ==> Solo(s, steps))
    ensures AckInv(solo, Exec(s, steps)) && HistoryOk(Exec(s, steps))
    decreases |steps|
  {
    if steps != [] {
      StepKeepsInv(s, steps[0]);
      StepKeepsFilesInOrder(solo, s, steps[0]);
      StepAdvances(solo, s, steps[0]);
      AdvancingKeepsOrder(solo, s, Apply(s, steps[0]));
      RunKeepsAcknowledged(solo, Apply(s, steps[0]), steps[1..]);
    }
  }

  /**
   Order of delivery, over every run, late acceptances included: when a record is accepted, every earlier
   record of its connection that was answered accepted or spooled has been accepted before it, unless it
   was refused or dropped on its way out of the spool.
   */
  lemma SentInOrder(config: Config, steps: seq<Step>, s: State, earlier: Record, later: Record, j: nat)
    requires Reached(config, steps, s)
    requires earlier < later < |s.submitted| && s.submitted[earlier] == s.submitted[later]
    requires j < |s.log| && s.log[j] == later
    requires Acked(s, earlier) && !TurnedAway(s, earlier)
    ensures earlier in s.log[..j]
  {
    StartInv(config);
    RunKeepsAcknowledged(false, Start(config), steps);
    assert Follows(false, s.submitted, earlier, s.log[j]);
  }

  /** The same among all records, whoever sent them, in a run with one submitter at a time. */
  lemma SubmittedInOrder(config: Config, steps: seq<Step>, s: State, earlier: Record, later: Record, j: nat)
    requires Reached(config, steps, s) && Solo(Start(config), steps)
    requires earlier < later < |s.submitted|
    requires j < |s.log| && s.log[j] == later
    requires Acked(s, earlier) && !TurnedAway(s, earlier)
    ensures earlier in s.log[..j]
  {
    StartInv(config);
    RunKeepsAcknowledged(true, Start(config), steps);
    assert Follows(true, s.submitted, earlier, s.log[j]);
  }
}
