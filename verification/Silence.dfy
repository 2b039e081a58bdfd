/**
 Records nobody was told about: where a connection was with its record when it ended without an answer says
 what the service and the spool may hold of it.
 */
module Silence {
  import opened Outcomes
  import opened Protocol
  import opened Conservation

  /** Nothing has left for the service yet, and nothing will. */
  predicate Early(v: Conn) {
    v.Checking? || v.Flushing? || v.Rechecking? || (v.Answering? && v.outcome in {Crypto, Unreachable})
  }

  /** The spool may hold the whole record. */
  predicate MaySpool(v: Conn) {
    v.Pushing? || (v.Answering? && v.outcome == Spooled)
  }

  /** A connection with a record that has not left for the service says so. */
  ghost predicate EarlyIsUnposted(s: State) {
    forall c :: c in s.conns && Early(s.conns[c]) ==> s.conns[c].rec !in s.posted
  }

  /** What a connection that vanished with a record in hand leaves behind. */
  ghost predicate Trace(s: State, v: Conn) {
    && !v.Idle? && v.rec < |s.submitted| && v.rec !in s.answered
    && (forall c :: c in s.conns && !s.conns[c].Idle? ==> s.conns[c].rec != v.rec)
    && (Early(v) ==> v.rec !in s.posted)
    && (!MaySpool(v) ==> !WholeInSpool(s.disk, v.rec))
  }

  ghost predicate Traces(s: State) {
    forall v :: v in s.vanished ==> Trace(s, v)
  }

  /** Every record sent is answered, in some connection's hand, or was when that connection vanished. */
  ghost predicate Accounted(s: State, r: Record) {
    || r in s.answered
    || (exists c :: c in s.conns && !s.conns[c].Idle? && s.conns[c].rec == r)
    || (exists v :: v in s.vanished && !v.Idle? && v.rec == r)
  }

  ghost predicate AllAccounted(s: State) {
    forall r: Record :: r < |s.submitted| ==> Accounted(s, r)
  }

  ghost predicate SilenceInv(s: State) {
    EarlyIsUnposted(s) && LogPosted(s) && Traces(s)
  }

  lemma DistinctHands(s: State, c: ConnId, d: ConnId)
    requires ConnsOk(s) && c in s.conns && d in s.conns && !s.conns[c].Idle? && !s.conns[d].Idle?
    requires s.conns[c].rec == s.conns[d].rec
    ensures c == d
  {
    assert InHand(s.submitted, c, s.conns[c].rec) && InHand(s.submitted, d, s.conns[d].rec);
  }

  lemma LinePostsOwn(s: State, step: LineStep)
    requires LineEnabled(s, step)
    ensures var t := LineApply(s, step);
      t.posted == s.posted || (step.SecondDepth? && step.c in t.conns && t.conns[step.c] == Posting(RecordOf(s, step.c))
                               && t.posted == s.posted + {RecordOf(s, step.c)} && !s.conns[step.c].Idle?)
    ensures var t := LineApply(s, step);
      t.log == s.log || (step.TakeDirect? && t.log == s.log + [RecordOf(s, step.c)] && RecordOf(s, step.c) in s.posted)
  {
  }

  lemma LineKeepsEarly(s: State, step: LineStep)
    requires EarlyIsUnposted(s) && ConnsOk(s) && HistoryOk(s) && LineEnabled(s, step)
    ensures EarlyIsUnposted(LineApply(s, step))
  {
    var t := LineApply(s, step);
    LinePostsOwn(s, step);
    forall c | c in t.conns && Early(t.conns[c]) ensures t.conns[c].rec !in t.posted {
      if !IsAbout(step, c) && c in s.conns {
        LineSparesOthers(s, step, c);
        if step.SecondDepth? && s.conns[step.c].rec == s.conns[c].rec { DistinctHands(s, c, step.c); }
      } else {
        OwnEarly(s, step, c);
      }
    }
  }

  lemma OwnEarly(s: State, step: LineStep, c: ConnId)
    requires EarlyIsUnposted(s) && HistoryOk(s) && LineEnabled(s, step)
    requires IsAbout(step, c) || c !in s.conns
    requires c in LineApply(s, step).conns && Early(LineApply(s, step).conns[c])
    ensures LineApply(s, step).conns[c].rec !in LineApply(s, step).posted
  {
  }

  /** A record a vanished connection had is in nobody's hand again. */
  lemma LineKeepsOutOfHand(s: State, step: LineStep, v: Conn)
    requires Trace(s, v) && LineEnabled(s, step)
    ensures var t := LineApply(s, step);
      && v.rec < |t.submitted| && v.rec !in t.answered
      && (forall c :: c in t.conns && !t.conns[c].Idle? ==> t.conns[c].rec != v.rec)
  {
  }

  lemma LineKeepsTrace(s: State, step: LineStep, v: Conn)
    requires Trace(s, v) && LineEnabled(s, step)
    ensures Trace(LineApply(s, step), v)
  {
    LineKeepsOutOfHand(s, step, v);
    LineLeavesSpool(s, step);
    LinePostsOwn(s, step);
  }

  lemma VanishesWithTrace(s: State, c: ConnId)
    requires EarlyIsUnposted(s) && NotYetSpooled(s) && AnsweredDone(s) && ConnsOk(s)
    requires c in s.conns && !s.conns[c].Idle?
    ensures var v := s.conns[c];
      && v.rec < |s.submitted| && v.rec !in s.answered
      && (Early(v) ==> v.rec !in s.posted)
      && (!MaySpool(v) ==> !WholeInSpool(s.disk, v.rec))
  {
    var v := s.conns[c];
    assert Clause(s, c, v) && InHand(s.submitted, c, v.rec);
    if !MaySpool(v) && !InSpool(s.disk, v.rec) { AbsentIsNotWhole(s.disk, v.rec); }
  }

  lemma HangupLeavesTrace(s: State, c: ConnId)
    requires EarlyIsUnposted(s) && NotYetSpooled(s) && AnsweredDone(s) && ConnsOk(s)
    requires LineEnabled(s, Hangup(c)) && !s.conns[c].Idle?
    ensures Trace(LineApply(s, Hangup(c)), s.conns[c])
  {
    var t := LineApply(s, Hangup(c));
    VanishesWithTrace(s, c);
    forall d | d in t.conns && !t.conns[d].Idle? ensures t.conns[d].rec != s.conns[c].rec {
      if s.conns[d].rec == s.conns[c].rec { DistinctHands(s, c, d); }
    }
  }

  lemma LineVanishes(s: State, step: LineStep)
    requires LineEnabled(s, step)
    ensures forall v :: v in LineApply(s, step).vanished && v !in s.vanished ==>
              step.Hangup? && v == s.conns[step.c] && !v.Idle?
  {
  }

  lemma LineKeepsSilence(s: State, step: LineStep)
    requires SilenceInv(s) && NotYetSpooled(s) && AnsweredDone(s) && ConnsOk(s) && HistoryOk(s) && LineEnabled(s, step)
    ensures SilenceInv(LineApply(s, step))
  {
    var t := LineApply(s, step);
    LineKeepsEarly(s, step);
    LinePostsOwn(s, step);
    LineVanishes(s, step);
    forall v | v in t.vanished ensures Trace(t, v) {
      if v in s.vanished { LineKeepsTrace(s, step, v); } else { HangupLeavesTrace(s, step.c); }
    }
  }

  lemma DrainPostsWhole(s: State, step: DrainStep)
    requires DrainEnabled(s, step)
    ensures forall r :: r in DrainApply(s, step).posted && r !in s.posted ==>
              step.Hand? && Has(s.disk, step.at, File(r, true))
    ensures var t := DrainApply(s, step); forall r :: r in t.log ==> r in s.log || r in s.posted
  {
  }

  lemma DrainKeepsSilence(s: State, step: DrainStep)
    requires SilenceInv(s) && NotYetSpooled(s) && HolderOk(s) && DrainEnabled(s, step)
    ensures SilenceInv(DrainApply(s, step))
  {
    var t := DrainApply(s, step);
    DrainPostsWhole(s, step);
    DrainGrows(s, step);
    DrainLeaves(s, step);
    forall c | c in t.conns && Early(t.conns[c]) ensures t.conns[c].rec !in t.posted {
      DrainMoves(s, step, c);
      assert Clause(s, c, s.conns[c]);
      EarlyIsNotWhole(s, c);
    }
    forall v | v in t.vanished ensures Trace(t, v) {
      forall c | c in t.conns && !t.conns[c].Idle? ensures t.conns[c].rec != v.rec { DrainMoves(s, step, c); }
      DrainAddsNoCopy(s, step, v.rec);
    }
  }

  lemma EarlyIsNotWhole(s: State, c: ConnId)
    requires c in s.conns && Early(s.conns[c]) && Clause(s, c, s.conns[c])
    ensures !WholeInSpool(s.disk, s.conns[c].rec)
  {
    if !InSpool(s.disk, s.conns[c].rec) { AbsentIsNotWhole(s.disk, s.conns[c].rec); }
  }

  lemma DrainAddsNoCopy(s: State, step: DrainStep, r: Record)
    requires DrainEnabled(s, step)
    ensures WholeInSpool(DrainApply(s, step).disk, r) ==> WholeInSpool(s.disk, r)
  {
    var t := DrainApply(s, step);
    if WholeInSpool(t.disk, r) {
      var k :| Has(t.disk, k, File(r, true));
      DrainOnlyRemoves(s, step, k, File(r, true));
    }
  }

  lemma PushKeepsSilence(s: State, step: PushStep)
    requires SilenceInv(s) && HolderOk(s) && ViewsAgree(s.disk, s.lock) && PushEnabled(s, step)
    ensures SilenceInv(PushApply(s, step))
  {
    var t := PushApply(s, step);
    PushMoves(s, step);
    forall v | v in t.vanished ensures Trace(t, v) {
      PushEvolves(s, step, v.rec);
    }
  }

  predicate PushEnds(before: Conn, after: Conn) {
    before.Pushing? && after.Answering? && after.rec == before.rec && !Early(after)
  }

  lemma PushMoves(s: State, step: PushStep)
    requires HolderOk(s) && PushEnabled(s, step)
    ensures var t := PushApply(s, step);
      && t.posted == s.posted && t.log == s.log && t.vanished == s.vanished && t.submitted == s.submitted
      && t.answered == s.answered
      && (forall c :: c in t.conns ==> c in s.conns && (t.conns[c] == s.conns[c] || PushEnds(s.conns[c], t.conns[c])))
  {
  }

  lemma CrashKeepsSilence(s: State, left: Directory, config: Config)
    requires SilenceInv(s) && Enabled(s, Crash(left, config))
    requires NotYetSpooled(s) && AnsweredDone(s) && ConnsOk(s)
    ensures SilenceInv(Apply(s, Crash(left, config)))
  {
    var t := Apply(s, Crash(left, config));
    forall v | v in t.vanished ensures Trace(t, v) {
      if v !in s.vanished {
        var c :| c in s.conns && !s.conns[c].Idle? && s.conns[c] == v;
        VanishesWithTrace(s, c);
      }
      CrashEvolves(s, left, config, v.rec);
    }
  }

  lemma StepKeepsSilence(s: State, step: Step)
    requires Inv(s) && SilenceInv(s) && Enabled(s, step)
    ensures SilenceInv(Apply(s, step))
  {
    match step
    case Line(l) => LineKeepsSilence(s, l);
    case Drain(d) => DrainKeepsSilence(s, d);
    case Push(p) => PushKeepsSilence(s, p);
    case Stray(_) =>
    case Crash(left, config) => CrashKeepsSilence(s, left, config);
  }

  lemma LineAccounts(s: State, step: LineStep, r: Record)
    requires LineEnabled(s, step) && ConnsOk(s) && r < |LineApply(s, step).submitted|
    requires r < |s.submitted| ==> Accounted(s, r)
    ensures Accounted(LineApply(s, step), r)
  {
    var t := LineApply(s, step);
    if r >= |s.submitted| {
      assert step.c in t.conns && t.conns[step.c].rec == r;
    } else if r !in s.answered && exists c :: c in s.conns && !s.conns[c].Idle? && s.conns[c].rec == r {
      var c :| c in s.conns && !s.conns[c].Idle? && s.conns[c].rec == r;
      if !IsAbout(step, c) {
        LineSparesOthers(s, step, c);
      } else {
        OwnRecordIsAccounted(s, step, c);
      }
    } else if r !in s.answered {
      var v :| v in s.vanished && !v.Idle? && v.rec == r;
      assert v in t.vanished;
    }
  }

  lemma OwnRecordIsAccounted(s: State, step: LineStep, c: ConnId)
    requires LineEnabled(s, step) && c in s.conns && !s.conns[c].Idle? && IsAbout(step, c)
    ensures var t := LineApply(s, step);
      || s.conns[c].rec in t.answered || s.conns[c] in t.vanished
      || (c in t.conns && !t.conns[c].Idle? && t.conns[c].rec == s.conns[c].rec)
  {
  }

  lemma DrainKeepsHands(s: State, step: DrainStep, c: ConnId)
    requires DrainEnabled(s, step) && HolderOk(s) && c in s.conns && !s.conns[c].Idle?
    ensures c in DrainApply(s, step).conns && !DrainApply(s, step).conns[c].Idle?
    ensures DrainApply(s, step).conns[c].rec == s.conns[c].rec
  {
  }

  lemma PushKeepsHands(s: State, step: PushStep, c: ConnId)
    requires PushEnabled(s, step) && HolderOk(s) && c in s.conns && !s.conns[c].Idle?
    ensures c in PushApply(s, step).conns && !PushApply(s, step).conns[c].Idle?
    ensures PushApply(s, step).conns[c].rec == s.conns[c].rec
  {
  }

  lemma StaysAccounted(s: State, t: State, r: Record)
    requires Accounted(s, r) && s.answered == t.answered && s.vanished <= t.vanished
    requires forall c :: c in s.conns && !s.conns[c].Idle? ==>
               (c in t.conns && !t.conns[c].Idle? && t.conns[c].rec == s.conns[c].rec) || s.conns[c] in t.vanished
    ensures Accounted(t, r)
  {
    if exists c :: c in s.conns && !s.conns[c].Idle? && s.conns[c].rec == r {
      var c :| c in s.conns && !s.conns[c].Idle? && s.conns[c].rec == r;
      assert (c in t.conns && !t.conns[c].Idle? && t.conns[c].rec == r) || s.conns[c] in t.vanished;
    }
  }

  lemma StepAccounts(s: State, step: Step)
    requires Inv(s) && AllAccounted(s) && Enabled(s, step)
    ensures AllAccounted(Apply(s, step))
  {
    var t := Apply(s, step);
    if step.Drain? { DrainLeaves(s, step.d); }
    if step.Push? { PushMoves(s, step.p); }
    forall c | !step.Line? && c in s.conns && !s.conns[c].Idle?
      ensures (c in t.conns && !t.conns[c].Idle? && t.conns[c].rec == s.conns[c].rec) || s.conns[c] in t.vanished
    {
      if step.Drain? { DrainKeepsHands(s, step.d, c); }
      if step.Push? { PushKeepsHands(s, step.p, c); }
    }
    forall r: Record | r < |t.submitted| ensures Accounted(t, r) {
      if step.Line? { LineAccounts(s, step.l, r); } else { StaysAccounted(s, t, r); }
    }
  }

  lemma {:induction false} RunKeepsSilence(s: State, steps: seq<Step>)
    requires Inv(s) && SilenceInv(s) && AllAccounted(s) && Legal(s, steps)
    ensures SilenceInv(Exec(s, steps)) && AllAccounted(Exec(s, steps))
    decreases |steps|
  {
    if steps != [] {
      StepKeepsInv(s, steps[0]);
      StepKeepsSilence(s, steps[0]);
      StepAccounts(s, steps[0]);
      RunKeepsSilence(Apply(s, steps[0]), steps[1..]);
    }
  }

  /** The service may have the record. */
  predicate MayBeTaken(v: Conn) {
    !Early(v)
  }

  /**
   Over every run: a record nobody holds and nobody was told about was in the hand of a connection that
   vanished; the service has it only if that connection had come as far as posting, and the spool holds the
   whole of it only if that connection was pushing it or about to answer spooled. A connection that was
   never opened has sent nothing.
   */
  lemma UnansweredIsTraced(config: Config, steps: seq<Step>, s: State, r: Record)
      returns (v: Conn)
    requires Reached(config, steps, s) && r < |s.submitted| && r !in s.answered
    requires forall c :: c in s.conns && !s.conns[c].Idle? ==> s.conns[c].rec != r
    ensures v in s.vanished && !v.Idle? && v.rec == r
    ensures r in s.log ==> MayBeTaken(v)
    ensures WholeInSpool(s.disk, r) ==> MaySpool(v)
    ensures s.submitted[r] < |s.callers|
  {
    StartInv(config);
    RunKeepsInv(Start(config), steps);
    RunKeepsSilence(Start(config), steps);
    assert Accounted(s, r);
    v :| v in s.vanished && !v.Idle? && v.rec == r;
    assert Trace(s, v);
  }

  /** What a connection vanished with decides that for ever, whatever happens later. */
  lemma VanishedIsTraced(config: Config, steps: seq<Step>, s: State, v: Conn)
    requires Reached(config, steps, s) && v in s.vanished
    ensures !v.Idle? && v.rec !in s.answered
    ensures v.rec in s.log ==> MayBeTaken(v)
    ensures WholeInSpool(s.disk, v.rec) ==> MaySpool(v)
  {
    StartInv(config);
    RunKeepsSilence(Start(config), steps);
    assert Trace(s, v);
  }
}
