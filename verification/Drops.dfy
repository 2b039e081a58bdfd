/**
 Which spooled records this side gives up unsent: none that was acknowledged, as long as an entry of its agent
 can be replayed under the configuration in force; and which agents' records are acknowledged at all.
 */
module Drops {
  import opened Names
  import opened Outcomes
  import opened Protocol
  import opened Conservation
  import opened Recovery

  /** A torn copy belongs to a record no success was reported for. */
  ghost predicate TornUnacknowledged(s: State) {
    forall k, r: Record :: Has(s.disk, k, File(r, false)) ==> Unacknowledged(s, r)
  }

  /** Nothing good was or will be said about this record. */
  ghost predicate Closed(s: State, r: Record) {
    && r < |s.submitted|
    && (r in s.answered ==> s.answered[r] == ErrorStatus)
    && (forall c :: c in s.conns && !s.conns[c].Idle? && s.conns[c].rec == r ==> s.conns[c] == Answering(r, Io))
  }

  ghost predicate DropIsClosed(s: State, r: Record) {
    r in s.dropped ==> Closed(s, r)
  }

  /** A replay of this record would get as far as sending. */
  predicate Sendable(s: State, r: Record) {
    r < |s.submitted| ==> CanReplay(s.config, AgentOf(s, r))
  }

  ghost predicate SendableThroughout(s: State, steps: seq<Step>, r: Record)
    requires Legal(s, steps)
    decreases |steps|
  {
    Sendable(s, r) && (steps == [] || SendableThroughout(Apply(s, steps[0]), steps[1..], r))
  }

  lemma LineKeepsUnacknowledged(s: State, step: LineStep, r: Record)
    requires Unacknowledged(s, r) && r < |s.submitted| && LineEnabled(s, step)
    requires forall c :: c in s.conns && s.conns[c].Posting? ==> s.conns[c].rec != r
    ensures Unacknowledged(LineApply(s, step), r)
  {
  }

  lemma LineKeepsTorn(s: State, step: LineStep)
    requires TornUnacknowledged(s) && NotYetSpooled(s) && HistoryOk(s) && LineEnabled(s, step)
    ensures TornUnacknowledged(LineApply(s, step))
  {
    LineLeavesSpool(s, step);
    forall k, r: Record | Has(s.disk, k, File(r, false)) ensures Unacknowledged(LineApply(s, step), r) {
      assert Holds(s.disk, k, r);
      forall c | c in s.conns && s.conns[c].Posting? ensures s.conns[c].rec != r {
        assert Clause(s, c, s.conns[c]);
      }
      LineKeepsUnacknowledged(s, step, r);
    }
  }

  lemma DrainKeepsUnacknowledged(s: State, step: DrainStep, r: Record)
    requires Unacknowledged(s, r) && DrainEnabled(s, step)
    ensures Unacknowledged(DrainApply(s, step), r)
  {
  }

  lemma DrainKeepsTorn(s: State, step: DrainStep)
    requires TornUnacknowledged(s) && DrainEnabled(s, step)
    ensures TornUnacknowledged(DrainApply(s, step))
  {
    forall k, r: Record | Has(DrainApply(s, step).disk, k, File(r, false)) ensures Unacknowledged(DrainApply(s, step), r) {
      DrainOnlyRemoves(s, step, k, File(r, false));
      DrainKeepsUnacknowledged(s, step, r);
    }
  }

  /** A push leaves torn copies of its own record only, and only while it has not succeeded. */
  lemma PushTears(s: State, step: PushStep, k: nat, r: Record)
    requires SpoolOk(s) && NotYetSpooled(s) && HolderOk(s) && PushEnabled(s, step)
    requires Has(PushApply(s, step).disk, k, File(r, false))
    ensures Has(s.disk, k, File(r, false)) || (step.Create? && r == RecordOf(s, step.c))
    ensures step.SyncPush? ==> r != RecordOf(s, s.lock.conn)
    ensures step.PushRefused? ==> r != RecordOf(s, step.c)
  {
    if step.SyncPush? {
      assert Holds(s.disk, k, r) && Clause(s, s.lock.conn, s.conns[s.lock.conn]);
    }
    if step.PushRefused? {
      assert Holds(s.disk, k, r) && Clause(s, step.c, s.conns[step.c]);
    }
  }

  lemma PushKeepsUnacknowledged(s: State, step: PushStep, r: Record)
    requires Unacknowledged(s, r) && PushEnabled(s, step) && HolderOk(s)
    requires step.SyncPush? ==> r != RecordOf(s, s.lock.conn)
    requires step.PushRefused? ==> r != RecordOf(s, step.c)
    ensures Unacknowledged(PushApply(s, step), r)
  {
  }

  lemma PushedIsUnacknowledged(s: State, c: ConnId)
    requires AnsweredDone(s) && ConnsOk(s) && At(s, c, Pushing(RecordOf(s, c)))
    ensures Unacknowledged(s, RecordOf(s, c))
  {
    assert InHand(s.submitted, c, RecordOf(s, c));
  }

  lemma PushKeepsTorn(s: State, step: PushStep)
    requires TornUnacknowledged(s) && PushEnabled(s, step)
    requires SpoolOk(s) && NotYetSpooled(s) && HolderOk(s) && AnsweredDone(s) && ConnsOk(s)
    ensures TornUnacknowledged(PushApply(s, step))
  {
    forall k, r: Record | Has(PushApply(s, step).disk, k, File(r, false)) ensures Unacknowledged(PushApply(s, step), r) {
      PushTears(s, step, k, r);
      if step.Create? && r == RecordOf(s, step.c) { PushedIsUnacknowledged(s, step.c); }
      PushKeepsUnacknowledged(s, step, r);
    }
  }

  lemma CrashKeepsTorn(s: State, left: Directory, config: Config)
    requires TornUnacknowledged(s) && Enabled(s, Crash(left, config))
    requires SpoolOk(s) && HolderOk(s) && AnsweredDone(s) && ConnsOk(s)
    ensures TornUnacknowledged(Apply(s, Crash(left, config)))
  {
    forall k, r: Record | k in left && left[k] == File(r, false) ensures Unacknowledged(s, r) {
      assert (k in s.disk.dur && left[k] == s.disk.dur[k]) || MaySurvive(s.disk, k, left[k], s.lock.Synced?);
      if !Has(s.disk, k, File(r, false)) {
        assert k in s.disk.vol && s.disk.vol[k] == File(r, true);
        assert !Durable(s.disk, k, s.disk.vol[k]);
        PushedIsUnacknowledged(s, s.lock.conn);
      }
    }
  }

  lemma StepKeepsTorn(s: State, step: Step)
    requires Inv(s) && TornUnacknowledged(s) && Enabled(s, step)
    ensures TornUnacknowledged(Apply(s, step))
  {
    match step
    case Line(l) => LineKeepsTorn(s, l);
    case Drain(d) => DrainKeepsTorn(s, d);
    case Push(p) => PushKeepsTorn(s, p);
    case Stray(_) =>
    case Crash(left, config) => CrashKeepsTorn(s, left, config);
  }

  lemma LineKeepsClosed(s: State, step: LineStep, r: Record)
    requires Closed(s, r) && LineEnabled(s, step)
    ensures Closed(LineApply(s, step), r)
  {
  }

  lemma DrainKeepsClosed(s: State, step: DrainStep, r: Record)
    requires Closed(s, r) && HolderOk(s) && DrainEnabled(s, step)
    ensures Closed(DrainApply(s, step), r)
  {
    DrainLeaves(s, step);
  }

  lemma PushKeepsClosed(s: State, step: PushStep, r: Record)
    requires Closed(s, r) && HolderOk(s) && PushEnabled(s, step)
    ensures Closed(PushApply(s, step), r) && PushApply(s, step).dropped == s.dropped
  {
  }

  /** A sendable record is newly dropped only for a torn entry. */
  lemma DropsOnlyTorn(s: State, step: DrainStep, r: Record)
    requires Sendable(s, r) && HistoryOk(s) && DrainEnabled(s, step) && r in DrainApply(s, step).dropped && r !in s.dropped
    ensures s.lock.Sending? && s.lock.at in s.disk.vol && s.disk.vol[s.lock.at] == File(r, false)
  {
  }

  lemma TornIsClosed(s: State, k: nat, r: Record)
    requires TornUnacknowledged(s) && NotYetSpooled(s) && HistoryOk(s) && !Writing(s.lock)
    requires Has(s.disk, k, File(r, false))
    ensures Closed(s, r)
  {
    assert Unacknowledged(s, r) && Holds(s.disk, k, r);
    forall c | c in s.conns && !s.conns[c].Idle? && s.conns[c].rec == r ensures s.conns[c] == Answering(r, Io) {
      assert Clause(s, c, s.conns[c]);
    }
  }

  lemma DrainKeepsDrop(s: State, step: DrainStep, r: Record)
    requires Sendable(s, r) && TornUnacknowledged(s) && DropIsClosed(s, r) && DrainEnabled(s, step)
    requires HolderOk(s) && NotYetSpooled(s) && HistoryOk(s)
    ensures DropIsClosed(DrainApply(s, step), r)
  {
    if r in DrainApply(s, step).dropped {
      if r !in s.dropped {
        DropsOnlyTorn(s, step, r);
        TornIsClosed(s, s.lock.at, r);
      }
      DrainKeepsClosed(s, step, r);
    }
  }

  lemma LineDropsNothing(s: State, step: LineStep)
    requires LineEnabled(s, step)
    ensures LineApply(s, step).dropped == s.dropped
  {
  }

  lemma StepKeepsDrop(s: State, step: Step, r: Record)
    requires Inv(s) && Sendable(s, r) && TornUnacknowledged(s) && DropIsClosed(s, r) && Enabled(s, step)
    ensures DropIsClosed(Apply(s, step), r)
  {
    match step
    case Line(l) =>
      LineDropsNothing(s, l);
      if r in s.dropped { LineKeepsClosed(s, l, r); }
    case Drain(d) => DrainKeepsDrop(s, d, r);
    case Push(p) => if r in s.dropped { PushKeepsClosed(s, p, r); } else { PushDropsNothing(s, p); }
    case Stray(_) =>
    case Crash(_, _) =>
  }

  lemma PushDropsNothing(s: State, step: PushStep)
    requires PushEnabled(s, step)
    ensures PushApply(s, step).dropped == s.dropped
  {
  }

  lemma {:induction false} RunKeepsDrop(s: State, steps: seq<Step>, r: Record)
    requires Inv(s) && TornUnacknowledged(s) && DropIsClosed(s, r) && Legal(s, steps) && SendableThroughout(s, steps, r)
    ensures DropIsClosed(Exec(s, steps), r)
    decreases |steps|
  {
    if steps != [] {
      StepKeepsInv(s, steps[0]);
      StepKeepsTorn(s, steps[0]);
      StepKeepsDrop(s, steps[0], r);
      RunKeepsDrop(Apply(s, steps[0]), steps[1..], r);
    }
  }

  /**
   Over every run in which entries of its agent could be replayed throughout, a record answered spooled is not
   dropped: it is with the service, was refused by it, or is whole and durable on disk.
   */
  lemma AcknowledgedIsNeverDropped(config: Config, steps: seq<Step>, s: State, r: Record)
    requires Reached(config, steps, s) && SendableThroughout(Start(config), steps, r)
    requires r in s.answered && s.answered[r] == SpooledStatus
    ensures r !in s.dropped && (r in s.log || r in s.refused || Kept(s.disk, r))
  {
    StartInv(config);
    RunKeepsInv(Start(config), steps);
    RunKeepsDrop(Start(config), steps, r);
    assert Promise(s, r, SpooledStatus);
    assert r in s.dropped ==> Closed(s, r);
  }

  /** The run starts and restarts under these two configurations only. */
  ghost predicate RestartsUnder(steps: seq<Step>, a: Config, b: Config) {
    forall x :: x in steps && x.Crash? ==> x.config == a || x.config == b
  }

  lemma StepKeepsAgent(s: State, step: Step, r: Record)
    requires ConnsOk(s) && Enabled(s, step) && r < |s.submitted|
    ensures var t := Apply(s, step);
      r < |t.submitted| && AgentOf(t, r) == AgentOf(s, r) && (!step.Crash? ==> t.config == s.config)
  {
    match step
    case Line(l) => LineKeepsAgent(s, l, r);
    case Drain(d) => DrainLeaves(s, d);
    case Push(_) =>
    case Stray(_) =>
    case Crash(_, _) =>
  }

  lemma LineKeepsAgent(s: State, step: LineStep, r: Record)
    requires ConnsOk(s) && LineEnabled(s, step) && r < |s.submitted|
    ensures var t := LineApply(s, step);
      r < |t.submitted| && AgentOf(t, r) == AgentOf(s, r) && t.config == s.config
  {
  }

  lemma StepKeepsConfig(s: State, step: Step)
    requires Enabled(s, step) && !step.Crash?
    ensures Apply(s, step).config == s.config
  {
    if step.Drain? { DrainLeaves(s, step.d); }
  }

  /** What can be replayed under both configurations is sendable throughout. */
  lemma {:induction false} BothSend(s: State, steps: seq<Step>, r: Record, agent: Agent, a: Config, b: Config)
    requires Inv(s) && Legal(s, steps) && RestartsUnder(steps, a, b) && (s.config == a || s.config == b)
    requires CanReplay(a, agent) && CanReplay(b, agent)
    requires r < |Exec(s, steps).submitted| && AgentOf(Exec(s, steps), r) == agent
    ensures SendableThroughout(s, steps, r) && (r < |s.submitted| ==> AgentOf(s, r) == agent)
    decreases |steps|
  {
    if steps != [] {
      assert steps[0] in steps && forall x :: x in steps[1..] ==> x in steps;
      StepKeepsInv(s, steps[0]);
      if !steps[0].Crash? { StepKeepsConfig(s, steps[0]); }
      BothSend(Apply(s, steps[0]), steps[1..], r, agent, a, b);
      if r < |s.submitted| { StepKeepsAgent(s, steps[0], r); }
    }
  }

  /** This record was not taken in: it is or was answered with a rejection or an error of `submit` itself. */
  ghost predicate NotTakenIn(s: State, r: Record) {
    && (r in s.answered ==> s.answered[r] in {RejectedStatus, ErrorStatus})
    && (forall c :: c in s.conns && !s.conns[c].Idle? && s.conns[c].rec == r ==>
          s.conns[c] in {Answering(r, Rejected), Answering(r, Crypto)})
  }

  /** Only records of agents whose names pass vetting are taken in. */
  ghost predicate OnlyVetted(s: State) {
    forall r: nat :: r < |s.submitted| && HasControl(AgentOf(s, r)) ==> NotTakenIn(s, r)
  }

  lemma LineKeepsOut(s: State, step: LineStep, r: Record)
    requires NotTakenIn(s, r) && r < |s.submitted| && LineEnabled(s, step)
    ensures NotTakenIn(LineApply(s, step), r)
  {
  }

  lemma DrainKeepsOut(s: State, step: DrainStep, r: Record)
    requires NotTakenIn(s, r) && HolderOk(s) && DrainEnabled(s, step)
    ensures NotTakenIn(DrainApply(s, step), r)
  {
    DrainLeaves(s, step);
  }

  lemma PushKeepsOut(s: State, step: PushStep, r: Record)
    requires NotTakenIn(s, r) && HolderOk(s) && PushEnabled(s, step)
    ensures NotTakenIn(PushApply(s, step), r)
  {
  }

  lemma StepKeepsOut(s: State, step: Step, r: Record)
    requires NotTakenIn(s, r) && HolderOk(s) && r < |s.submitted| && Enabled(s, step)
    ensures NotTakenIn(Apply(s, step), r)
  {
    match step
    case Line(l) => LineKeepsOut(s, l, r);
    case Drain(d) => DrainKeepsOut(s, d, r);
    case Push(p) => PushKeepsOut(s, p, r);
    case Stray(_) =>
    case Crash(_, _) =>
  }

  lemma OnlySubmitIsNew(s: State, step: Step)
    requires Enabled(s, step) && !(step.Line? && step.l.Submit?)
    ensures Apply(s, step).submitted == s.submitted
  {
    if step.Drain? { DrainLeaves(s, step.d); }
  }

  /** What a name that fails vetting leaves of a new record. */
  lemma NewIsKeptOut(s: State, c: ConnId, vetted: Outcome)
    requires ConnsOk(s) && AnsweredDone(s) && LineEnabled(s, Submit(c, vetted))
    ensures var t := LineApply(s, Submit(c, vetted));
      HasControl(AgentOf(t, |s.submitted|)) ==> NotTakenIn(t, |s.submitted|)
  {
    var r := |s.submitted|;
    var t := LineApply(s, Submit(c, vetted));
    assert t.submitted[r] == c && AgentOf(t, r) == s.callers[c];
    assert r !in s.answered;
    forall d | d in s.conns && d != c && !s.conns[d].Idle? ensures s.conns[d].rec != r {
      assert InHand(s.submitted, d, s.conns[d].rec);
    }
  }

  lemma StepKeepsVetted(s: State, step: Step)
    requires Inv(s) && OnlyVetted(s) && Enabled(s, step)
    ensures OnlyVetted(Apply(s, step))
  {
    var t := Apply(s, step);
    forall r: nat | r < |t.submitted| && HasControl(AgentOf(t, r)) ensures NotTakenIn(t, r) {
      if r < |s.submitted| {
        StepKeepsAgent(s, step, r);
        StepKeepsOut(s, step, r);
      } else if step.Line? && step.l.Submit? {
        NewIsKeptOut(s, step.l.c, step.l.vetted);
      } else {
        OnlySubmitIsNew(s, step);
      }
    }
  }

  lemma {:induction false} RunKeepsVetted(s: State, steps: seq<Step>)
    requires Inv(s) && OnlyVetted(s) && Legal(s, steps)
    ensures OnlyVetted(Exec(s, steps))
    decreases |steps|
  {
    if steps != [] {
      StepKeepsInv(s, steps[0]);
      StepKeepsVetted(s, steps[0]);
      RunKeepsVetted(Apply(s, steps[0]), steps[1..]);
    }
  }

  /** Over every run: a record of an agent whose name has a control character is not acknowledged. */
  lemma AcknowledgedIsVetted(config: Config, steps: seq<Step>, s: State, r: Record)
    requires Reached(config, steps, s) && r in s.answered && s.answered[r] in {AcceptedStatus, SpooledStatus}
    ensures !HasControl(AgentOf(s, r))
  {
    StartInv(config);
    RunKeepsInv(Start(config), steps);
    RunKeepsVetted(Start(config), steps);
    assert r < |s.submitted|;
  }
}
