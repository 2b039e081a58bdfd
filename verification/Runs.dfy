/**
 Runs put together piece by piece, for the results that something can happen: each lemma carries a run on
 by what one record goes through, and says where that leaves the sidecar.
 */
module Runs {
  import opened Names
  import opened Outcomes
  import opened Protocol
  import opened Conservation
  import opened Ordering
  import opened SoloOrder

  /** These steps lead from one state to the other. */
  ghost predicate Path(from: State, steps: seq<Step>, s: State) {
    Legal(from, steps) && Exec(from, steps) == s
  }

  /** No crash but those there were. */
  ghost predicate NoNewCrash(steps: seq<Step>, more: seq<Step>) {
    forall x :: x in more && x.Crash? ==> x in steps
  }

  lemma {:induction false} OneMore(from: State, steps: seq<Step>, s: State, step: Step)
    requires Path(from, steps, s) && Enabled(s, step)
    ensures Path(from, steps + [step], Apply(s, step))
    decreases |steps|
  {
    if steps == [] {
      assert [] + [step] == [step] && [step][1..] == [];
    } else {
      assert (steps + [step])[1..] == steps[1..] + [step];
      OneMore(Apply(from, steps[0]), steps[1..], s, step);
    }
  }

  lemma {:induction false} OneMoreSolo(from: State, steps: seq<Step>, s: State, step: Step)
    requires Path(from, steps, s) && Solo(from, steps) && Enabled(s, step) && KeepsToOne(s, step)
    requires Legal(from, steps + [step])
    ensures Solo(from, steps + [step])
    decreases |steps|
  {
    if steps == [] {
      assert [] + [step] == [step] && [step][1..] == [];
    } else {
      assert (steps + [step])[1..] == steps[1..] + [step];
      OneMoreSolo(Apply(from, steps[0]), steps[1..], s, step);
    }
  }

  lemma Go(from: State, steps: seq<Step>, s: State, step: Step) returns (more: seq<Step>)
    requires Path(from, steps, s) && Enabled(s, step)
    ensures more == steps + [step] && Path(from, more, Apply(s, step))
    ensures !step.Crash? ==> NoNewCrash(steps, more)
    ensures Solo(from, steps) && KeepsToOne(s, step) ==> Solo(from, more)
  {
    more := steps + [step];
    OneMore(from, steps, s, step);
    if Solo(from, steps) && KeepsToOne(s, step) { OneMoreSolo(from, steps, s, step); }
  }

  /** Under this configuration a record of this agent passes vetting and gets as far as sending. */
  predicate Works(config: Config, agent: Agent) {
    CanSend(config, agent) && !HasControl(agent)
  }

  /** And a replay of it does. */
  predicate Replays(config: Config, agent: Agent) {
    CanReplay(config, agent) && !HasControl(agent)
  }

  /** A connection ready to send a record that will get as far as sending. */
  predicate Ready(s: State, c: ConnId) {
    At(s, c, Idle) && c < |s.callers| && Works(s.config, s.callers[c]) && s.lock.Free?
  }

  function Posted(s: State, c: ConnId): State {
    Move(s, c, Posting(|s.submitted|)).(submitted := s.submitted + [c], posted := s.posted + {|s.submitted|})
  }

  /** A record was sent and the depth read for the first time. */
  function Measured(s: State, c: ConnId): State {
    var q := |s.submitted|;
    Move(s, c, if |s.disk.vol| > 0 then Flushing(q) else Rechecking(q)).(submitted := s.submitted + [c])
  }

  lemma IsMeasured(from: State, steps: seq<Step>, s: State, c: ConnId) returns (more: seq<Step>)
    requires Path(from, steps, s) && Ready(s, c)
    ensures Path(from, more, Measured(s, c))
    ensures Solo(from, steps) && (forall d :: d in s.conns ==> s.conns[d].Idle?) ==> Solo(from, more)
    ensures NoNewCrash(steps, more)
  {
    var s1 := Apply(s, Line(Submit(c, Ok)));
    more := Go(from, steps, s, Line(Submit(c, Ok)));
    more := Go(from, more, s1, Line(FirstDepth(c)));
    assert Apply(s1, Line(FirstDepth(c))).conns == Measured(s, c).conns;
  }

  /** With nothing spooled, a record goes straight to the service and the spool is not touched. */
  lemma EmptySpoolPostsDirectly(from: State, steps: seq<Step>, s: State, c: ConnId) returns (more: seq<Step>)
    requires Path(from, steps, s) && Ready(s, c) && s.disk.vol == map[]
    ensures Path(from, more, Posted(s, c))
    ensures Solo(from, steps) && (forall d :: d in s.conns ==> s.conns[d].Idle?) ==> Solo(from, more)
    ensures NoNewCrash(steps, more)
  {
    more := IsMeasured(from, steps, s, c);
    more := Go(from, more, Measured(s, c), Line(SecondDepth(c)));
    assert Apply(Measured(s, c), Line(SecondDepth(c))).conns == Posted(s, c).conns;
  }

  /** A record in its direct post, on its way to the service. */
  predicate OnItsWay(s: State, c: ConnId, r: Record) {
    At(s, c, Posting(r)) && r in s.posted && CanSend(s.config, AgentOf(s, r))
  }

  function AnsweredWith(s: State, c: ConnId, r: Record, status: Status): State {
    Move(s, c, Idle).(answered := s.answered[r := status])
  }

  lemma IsAccepted(from: State, steps: seq<Step>, s: State, c: ConnId, r: Record) returns (more: seq<Step>)
    requires Path(from, steps, s) && OnItsWay(s, c, r)
    ensures Path(from, more, AnsweredWith(s, c, r, AcceptedStatus).(log := s.log + [r]))
    ensures Solo(from, steps) ==> Solo(from, more)
  {
    var s1 := Apply(s, Line(TakeDirect(c)));
    var s2 := Apply(s1, Line(DirectVerdict(c, Answered(200))));
    more := Go(from, steps, s, Line(TakeDirect(c)));
    more := Go(from, more, s1, Line(DirectVerdict(c, Answered(200))));
    more := Go(from, more, s2, Line(Answer(c)));
    assert Apply(s2, Line(Answer(c))).conns == Move(s, c, Idle).conns;
  }

  lemma IsRefused(from: State, steps: seq<Step>, s: State, c: ConnId, r: Record) returns (more: seq<Step>)
    requires Path(from, steps, s) && OnItsWay(s, c, r)
    ensures Path(from, more, AnsweredWith(s, c, r, RejectedStatus).(refused := s.refused + {r}))
  {
    var s1 := Apply(s, Line(DirectVerdict(c, Answered(400))));
    more := Go(from, steps, s, Line(DirectVerdict(c, Answered(400))));
    more := Go(from, more, s1, Line(Answer(c)));
    assert Apply(s1, Line(Answer(c))).conns == Move(s, c, Idle).conns;
  }

  /** A post that ran out of time, and a push that found no room or failed. */
  lemma IsGivenUp(from: State, steps: seq<Step>, s: State, c: ConnId, r: Record, why: Outcome) returns (more: seq<Step>)
    requires Path(from, steps, s) && OnItsWay(s, c, r) && s.lock.Free?
    requires why == Io || (why == SpoolFull && |s.disk.vol| >= s.config.capacity)
    ensures Path(from, more, AnsweredWith(s, c, r, StatusOf(why)))
  {
    var s1 := Apply(s, Line(DirectVerdict(c, TimedOut)));
    var s2 := Apply(s1, Push(PushRefused(c, why)));
    more := Go(from, steps, s, Line(DirectVerdict(c, TimedOut)));
    more := Go(from, more, s1, Push(PushRefused(c, why)));
    more := Go(from, more, s2, Line(Answer(c)));
    assert Apply(s2, Line(Answer(c))).conns == Move(s, c, Idle).conns;
  }

  predicate HasRoom(s: State) {
    s.lock.Free? && |s.disk.vol| < s.config.capacity && s.disk.next !in s.disk.vol
  }

  function WithEntry(d: Disk, r: Record): Disk {
    Disk(d.vol[d.next := File(r, true)], d.vol[d.next := File(r, true)], d.next + 1)
  }

  /** A push from its start to the moment before the answer. */
  lemma IsPushed(from: State, steps: seq<Step>, s: State, c: ConnId, r: Record) returns (more: seq<Step>)
    requires Path(from, steps, s) && At(s, c, Pushing(r)) && HasRoom(s)
    ensures Path(from, more, Move(s, c, Answering(r, Spooled)).(disk := WithEntry(s.disk, r)))
    ensures NoNewCrash(steps, more)
  {
    var s1 := Apply(s, Push(Create(c)));
    var s2 := Apply(s1, Push(Write));
    var s3 := Apply(s2, Push(SyncFile));
    more := Go(from, steps, s, Push(Create(c)));
    more := Go(from, more, s1, Push(Write));
    assert s2.disk.vol == s.disk.vol[s.disk.next := File(r, true)];
    more := Go(from, more, s2, Push(SyncFile));
    more := Go(from, more, s3, Push(SyncPush));
  }

  /** A post that ran out of time, and a push that worked. */
  lemma IsSpooled(from: State, steps: seq<Step>, s: State, c: ConnId, r: Record) returns (more: seq<Step>)
    requires Path(from, steps, s) && OnItsWay(s, c, r) && HasRoom(s)
    ensures Path(from, more, Move(s, c, Answering(r, Spooled)).(disk := WithEntry(s.disk, r)))
    ensures NoNewCrash(steps, more)
  {
    var s1 := Apply(s, Line(DirectVerdict(c, TimedOut)));
    more := Go(from, steps, s, Line(DirectVerdict(c, TimedOut)));
    more := IsPushed(from, more, s1, c, r);
    assert Move(s1, c, Answering(r, Spooled)).conns == Move(s, c, Answering(r, Spooled)).conns;
  }

  lemma IsAnswered(from: State, steps: seq<Step>, s: State, c: ConnId, r: Record, outcome: Outcome)
      returns (more: seq<Step>)
    requires Path(from, steps, s) && At(s, c, Answering(r, outcome))
    ensures Path(from, more, AnsweredWith(s, c, r, StatusOf(outcome)))
    ensures NoNewCrash(steps, more)
  {
    more := Go(from, steps, s, Line(Answer(c)));
  }

  /** The oldest entry, and it is whole. */
  ghost predicate OldestIs(s: State, at: nat, r: Record) {
    IsMin(s.disk.vol, at) && s.disk.vol[at] == File(r, true)
  }

  /** A connection's own drain, whose poster vanishes at the first entry. */
  lemma FlushesInVain(from: State, steps: seq<Step>, s: State, c: ConnId, q: Record, at: nat, r: Record)
      returns (more: seq<Step>)
    requires Path(from, steps, s) && At(s, c, Flushing(q)) && s.lock.Free? && OldestIs(s, at, r)
    ensures Path(from, more, Move(LeaveSpool(s, r), c, Rechecking(q)))
  {
    var s1 := Apply(s, Drain(StartDrain(Caller(c))));
    more := Go(from, steps, s, Drain(StartDrain(Caller(c))));
    var s2 := Apply(s1, Drain(Hand(at)));
    more := Go(from, more, s1, Drain(Hand(at)));
    more := Go(from, more, s2, Drain(VerdictLost));
  }

  /** With something spooled that does not go out, a record is about to be pushed behind it. */
  lemma WaitsBehind(from: State, steps: seq<Step>, s: State, c: ConnId, at: nat, r: Record) returns (more: seq<Step>)
    requires Path(from, steps, s) && Ready(s, c) && OldestIs(s, at, r)
    requires r < |s.submitted| && CanReplay(s.config, AgentOf(s, r))
    ensures Path(from, more, Move(s, c, Pushing(|s.submitted|)).(submitted := s.submitted + [c], posted := s.posted + {r}))
  {
    var q := |s.submitted|;
    assert at in s.disk.vol;
    var s2 := Measured(s, c);
    more := IsMeasured(from, steps, s, c);
    more := FlushesInVain(from, more, s2, c, q, at, r);
    assert AgentOf(s2, r) == AgentOf(s, r);
    var s3 := Move(LeaveSpool(s2, r), c, Rechecking(q));
    more := Go(from, more, s3, Line(SecondDepth(c)));
    assert Apply(s3, Line(SecondDepth(c))).conns == Move(s, c, Pushing(q)).conns;
  }

  function WithoutEntry(d: Disk, at: nat): Disk {
    Disk(d.vol - {at}, d.vol - {at}, d.next)
  }

  /** The timer's drain hands the oldest entry over and is told it is settled. */
  lemma IsDecided(from: State, steps: seq<Step>, s: State, at: nat, r: Record, a: Attempt) returns (more: seq<Step>)
    requires Path(from, steps, s) && s.lock.Free? && OldestIs(s, at, r)
    requires EntryRunsInto(s.config, AgentOf(s, r), File(r, true), a) && VerdictOf(a) == Rejected
    ensures Path(from, more, GiveUp(LeaveSpool(s, r), File(r, true), a).(lock := Decided(Background, at)))
    ensures NoNewCrash(steps, more)
  {
    var s1 := Apply(s, Drain(StartDrain(Background)));
    more := Go(from, steps, s, Drain(StartDrain(Background)));
    var s2 := Apply(s1, Drain(Hand(at)));
    more := Go(from, more, s1, Drain(Hand(at)));
    more := Go(from, more, s2, Drain(Verdict(a)));
  }

  lemma IsTaken(from: State, steps: seq<Step>, s: State, at: nat, r: Record) returns (more: seq<Step>)
    requires Path(from, steps, s) && s.lock.Free? && OldestIs(s, at, r) && CanReplay(s.config, AgentOf(s, r))
    ensures Path(from, more, s.(lock := Decided(Background, at), log := s.log + [r], posted := s.posted + {r}))
  {
    var s1 := Apply(s, Drain(StartDrain(Background)));
    more := Go(from, steps, s, Drain(StartDrain(Background)));
    var s2 := Apply(s1, Drain(Hand(at)));
    more := Go(from, more, s1, Drain(Hand(at)));
    var s3 := Apply(s2, Drain(Take));
    more := Go(from, more, s2, Drain(Take));
    more := Go(from, more, s3, Drain(Verdict(Answered(200))));
  }

  lemma IsRemoved(from: State, steps: seq<Step>, s: State, at: nat) returns (more: seq<Step>)
    requires Path(from, steps, s) && s.lock == Decided(Background, at)
    ensures Path(from, more, s.(lock := Looking(Background), disk := WithoutEntry(s.disk, at)))
    ensures NoNewCrash(steps, more)
  {
    var s1 := Apply(s, Drain(Unlink));
    more := Go(from, steps, s, Drain(Unlink));
    more := Go(from, more, s1, Drain(SyncRemoval));
  }

  lemma Restarts(from: State, steps: seq<Step>, s: State, config: Config) returns (more: seq<Step>)
    requires Path(from, steps, s) && s.disk.dur == s.disk.vol && IsNext(s.disk.vol, s.disk.next)
    ensures Path(from, more,
      s.(lock := Free, config := config, conns := map[], vanished := s.vanished + InHands(s),
         found := |s.disk.vol|, torn := false))
    ensures forall x :: x in more && x.Crash? ==> x in steps || x.config == config
  {
    var left := s.disk.vol;
    assert Enabled(s, Crash(left, config));
    more := Go(from, steps, s, Crash(left, config));
    NextExists(left);
    OneNext(left, NextOf(left), s.disk.next);
  }

  lemma OneNext(d: Directory, a: nat, b: nat)
    requires IsNext(d, a) && IsNext(d, b)
    ensures a == b
  {
  }

  /** A sidecar with one idle connection and nothing spooled. */
  function Opened(config: Config, agent: Agent): State {
    Start(config).(callers := [agent], conns := map[0 := Idle])
  }

  lemma Opens(config: Config, agent: Agent) returns (steps: seq<Step>)
    requires Works(config, agent)
    ensures Path(Start(config), steps, Opened(config, agent)) && Ready(Opened(config, agent), 0)
    ensures Solo(Start(config), steps)
    ensures NoNewCrash([], steps)
  {
    var s := Start(config);
    steps := Go(s, [], s, Line(Connect(agent)));
    assert Apply(s, Line(Connect(agent))).conns == map[0 := Idle];
  }
}
