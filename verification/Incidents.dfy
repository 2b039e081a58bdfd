/**
 Runs in which something is left over or lost: two loose ends for a crash to find, a spooled record given up
 under another configuration, and a sender who hears nothing of a record that is there.
 */
module Incidents {
  import opened Names
  import opened Outcomes
  import opened Protocol
  import opened Conservation
  import opened Recovery
  import opened Drops
  import opened Runs
  import opened OrderBreaks
  import opened Silence
  import opened Exits
  import opened EndToEnd

  /** A push fails behind a spooled record, and the record is unlinked: a crash now can leave both. */
  lemma TwoLooseEndsAreReached(config: Config, agent: Agent) returns (steps: seq<Step>, s: State)
    requires Replays(config, agent) && config.capacity > 1
    ensures Reached(config, steps, s) && TwoLooseEnds(s)
    ensures exists left :: Enabled(s, Crash(left, s.config)) && !AtMostOneExtra(s, left)
  {
    var from := Start(config);
    steps, s := SecondPushFails(config, agent);
    steps := IsTaken(from, steps, s, 0, 0);
    s := s.(lock := Decided(Background, 0), log := s.log + [0], posted := s.posted + {0});
    steps := Go(from, steps, s, Drain(Unlink));
    s := Apply(s, Drain(Unlink));
    var left := map[0 := File(0, true), 1 := File(1, false)];
    assert Enabled(s, Crash(left, s.config));
    assert !Pending(s.disk, 0) && !Pending(s.disk, 1) && 0 in left && 1 in left;
  }

  lemma SecondPushFails(config: Config, agent: Agent) returns (steps: seq<Step>, s: State)
    requires Replays(config, agent) && config.capacity > 1
    ensures Path(Start(config), steps, s) && s.lock.Free? && s.config == config && AgentOf(s, 0) == agent
    ensures s.disk == Disk(map[0 := File(0, true), 1 := File(1, false)], map[0 := File(0, true)], 1)
  {
    var from := Start(config);
    var s1 := SecondWaiting(config, agent);
    steps := SecondWaits(config, agent);
    steps := Go(from, steps, s1, Push(Create(0)));
    var s2 := Apply(s1, Push(Create(0)));
    steps := Go(from, steps, s2, Push(WriteFails));
    s := Apply(s2, Push(WriteFails));
    assert s.disk.vol == map[0 := File(0, true), 1 := File(1, false)];
  }

  /** What a whole entry of this agent runs into under a configuration that cannot replay it. */
  function FaultUnder(config: Config, agent: Agent): Attempt {
    if agent == "" then Corrupt else if agent !in config.keys then NoCredential else NoEndpoint
  }

  /** The one spooled record meets a drain that cannot replay it. */
  lemma OnlyEntryIsDropped(from: State, steps: seq<Step>, s: State) returns (more: seq<Step>, t: State)
    requires Path(from, steps, s) && s.lock.Free? && !CanReplay(s.config, AgentOf(s, 0))
    requires s.disk == Disk(map[0 := File(0, true)], map[0 := File(0, true)], 1)
    ensures Path(from, more, t) && NoNewCrash(steps, more)
    ensures t.disk == Disk(map[], map[], 1) && t.dropped == s.dropped + {0} && t.answered == s.answered
    ensures t.log == s.log && t.refused == s.refused && t.submitted == s.submitted && t.callers == s.callers
  {
    var fault := FaultUnder(s.config, AgentOf(s, 0));
    more := IsDecided(from, steps, s, 0, 0, fault);
    var s1 := GiveUp(LeaveSpool(s, 0), File(0, true), fault).(lock := Decided(Background, 0));
    more := IsRemoved(from, more, s1, 0);
    t := s1.(lock := Looking(Background), disk := WithoutEntry(s1.disk, 0));
  }

  /** A run under these configurations in which this agent's record was answered spooled and dropped here. */
  ghost predicate Loses(agent: Agent, first: Config, config: Config, steps: seq<Step>, s: State, r: Record) {
    && Reached(first, steps, s) && RestartsUnder(steps, first, config)
    && r < |s.submitted| && AgentOf(s, r) == agent
    && r in s.answered && s.answered[r] == SpooledStatus && r in s.dropped
  }

  /** Gone: the service has nothing, refused nothing, and the spool holds nothing. */
  predicate NothingIsLeft(s: State) {
    s.log == [] && s.refused == {} && s.disk.vol == map[] && s.disk.dur == map[]
  }

  /**
   A restart under any configuration that cannot replay its agent's entries loses an acknowledged record:
   answered spooled, dropped by the next drain, never taken, never refused, and gone from the spool.
   */
  lemma SpooledRecordIsDropped(agent: Agent, first: Config, config: Config) returns (steps: seq<Step>, s: State)
    requires Works(first, agent) && first.capacity > 0 && !CanReplay(config, agent)
    ensures Loses(agent, first, config, steps, s, 0) && NothingIsLeft(s)
  {
    var s1 := FirstSpooled(first, agent);
    steps := FirstIsSpooled(first, agent);
    FirstSpooledIsReady(first, agent);
    steps := Restarts(Start(first), steps, s1, config);
    var s2 := s1.(lock := Free, config := config, conns := map[], vanished := s1.vanished + InHands(s1),
                  found := |s1.disk.vol|, torn := false);
    steps, s := OnlyEntryIsDropped(Start(first), steps, s2);
  }

  /** The agent with the empty name loses its acknowledged record without any restart. */
  lemma NamelessRecordIsDropped(config: Config) returns (steps: seq<Step>, s: State)
    requires Works(config, "") && config.capacity > 0
    ensures Loses("", config, config, steps, s, 0) && NothingIsLeft(s)
    ensures forall x :: x in steps ==> !x.Crash?
  {
    var s1 := FirstSpooled(config, "");
    steps := FirstIsSpooled(config, "");
    FirstSpooledIsReady(config, "");
    steps, s := OnlyEntryIsDropped(Start(config), steps, s1);
  }

  lemma ReplayableLosesNothing(agent: Agent, first: Config, config: Config, steps: seq<Step>, s: State, r: Record)
    requires CanReplay(first, agent) && CanReplay(config, agent)
    ensures !Loses(agent, first, config, steps, s, r)
  {
    if Loses(agent, first, config, steps, s, r) {
      StartInv(first);
      BothSend(Start(first), steps, r, agent, first, config);
      AcknowledgedIsNeverDropped(first, steps, s, r);
    }
  }

  /**
   For every agent and every configuration that posts for it: a restart under another configuration can lose one
   of its acknowledged records exactly when the name passes vetting and is empty, or has no key there, or no host.
   */
  lemma LosesExactlyUnder(agent: Agent, first: Config, config: Config)
    requires CanSend(first, agent) && first.capacity > 0
    ensures (exists steps, s, r :: Loses(agent, first, config, steps, s, r)) <==>
              !HasControl(agent) && (agent == "" || agent !in config.keys || !config.endpoint)
  {
    if !HasControl(agent) && !CanReplay(config, agent) {
      var steps, s := SpooledRecordIsDropped(agent, first, config);
      assert Loses(agent, first, config, steps, s, 0);
    } else {
      forall steps, s, r ensures !Loses(agent, first, config, steps, s, r) {
        if Loses(agent, first, config, steps, s, r) { AcknowledgedIsVetted(first, steps, s, r); }
        if CanReplay(config, agent) { ReplayableLosesNothing(agent, first, config, steps, s, r); }
      }
    }
  }

  function AboutToAnswerSpooled(config: Config, agent: Agent): State {
    var s := Posted(Opened(config, agent), 0);
    Move(s, 0, Answering(0, Spooled)).(disk := WithEntry(s.disk, 0))
  }

  lemma FirstIsAboutToBeAnswered(config: Config, agent: Agent) returns (steps: seq<Step>)
    requires Works(config, agent) && config.capacity > 0
    ensures Path(Start(config), steps, AboutToAnswerSpooled(config, agent))
    ensures AtRest(AboutToAnswerSpooled(config, agent).disk)
  {
    var s := Posted(Opened(config, agent), 0);
    steps := FirstIsPosted(config, agent);
    steps := IsSpooled(Start(config), steps, s, 0, 0);
  }

  /** A crash after the push was synced and before the answer: exit 9 for a record that is whole and durable. */
  lemma SilenceMayHideASpooledRecord(config: Config, agent: Agent) returns (steps: seq<Step>, s: State)
    requires Works(config, agent) && config.capacity > 0
    ensures Reached(config, steps, s) && Truthful(s, 0, 0, Silence(false))
    ensures s.submitted == [0] && s.log == [] && Kept(s.disk, 0) && Answering(0, Spooled) in s.vanished
    ensures Code(ExitOf(Silence(false), true)) == 9
  {
    var t := AboutToAnswerSpooled(config, agent);
    steps := FirstIsAboutToBeAnswered(config, agent);
    steps := Restarts(Start(config), steps, t, config);
    s := t.(lock := Free, config := config, conns := map[], vanished := t.vanished + InHands(t),
            found := |t.disk.vol|, torn := false);
    assert t.conns[0] == Answering(0, Spooled) && 0 in t.conns;
    assert Durable(s.disk, 0, File(0, true));
  }

  /** A connection ended there with record 0 in hand, and the service has it. */
  ghost predicate TakenUnheard(v: Conn, config: Config, steps: seq<Step>, s: State) {
    Reached(config, steps, s) && v in s.vanished && 0 in s.log
  }

  /** A connection ended there with record 0 in hand, and the spool has the whole of it. */
  ghost predicate SpooledUnheard(v: Conn, config: Config, steps: seq<Step>, s: State) {
    Reached(config, steps, s) && v in s.vanished && WholeInSpool(s.disk, 0)
  }

  function FirstTaken(config: Config, agent: Agent): State {
    Posted(Opened(config, agent), 0).(log := [0])
  }

  lemma FirstIsTaken(config: Config, agent: Agent) returns (steps: seq<Step>)
    requires Works(config, agent)
    ensures Path(Start(config), steps, FirstTaken(config, agent))
  {
    var s := Posted(Opened(config, agent), 0);
    steps := FirstIsPosted(config, agent);
    steps := Go(Start(config), steps, s, Line(TakeDirect(0)));
    assert s.log + [0] == [0];
  }

  /** The verdict with which a connection that had its record taken comes to `v`, if it is a verdict that does. */
  function AttemptFor(v: Conn): Attempt {
    if v == Answering(0, Ok) then Answered(200) else if v == Answering(0, Rejected) then Answered(400) else TimedOut
  }

  /** The directory is as a restart likes it. */
  ghost predicate AtRest(d: Disk) {
    d.dur == d.vol && IsNext(d.vol, d.next)
  }

  lemma TakenAndDecided(config: Config, agent: Agent, a: Attempt) returns (steps: seq<Step>, s: State)
    requires Works(config, agent) && a in {Answered(200), Answered(400), TimedOut}
    ensures Path(Start(config), steps, s) && s.log == [0] && s.lock.Free? && s.config == config
    ensures s.disk == Disk(map[], map[], 0)
    ensures At(s, 0, if VerdictOf(a) == Spooled then Pushing(0) else Answering(0, VerdictOf(a)))
  {
    var s1 := FirstTaken(config, agent);
    steps := FirstIsTaken(config, agent);
    steps := Go(Start(config), steps, s1, Line(DirectVerdict(0, a)));
    s := Apply(s1, Line(DirectVerdict(0, a)));
  }

  lemma TakenAndTurnedAway(config: Config, agent: Agent, why: Outcome) returns (steps: seq<Step>, s: State)
    requires Works(config, agent) && (why == Io || (why == SpoolFull && config.capacity == 0))
    ensures Path(Start(config), steps, s) && s.log == [0] && s.disk == Disk(map[], map[], 0)
    ensures At(s, 0, Answering(0, why))
  {
    steps, s := TakenAndDecided(config, agent, TimedOut);
    steps := Go(Start(config), steps, s, Push(PushRefused(0, why)));
    s := Apply(s, Push(PushRefused(0, why)));
  }

  lemma TakenAndSpooled() returns (steps: seq<Step>, s: State)
    ensures Path(Start(Working(1)), steps, s) && s.log == [0] && AtRest(s.disk)
    ensures At(s, 0, Answering(0, Spooled))
  {
    steps, s := TakenAndDecided(Working(1), AGENT, TimedOut);
    steps := IsPushed(Start(Working(1)), steps, s, 0, 0);
    s := Move(s, 0, Answering(0, Spooled)).(disk := WithEntry(s.disk, 0));
  }

  lemma TakenThen(v: Conn, config: Config) returns (steps: seq<Step>, s: State)
    requires !v.Idle? && v.rec == 0 && MayBeTaken(v)
    requires config == Working(if v == Answering(0, SpoolFull) then 0 else 1)
    ensures Path(Start(config), steps, s) && At(s, 0, v) && s.log == [0] && AtRest(s.disk)
  {
    if v.Posting? {
      steps := FirstIsTaken(config, AGENT);
      s := FirstTaken(config, AGENT);
    } else if v == Answering(0, SpoolFull) || v == Answering(0, Io) {
      steps, s := TakenAndTurnedAway(config, AGENT, v.outcome);
    } else if v == Answering(0, Spooled) {
      steps, s := TakenAndSpooled();
    } else {
      steps, s := TakenAndDecided(config, AGENT, AttemptFor(v));
    }
  }

  lemma EndsUnheard(from: State, steps: seq<Step>, s: State, v: Conn) returns (more: seq<Step>, t: State)
    requires Path(from, steps, s) && At(s, 0, v) && !v.Idle?
    requires AtRest(s.disk)
    ensures Path(from, more, t) && v in t.vanished && t.log == s.log && t.disk == s.disk
  {
    more := Restarts(from, steps, s, s.config);
    t := s.(lock := Free, config := s.config, conns := map[], vanished := s.vanished + InHands(s),
            found := |s.disk.vol|, torn := false);
    assert s.conns[0] == v && 0 in s.conns;
  }

  /**
   Exactly where a connection can end unheard with its record at the service: everywhere from posting on.
   In every place before it, exit 9 is right about the service for good.
   */
  lemma TakenUnheardExactlyAt(v: Conn)
    requires !v.Idle? && v.rec == 0
    ensures (exists config, steps, s :: TakenUnheard(v, config, steps, s)) <==> MayBeTaken(v)
  {
    if MayBeTaken(v) {
      var config := Working(if v == Answering(0, SpoolFull) then 0 else 1);
      var steps, s := TakenThen(v, config);
      var t;
      steps, t := EndsUnheard(Start(config), steps, s, v);
      assert TakenUnheard(v, config, steps, t);
    } else {
      forall config, steps, s ensures !TakenUnheard(v, config, steps, s) {
        if TakenUnheard(v, config, steps, s) { VanishedIsTraced(config, steps, s, v); }
      }
    }
  }

  lemma FirstIsPushing() returns (steps: seq<Step>, s: State)
    ensures Path(Start(Working(1)), steps, s) && At(s, 0, Pushing(0))
    ensures s.disk == Disk(map[], map[], 0) && s.lock.Free? && s.config == Working(1)
  {
    var s1 := Posted(Opened(Working(1), AGENT), 0);
    steps := FirstIsPosted(Working(1), AGENT);
    steps := Go(Start(Working(1)), steps, s1, Line(DirectVerdict(0, TimedOut)));
    s := Apply(s1, Line(DirectVerdict(0, TimedOut)));
  }

  lemma FirstIsWritten() returns (steps: seq<Step>, s: State)
    ensures Path(Start(Working(1)), steps, s) && At(s, 0, Pushing(0))
    ensures s.disk == Disk(map[0 := File(0, true)], map[], 0) && s.lock.Written?
  {
    var s1;
    steps, s1 := FirstIsPushing();
    steps := Go(Start(Working(1)), steps, s1, Push(Create(0)));
    var s2 := Apply(s1, Push(Create(0)));
    steps := Go(Start(Working(1)), steps, s2, Push(Write));
    s := Apply(s2, Push(Write));
    assert s.disk.vol == map[0 := File(0, true)];
  }

  /** A crash in the middle of a push, with the file written and nothing synced. */
  lemma PushingEndsUnheard() returns (steps: seq<Step>, s: State)
    ensures SpooledUnheard(Pushing(0), Working(1), steps, s)
  {
    var t;
    steps, t := FirstIsWritten();
    var left := map[0 := File(0, true)];
    steps := Go(Start(Working(1)), steps, t, Crash(left, Working(1)));
    s := Apply(t, Crash(left, Working(1)));
    assert t.conns[0] == Pushing(0) && 0 in t.conns;
    assert Has(s.disk, 0, File(0, true));
  }

  /** Exactly where a connection can end unheard with its record whole in the spool. */
  lemma SpooledUnheardExactlyAt(v: Conn)
    requires !v.Idle? && v.rec == 0
    ensures (exists config, steps, s :: SpooledUnheard(v, config, steps, s)) <==> MaySpool(v)
  {
    if v.Pushing? {
      var steps, s := PushingEndsUnheard();
    } else if MaySpool(v) {
      var steps, s := SilenceMayHideASpooledRecord(Working(1), AGENT);
      KeptIsWhole(s.disk, 0);
      assert SpooledUnheard(v, Working(1), steps, s);
    } else {
      forall config, steps, s ensures !SpooledUnheard(v, config, steps, s) {
        if SpooledUnheard(v, config, steps, s) { VanishedIsTraced(config, steps, s, v); }
      }
    }
  }
}
