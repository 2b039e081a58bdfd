/**
 Where the order of delivery ends: a record that was not acknowledged, or that was turned away on its way
 out of the spool, can be taken late, after a record its connection sent later.
 */
module OrderBreaks {
  import opened Names
  import opened Outcomes
  import opened Protocol
  import opened Conservation
  import opened Ordering
  import opened SoloOrder
  import opened Acknowledged
  import opened Runs

  /** What became of an answered record. */
  datatype Ending = Held | FromSpoolRefused | FromSpoolDropped | NoRoom | Failed | RefusedOutright

  function EndingOf(s: State, r: Record): Ending
    requires r in s.answered
  {
    match s.answered[r]
    case RejectedStatus => RefusedOutright
    case SpoolFullStatus => NoRoom
    case ErrorStatus => Failed
    case _ => if r in s.refused then FromSpoolRefused else if r in s.dropped then FromSpoolDropped else Held
  }

  /** The later one was accepted before the earlier one ever was. */
  ghost predicate Inverted(log: seq<Record>, earlier: Record, later: Record) {
    earlier in log && exists j :: 0 <= j < |log| && log[j] == later && earlier !in log[..j]
  }

  /** A run in which a record that ended like this was overtaken by a later one of its connection. */
  ghost predicate Breaks(ending: Ending, config: Config, steps: seq<Step>, s: State,
                         earlier: Record, later: Record) {
    && Reached(config, steps, s)
    && earlier < later < |s.submitted| && s.submitted[earlier] == s.submitted[later]
    && earlier in s.answered && EndingOf(s, earlier) == ending
    && Inverted(s.log, earlier, later)
  }

  const AGENT: Agent := "a"

  function Working(capacity: nat): (config: Config)
    ensures Replays(config, AGENT)
  {
    assert !IsControl('a');
    Config(true, {AGENT}, capacity)
  }

  /** From a first record that left and is over without having been taken: a second one is, and then the first. */
  lemma IsOvertaken(from: State, steps: seq<Step>, s: State) returns (more: seq<Step>, t: State)
    requires Path(from, steps, s) && Ready(s, 0) && s.disk.vol == map[]
    requires s.submitted == [0] && s.log == [] && 0 in s.posted && 0 in s.answered
    ensures Path(from, more, t) && t.submitted == [0, 0] && Inverted(t.log, 0, 1)
    ensures 0 in t.answered && t.answered[0] == s.answered[0] && t.refused == s.refused && t.dropped == s.dropped
  {
    more := EmptySpoolPostsDirectly(from, steps, s, 0);
    var s1 := Posted(s, 0);
    more := IsAccepted(from, more, s1, 0, 1);
    var s2 := AnsweredWith(s1, 0, 1, AcceptedStatus).(log := s1.log + [1]);
    more := Go(from, more, s2, Stray(0));
    t := Apply(s2, Stray(0));
    assert t.log == [1, 0] && t.log[..0] == [] && t.log[0] == 1 && t.log[1] == 0;
  }

  lemma FirstIsPosted(config: Config, agent: Agent) returns (steps: seq<Step>)
    requires Works(config, agent)
    ensures Path(Start(config), steps, Posted(Opened(config, agent), 0))
    ensures OnItsWay(Posted(Opened(config, agent), 0), 0, 0)
    ensures NoNewCrash([], steps)
  {
    var s := Opened(config, agent);
    steps := Opens(config, agent);
    steps := EmptySpoolPostsDirectly(Start(config), steps, s, 0);
  }

  /** Failed, or rejected: two answers that leave nothing in the spool. */
  lemma UnspooledBreaks(config: Config, agent: Agent, ending: Ending) returns (steps: seq<Step>, s: State)
    requires Works(config, agent) && ending in {Failed, RefusedOutright}
    ensures Breaks(ending, config, steps, s, 0, 1)
  {
    var from := Start(config);
    var s1 := Posted(Opened(config, agent), 0);
    steps := FirstIsPosted(config, agent);
    if ending == RefusedOutright {
      steps := IsRefused(from, steps, s1, 0, 0);
      s := AnsweredWith(s1, 0, 0, RejectedStatus).(refused := s1.refused + {0});
    } else {
      steps := IsGivenUp(from, steps, s1, 0, 0, Io);
      s := AnsweredWith(s1, 0, 0, ErrorStatus);
    }
    steps, s := IsOvertaken(from, steps, s);
  }

  /** Two connections with their records on the way, and room for one. */
  function BothPosted(): State {
    Start(Working(1)).(callers := [AGENT, AGENT], conns := map[0 := Posting(0), 1 := Posting(1)],
                       submitted := [0, 1], posted := {0, 1})
  }

  lemma BothArePosted() returns (steps: seq<Step>)
    ensures Path(Start(Working(1)), steps, BothPosted())
  {
    var from := Start(Working(1));
    var s1 := Posted(Opened(Working(1), AGENT), 0);
    steps := FirstIsPosted(Working(1), AGENT);
    var s2 := Apply(s1, Line(Connect(AGENT)));
    steps := Go(from, steps, s1, Line(Connect(AGENT)));
    steps := EmptySpoolPostsDirectly(from, steps, s2, 1);
    var s3 := Posted(s2, 1);
    assert s3.conns == BothPosted().conns && s3.callers == BothPosted().callers;
    assert s3.submitted == BothPosted().submitted && s3.posted == BothPosted().posted;
  }

  /** The second connection's record takes the room, and the first one's is turned away. */
  function OneTookTheRoom(): State {
    BothPosted().(conns := map[0 := Idle, 1 := Idle], answered := map[1 := SpooledStatus, 0 := SpoolFullStatus],
                  disk := Disk(map[0 := File(1, true)], map[0 := File(1, true)], 1))
  }

  lemma OneTakesTheRoom() returns (steps: seq<Step>)
    ensures Path(Start(Working(1)), steps, OneTookTheRoom())
  {
    var from := Start(Working(1));
    steps := BothArePosted();
    steps := IsSpooled(from, steps, BothPosted(), 1, 1);
    var s1 := Move(BothPosted(), 1, Answering(1, Spooled)).(disk := WithEntry(BothPosted().disk, 1));
    steps := IsAnswered(from, steps, s1, 1, 1, Spooled);
    var s2 := AnsweredWith(s1, 1, 1, SpooledStatus);
    assert s2.disk.vol == map[0 := File(1, true)];
    steps := IsGivenUp(from, steps, s2, 0, 0, SpoolFull);
    var s3 := AnsweredWith(s2, 0, 0, SpoolFullStatus);
    assert s3.conns == OneTookTheRoom().conns && s3.answered == OneTookTheRoom().answered;
  }

  /** The timer sends what took the room, and the spool is empty again. */
  lemma RoomIsBack() returns (steps: seq<Step>, s: State)
    ensures Path(Start(Working(1)), steps, s) && Ready(s, 0) && s.disk.vol == map[] && s.submitted == [0, 1]
    ensures s.answered == OneTookTheRoom().answered && s.log == [1] && 0 in s.posted
  {
    var from := Start(Working(1));
    var s1 := OneTookTheRoom();
    steps := OneTakesTheRoom();
    steps := IsTaken(from, steps, s1, 0, 1);
    var s2 := s1.(lock := Decided(Background, 0), log := s1.log + [1], posted := s1.posted + {1});
    steps := IsRemoved(from, steps, s2, 0);
    var s3 := s2.(lock := Looking(Background), disk := WithoutEntry(s2.disk, 0));
    steps := Go(from, steps, s3, Drain(EndDrain));
    s := Apply(s3, Drain(EndDrain));
  }

  /** Answered for want of room, and overtaken by the next record of its connection. */
  lemma NoRoomBreaks() returns (steps: seq<Step>, s: State)
    ensures Breaks(NoRoom, Working(1), steps, s, 0, 2)
  {
    var from := Start(Working(1));
    var s1;
    steps, s1 := RoomIsBack();
    steps := EmptySpoolPostsDirectly(from, steps, s1, 0);
    var s2 := Posted(s1, 0);
    steps := IsAccepted(from, steps, s2, 0, 2);
    var s3 := AnsweredWith(s2, 0, 2, AcceptedStatus).(log := s2.log + [2]);
    steps := Go(from, steps, s3, Stray(0));
    s := Apply(s3, Stray(0));
    assert s.log == [1, 2, 0] && s.log[..1] == [1] && s.log[1] == 2 && s.log[2] == 0;
    assert s.submitted == [0, 1, 0];
  }

  function FirstSpooled(config: Config, agent: Agent): State {
    var s := Posted(Opened(config, agent), 0);
    AnsweredWith(s, 0, 0, SpooledStatus).(disk := Disk(map[0 := File(0, true)], map[0 := File(0, true)], 1))
  }

  /** A record is posted in vain, pushed and answered spooled. */
  lemma FirstIsSpooled(config: Config, agent: Agent) returns (steps: seq<Step>)
    requires Works(config, agent) && config.capacity > 0
    ensures Path(Start(config), steps, FirstSpooled(config, agent))
    ensures NoNewCrash([], steps)
  {
    var from := Start(config);
    var s1 := Posted(Opened(config, agent), 0);
    steps := FirstIsPosted(config, agent);
    steps := IsSpooled(from, steps, s1, 0, 0);
    var s2 := Move(s1, 0, Answering(0, Spooled)).(disk := WithEntry(s1.disk, 0));
    steps := IsAnswered(from, steps, s2, 0, 0, Spooled);
    assert AnsweredWith(s2, 0, 0, SpooledStatus).conns == FirstSpooled(config, agent).conns;
    assert AnsweredWith(s2, 0, 0, SpooledStatus).disk == FirstSpooled(config, agent).disk;
  }

  /** Spooled, then refused by the service when the timer replays it. */
  lemma RefusedFromSpoolBreaks(config: Config, agent: Agent) returns (steps: seq<Step>, s: State)
    requires Replays(config, agent) && config.capacity > 0
    ensures Breaks(FromSpoolRefused, config, steps, s, 0, 1)
  {
    var from := Start(config);
    var s1 := FirstSpooled(config, agent);
    steps := FirstIsSpooled(config, agent);
    steps := IsDecided(from, steps, s1, 0, 0, Answered(400));
    var s2 := GiveUp(LeaveSpool(s1, 0), File(0, true), Answered(400)).(lock := Decided(Background, 0));
    steps := IsRemoved(from, steps, s2, 0);
    var s3 := s2.(lock := Looking(Background), disk := WithoutEntry(s2.disk, 0));
    steps := Go(from, steps, s3, Drain(EndDrain));
    steps, s := IsOvertaken(from, steps, Apply(s3, Drain(EndDrain)));
  }

  function BothSpooled(config: Config, agent: Agent): State {
    var both := map[0 := File(0, true), 1 := File(1, true)];
    var s := FirstSpooled(config, agent);
    AnsweredWith(s, 0, 1, SpooledStatus).(submitted := [0, 0], disk := Disk(both, both, 2))
  }

  function SecondWaiting(config: Config, agent: Agent): State {
    Move(FirstSpooled(config, agent), 0, Pushing(1)).(submitted := [0, 0])
  }

  lemma FirstSpooledIsReady(config: Config, agent: Agent)
    requires Works(config, agent)
    ensures var s := FirstSpooled(config, agent);
      && Ready(s, 0) && OldestIs(s, 0, 0) && AgentOf(s, 0) == agent && s.config == config
      && s.submitted == [0] && s.posted == {0}
  {
    assert FirstSpooled(config, agent).disk.vol[0] == File(0, true);
  }

  lemma SecondWaits(config: Config, agent: Agent) returns (steps: seq<Step>)
    requires Replays(config, agent) && config.capacity > 1
    ensures Path(Start(config), steps, SecondWaiting(config, agent))
  {
    var s := FirstSpooled(config, agent);
    steps := FirstIsSpooled(config, agent);
    FirstSpooledIsReady(config, agent);
    steps := WaitsBehind(Start(config), steps, s, 0, 0, 0);
    assert s.posted + {0} == s.posted && s.submitted + [0] == [0, 0];
  }

  lemma BothAreSpooled(config: Config, agent: Agent) returns (steps: seq<Step>)
    requires Replays(config, agent) && config.capacity > 1
    ensures Path(Start(config), steps, BothSpooled(config, agent))
  {
    var from := Start(config);
    var s1 := SecondWaiting(config, agent);
    steps := SecondWaits(config, agent);
    steps := IsPushed(from, steps, s1, 0, 1);
    var s2 := Move(s1, 0, Answering(1, Spooled)).(disk := WithEntry(s1.disk, 1));
    steps := IsAnswered(from, steps, s2, 0, 1, Spooled);
    var s3 := AnsweredWith(s2, 0, 1, SpooledStatus);
    assert s3.conns == BothSpooled(config, agent).conns && s3.disk == BothSpooled(config, agent).disk;
  }

  /** Two records spooled; a restart under an unusable base URL drops the first, one under a usable one sends the second. */
  lemma DroppedFromSpoolBreaks(config: Config, agent: Agent) returns (steps: seq<Step>, s: State)
    requires Replays(config, agent) && config.capacity > 1
    ensures Breaks(FromSpoolDropped, config, steps, s, 0, 1)
  {
    var from := Start(config);
    var s1 := BothSpooled(config, agent);
    steps := BothAreSpooled(config, agent);
    var s2, s3, s4;
    steps, s2 := FirstIsDropped(from, steps, s1, config, agent);
    steps := Restarts(from, steps, s2, config);
    s3 := s2.(lock := Free, config := config, conns := map[], vanished := s2.vanished + InHands(s2),
              found := |s2.disk.vol|, torn := false);
    steps := IsTaken(from, steps, s3, 1, 1);
    s4 := s3.(lock := Decided(Background, 1), log := s3.log + [1], posted := s3.posted + {1});
    steps := Go(from, steps, s4, Stray(0));
    s := Apply(s4, Stray(0));
    assert s.log == [1, 0] && s.log[..0] == [] && s.log[0] == 1 && s.log[1] == 0;
  }

  lemma FirstIsDropped(from: State, steps: seq<Step>, s: State, config: Config, agent: Agent)
      returns (more: seq<Step>, t: State)
    requires Path(from, steps, s) && s.disk.vol == map[0 := File(0, true), 1 := File(1, true)]
    requires s.disk.dur == s.disk.vol && s.disk.next == 2
    requires AgentOf(s, 0) == agent && Replays(config, agent)
    ensures Path(from, more, t) && t.disk == Disk(map[1 := File(1, true)], map[1 := File(1, true)], 2)
    ensures t.dropped == s.dropped + {0} && t.log == s.log && t.posted == s.posted && t.refused == s.refused
    ensures t.answered == s.answered && t.submitted == s.submitted && t.callers == s.callers
  {
    var unusable := config.(endpoint := false);
    more := Restarts(from, steps, s, unusable);
    var s1 := s.(lock := Free, config := unusable, conns := map[], vanished := s.vanished + InHands(s),
                 found := |s.disk.vol|, torn := false);
    more := IsDecided(from, more, s1, 0, 0, NoEndpoint);
    var s2 := GiveUp(LeaveSpool(s1, 0), File(0, true), NoEndpoint).(lock := Decided(Background, 0));
    more := IsRemoved(from, more, s2, 0);
    t := s2.(lock := Looking(Background), disk := WithoutEntry(s2.disk, 0));
    assert t.disk.vol == map[1 := File(1, true)];
  }

  /** With these endings alone can the order break: for each there is a run, and for a held record there is none. */
  lemma OrderBreaksExactlyFor(ending: Ending)
    ensures
      (exists config, steps, s, earlier, later :: Breaks(ending, config, steps, s, earlier, later))
        <==> ending != Held
  {
    match ending {
      case Held =>
        forall config, steps, s, earlier, later
          ensures !Breaks(Held, config, steps, s, earlier, later)
        {
          if Breaks(Held, config, steps, s, earlier, later) {
            var j: nat :| j < |s.log| && s.log[j] == later && earlier !in s.log[..j];
            SentInOrder(config, steps, s, earlier, later, j);
          }
        }
      case FromSpoolRefused =>
        var steps, s := RefusedFromSpoolBreaks(Working(1), AGENT);
      case FromSpoolDropped =>
        var steps, s := DroppedFromSpoolBreaks(Working(2), AGENT);
      case NoRoom =>
        var steps, s := NoRoomBreaks();
      case _ =>
        var steps, s := UnspooledBreaks(Working(1), AGENT, ending);
    }
  }

  /** A failed push lets a late acceptance overtake, whoever the agent and whatever the capacity. */
  lemma LateAcceptanceOvertakes(config: Config, agent: Agent)
    requires Works(config, agent)
    ensures exists steps, s :: Breaks(Failed, config, steps, s, 0, 1)
  {
    var steps, s := UnspooledBreaks(config, agent, Failed);
  }

  /** One connection sends a record, and the service takes it. */
  lemma NextIsAccepted(from: State, steps: seq<Step>, s: State) returns (more: seq<Step>, t: State)
    requires Path(from, steps, s) && Solo(from, steps) && Ready(s, 0) && s.disk.vol == map[]
    requires forall d :: d in s.conns ==> s.conns[d].Idle?
    ensures Path(from, more, t) && Solo(from, more) && Ready(t, 0) && t.disk.vol == map[] && t.conns == s.conns
    ensures t.answered == s.answered[|s.submitted| := AcceptedStatus] && t.log == s.log + [|s.submitted|]
    ensures t.submitted == s.submitted + [0] && t.posted == s.posted + {|s.submitted|}
  {
    more := EmptySpoolPostsDirectly(from, steps, s, 0);
    more := IsAccepted(from, more, Posted(s, 0), 0, |s.submitted|);
    t := AnsweredWith(Posted(s, 0), 0, |s.submitted|, AcceptedStatus).(log := s.log + [|s.submitted|]);
    assert t.conns == s.conns;
  }

  lemma RepeatDoesNotCollapse()
    ensures !StrictlyIncreasing(Collapse([0, 1, 0]))
  {
    assert [0, 1, 0][1..] == [1, 0] && [1, 0][1..] == [0];
    assert Collapse([0]) == [0] && Collapse([1, 0]) == [1, 0];
    var c := Collapse([0, 1, 0]);
    assert c == [0, 1, 0] && c[1] == 1 && c[2] == 0;
  }

  /** With one submitter, a late acceptance spoils the adjacency of repeats even when everything was accepted. */
  lemma LateRepeatIsNotAdjacent(config: Config, agent: Agent) returns (steps: seq<Step>, s: State)
    requires Works(config, agent)
    ensures Reached(config, steps, s) && Solo(Start(config), steps)
    ensures s.answered == map[0 := AcceptedStatus, 1 := AcceptedStatus]
    ensures s.log == [0, 1, 0] && !StrictlyIncreasing(Collapse(s.log))
  {
    var from := Start(config);
    steps := Opens(config, agent);
    var t;
    steps, t := NextIsAccepted(from, steps, Opened(config, agent));
    steps, t := NextIsAccepted(from, steps, t);
    steps := Go(from, steps, t, Stray(0));
    s := Apply(t, Stray(0));
    RepeatDoesNotCollapse();
  }
}
