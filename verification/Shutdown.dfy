/**
 The life of `serve_until`: accept loops and their connections as tasks that poll the closing signal
 before anything else, the retry timer with the drain thread it may leave behind, and the main task that
 signals, aborts the timer, waits, flushes and removes the sockets.

 An aborted task is dropped where it next waits: a poll in progress goes on to its end, no other one
 starts. A fresh sleep is taken to be never over at its first poll.

 A task first looks at the signal and then, in the same poll, at its socket; the signal can arrive
 between the two. `armed` remembers which connections were at that point when it arrived.
 */
module Shutdown {

  type LoopId = nat
  type ConnId = nat

  datatype LoopAt = Selecting | Polled | Leaving | LoopEnded

  datatype ConnAt = Waiting | Reading | Submitting | Answering | Closing | Ended

  datatype Conn = Conn(loop: LoopId, at: ConnAt)

  datatype Main = Serving | Joining | Flushing | Removing(done: nat) | Returned

  datatype Event =
    | Accepted(c: ConnId)
    | Started(c: ConnId)       // a line was read and handed to `submit`
    | Answered(c: ConnId)      // its answer was attempted
    | TaskEnded(c: ConnId)
    | Closed                   // the signal
    | FlushStarted
    | FlushEnded
    | SocketRemoved(socket: nat)
    | RetryStarted             // the timer spawned a drain
    | RetryEnded               // that drain's thread is done with the spool

  datatype TimerAt = Sleeping | Checking | Retrying | Dropped

  /** The drain thread of the timer: with the poster at its other end, or without. */
  datatype RetryDrain = NoDrain | Served | Orphaned

  datatype Timer = Timer(at: TimerAt, polling: bool, drain: RetryDrain)

  datatype State = State(
    sockets: nat,
    loops: map<LoopId, LoopAt>,
    conns: map<ConnId, Conn>,
    main: Main,
    timer: Timer,
    closing: bool,
    midPoll: bool,             // history: the timer was being polled when it was aborted
    armed: set<ConnId>,        // history: connections past the signal check when it came
    closedAt: nat,             // history: where in `events` the signal is
    events: seq<Event>         // history
  )

  datatype LoopStep =
    | LoopPoll                // looks at the signal
    | Accept(c: ConnId)
    | AcceptNothing           // nothing there yet, or a failed accept
    | LoopEnds

  datatype ConnStep =
    | ConnPoll                // looks at the signal
    | ReadLine                // a record
    | ReadNothing             // nothing there yet, or a blank line
    | HangUp                  // end of stream, a failed read or write, or an over-long line
    | SubmitReturns
    | Answer(written: bool)

  datatype MainStep = Signal | AllJoined | FlushReturns | RemoveSocket | Return

  datatype TimerStep =
    | Wake                    // a poll starts
    | Yield                   // it ends, waiting for something
    | Slept
    | Depth(n: nat)           // the depth came back
    | Flushed                 // the flush returned
    | Drop                    // the runtime drops the aborted task
    | DrainEnds               // the drain thread is done

  datatype Step =
    | OfTimer(t: TimerStep)
    | OfLoop(l: LoopId, loop: LoopStep)
    | OfConn(c: ConnId, conn: ConnStep)
    | OfMain(m: MainStep)

  predicate LoopIs(s: State, l: LoopId, at: LoopAt) {
    l in s.loops && s.loops[l] == at
  }

  predicate ConnIs(s: State, c: ConnId, at: ConnAt) {
    c in s.conns && s.conns[c].at == at
  }

  function Note(s: State, e: Event): State {
    s.(events := s.events + [e])
  }

  predicate LoopEnabled(s: State, l: LoopId, step: LoopStep) {
    match step
    case LoopPoll => LoopIs(s, l, Selecting)
    case Accept(c) => LoopIs(s, l, Polled) && c !in s.conns
    case AcceptNothing => LoopIs(s, l, Polled)
    case LoopEnds =>
      LoopIs(s, l, Leaving) && forall c :: c in s.conns && s.conns[c].loop == l ==> s.conns[c].at == Ended
  }

  function LoopApply(s: State, l: LoopId, step: LoopStep): State
    requires LoopEnabled(s, l, step)
  {
    match step
    case LoopPoll => s.(loops := s.loops[l := if s.closing then Leaving else Polled])
    case Accept(c) =>
      Note(s.(loops := s.loops[l := Selecting], conns := s.conns[c := Conn(l, Waiting)]), Accepted(c))
    case AcceptNothing => s.(loops := s.loops[l := Selecting])
    case LoopEnds => s.(loops := s.loops[l := LoopEnded])
  }

  predicate ConnEnabled(s: State, c: ConnId, step: ConnStep) {
    match step
    case ConnPoll => ConnIs(s, c, Waiting)
    case ReadLine => ConnIs(s, c, Reading)
    case ReadNothing => ConnIs(s, c, Reading)
    case HangUp => ConnIs(s, c, Reading) || ConnIs(s, c, Closing)
    case SubmitReturns => ConnIs(s, c, Submitting)
    case Answer(_) => ConnIs(s, c, Answering)
  }

  function SetConn(s: State, c: ConnId, at: ConnAt): State
    requires c in s.conns
  {
    s.(conns := s.conns[c := s.conns[c].(at := at)])
  }

  function ConnApply(s: State, c: ConnId, step: ConnStep): State
    requires ConnEnabled(s, c, step)
  {
    match step
    case ConnPoll => if s.closing then Note(SetConn(s, c, Ended), TaskEnded(c)) else SetConn(s, c, Reading)
    case ReadLine => Note(SetConn(s, c, Submitting), Started(c))
    case ReadNothing => SetConn(s, c, Waiting)
    case HangUp => Note(SetConn(s, c, Ended), TaskEnded(c))
    case SubmitReturns => SetConn(s, c, Answering)
    case Answer(written) => Note(SetConn(s, c, if written then Waiting else Closing), Answered(c))
  }

  predicate MainEnabled(s: State, step: MainStep) {
    match step
    case Signal => s.main.Serving?
    case AllJoined => s.main.Joining? && forall l :: l in s.loops ==> s.loops[l] == LoopEnded
    case FlushReturns => s.main.Flushing?
    case RemoveSocket => s.main.Removing? && s.main.done < s.sockets
    case Return => s.main.Removing? && s.main.done == s.sockets
  }

  function MainApply(s: State, step: MainStep): State
    requires MainEnabled(s, step)
  {
    match step
    case Signal =>
      Note(s.(main := Joining, closing := true, midPoll := s.timer.polling, closedAt := |s.events|,
              armed := set c | c in s.conns && s.conns[c].at == Reading), Closed)
    case AllJoined => Note(s.(main := Flushing), FlushStarted)
    case FlushReturns => Note(s.(main := Removing(0)), FlushEnded)
    case RemoveSocket => Note(s.(main := Removing(s.main.done + 1)), SocketRemoved(s.main.done))
    case Return => s.(main := Returned)
  }

  predicate TimerEnabled(s: State, step: TimerStep) {
    match step
    case Wake => !s.closing && !s.timer.polling && s.timer.at != Dropped
    case Yield => s.timer.polling
    case Slept => s.timer.polling && s.timer.at == Sleeping
    case Depth(_) => s.timer.polling && s.timer.at == Checking
    case Flushed => s.timer.polling && s.timer.at == Retrying && s.timer.drain == NoDrain
    case Drop => s.closing && !s.timer.polling && s.timer.at != Dropped
    case DrainEnds => s.timer.drain != NoDrain
  }

  function TimerApply(s: State, step: TimerStep): State
    requires TimerEnabled(s, step)
  {
    match step
    case Wake => s.(timer := s.timer.(polling := true))
    case Yield => s.(timer := s.timer.(polling := false))
    case Slept => s.(timer := s.timer.(at := Checking))
    case Depth(n) =>
      if n == 0 then s.(timer := s.timer.(at := Sleeping, polling := false))
      else Note(s.(timer := s.timer.(at := Retrying, drain := Served)), RetryStarted)
    case Flushed => s.(timer := s.timer.(at := Sleeping, polling := false))
    case Drop =>
      s.(timer := s.timer.(at := Dropped, drain := if s.timer.drain == Served then Orphaned else s.timer.drain))
    case DrainEnds => Note(s.(timer := s.timer.(drain := NoDrain)), RetryEnded)
  }

  predicate Enabled(s: State, step: Step) {
    match step
    case OfTimer(t) => TimerEnabled(s, t)
    case OfLoop(l, loop) => LoopEnabled(s, l, loop)
    case OfConn(c, conn) => ConnEnabled(s, c, conn)
    case OfMain(m) => MainEnabled(s, m)
  }

  function Apply(s: State, step: Step): State
    requires Enabled(s, step)
  {
    match step
    case OfTimer(t) => TimerApply(s, t)
    case OfLoop(l, loop) => LoopApply(s, l, loop)
    case OfConn(c, conn) => ConnApply(s, c, conn)
    case OfMain(m) => MainApply(s, m)
  }

  /** Accept loops, two for each socket in the program, and nothing accepted yet. */
  function Start(sockets: nat, loops: set<LoopId>): State {
    State(sockets, map l | l in loops :: Selecting, map[], Serving, Timer(Sleeping, false, NoDrain), false, false, {}, 0, [])
  }

  predicate Busy(c: Conn) {
    c.at == Submitting || c.at == Answering
  }

  predicate PastFlush(main: Main) {
    main.Removing? || main.Returned?
  }

  ghost predicate ConnsMatchEvents(s: State) {
    && (forall c :: Accepted(c) in s.events <==> c in s.conns)
    && (forall c :: c in s.conns && s.conns[c].at == Ended ==> TaskEnded(c) in s.events)
    && (forall c :: TaskEnded(c) in s.events ==> ConnIs(s, c, Ended))
  }

  ghost predicate LoopsOutliveConns(s: State) {
    && (forall c :: c in s.conns ==> s.conns[c].loop in s.loops)
    && (forall c :: c in s.conns && s.loops[s.conns[c].loop] == LoopEnded ==> s.conns[c].at == Ended)
  }

  ghost predicate TasksMatchEvents(s: State) {
    ConnsMatchEvents(s) && LoopsOutliveConns(s)
  }

  ghost predicate MainMatchesEvents(s: State) {
    && (s.main.Serving? <==> !s.closing)
    && (s.closing ==> s.closedAt < |s.events| && s.events[s.closedAt] == Closed)
    && (forall i :: 0 <= i < |s.events| && s.events[i] == Closed ==> s.closing && i == s.closedAt)
    && (s.main.Flushing? || PastFlush(s.main) ==>
          FlushStarted in s.events && forall l :: l in s.loops ==> s.loops[l] == LoopEnded)
    && (PastFlush(s.main) ==> FlushEnded in s.events)
  }

  /** The record started at `i` had its answer attempted later, and before its task ended. */
  ghost predicate Matched(events: seq<Event>, i: nat, c: ConnId) {
    exists m :: i < m < |events| && events[m] == Answered(c) && TaskEnded(c) !in events[..m]
  }

  /** Every record started has its answer attempted, or is still in hand. */
  ghost predicate AnswersFollow(s: State) {
    forall i, c :: 0 <= i < |s.events| && s.events[i] == Started(c) ==>
      (c in s.conns && Busy(s.conns[c])) || Matched(s.events, i, c)
  }

  /** After the signal a connection starts at most the one record it was already reading for. */
  ghost predicate NothingNew(s: State) {
    OnlyArmedRead(s) && StartersAreDone(s) && StartedOnce(s)
  }

  ghost predicate OnlyArmedRead(s: State) {
    s.closing ==> forall c :: ConnIs(s, c, Reading) ==> c in s.armed
  }

  ghost predicate StartersAreDone(s: State) {
    forall i, c :: s.closing && s.closedAt < i < |s.events| && s.events[i] == Started(c) ==>
      c in s.armed && !ConnIs(s, c, Reading)
  }

  ghost predicate StartedOnce(s: State) {
    forall i, j, c :: s.closing && s.closedAt < i < j < |s.events| && s.events[i] == Started(c) ==>
      s.events[j] != Started(c)
  }

  /** A step that starts no record and lets no connection go on to read keeps that. */
  lemma OthersKeepNothingNew(s: State, t: State)
    requires NothingNew(s) && MainMatchesEvents(s)
    requires t.closing == s.closing && t.closedAt == s.closedAt && t.armed == s.armed
    requires t.events == s.events ||
      (|t.events| == |s.events| + 1 && s.events <= t.events && !t.events[|s.events|].Started?)
    requires forall c :: ConnIs(t, c, Reading) ==> ConnIs(s, c, Reading)
    ensures NothingNew(t)
  {
  }

  /** No `later` without an `earlier` before it. */
  ghost predicate Follows(events: seq<Event>, later: Event, earlier: Event) {
    forall i :: 0 <= i < |events| && events[i] == later ==> earlier in events[..i]
  }

  /** The signal, the end of every task, the flush, the removal of the sockets: in this order. */
  ghost predicate FlushIsLast(s: State) {
    && (forall c :: Accepted(c) in s.events ==> Follows(s.events, FlushStarted, TaskEnded(c)))
    && Follows(s.events, FlushStarted, Closed)
    && Follows(s.events, FlushEnded, FlushStarted)
    && (forall n :: Follows(s.events, SocketRemoved(n), FlushEnded))
    && (FlushStarted in s.events ==> s.main.Flushing? || PastFlush(s.main))
  }

  predicate IsRetry(e: Event) {
    e == RetryStarted || e == RetryEnded
  }

  /** Retry drains do not overlap: each has ended before the next starts, and all have when none is alive. */
  ghost predicate OneRetryAtATime(s: State) {
    && (forall i, j :: 0 <= i < j < |s.events| && s.events[i] == RetryStarted && s.events[j] == RetryStarted ==>
          RetryEnded in s.events[i..j])
    && (s.timer.drain == NoDrain ==>
          forall i :: 0 <= i < |s.events| && s.events[i] == RetryStarted ==> RetryEnded in s.events[i..])
    && (s.timer.drain != NoDrain ==> RetryStarted in s.events)
  }

  /** The timer waits for its drain while that is alive, unless it was dropped; then nobody is. */
  predicate DrainHasItsTimer(timer: Timer) {
    && (timer.drain == Served ==> timer.at == Retrying)
    && (timer.drain == Orphaned ==> timer.at == Dropped)
    && (timer.at == Dropped ==> !timer.polling)
  }

  /** After the signal the timer starts no drain but in the poll it was in, and only one. */
  ghost predicate LastRetry(s: State) {
    s.closing ==>
      && (s.timer.polling ==> s.midPoll)
      && (forall i :: s.closedAt < i < |s.events| && s.events[i] == RetryStarted ==>
            s.midPoll && (s.timer.polling ==> s.timer.at == Retrying))
      && (forall i, j :: s.closedAt < i < j < |s.events| && s.events[i] == RetryStarted ==> s.events[j] != RetryStarted)
  }

  ghost predicate RetryInv(s: State) {
    OneRetryAtATime(s) && DrainHasItsTimer(s.timer) && LastRetry(s)
  }

  ghost predicate Inv(s: State) {
    && TasksMatchEvents(s) && MainMatchesEvents(s) && AnswersFollow(s)
    && NothingNew(s) && ArmedWereFree(s) && FlushIsLast(s) && RetryInv(s)
  }

  /** A connection that may still start a record had been accepted, and had nothing in hand, at the signal. */
  ghost predicate ArmedWereFree(s: State) {
    s.closing && s.closedAt < |s.events| ==>
      forall c :: c in s.armed ==>
        && Accepted(c) in s.events[..s.closedAt]
        && forall i :: 0 <= i < s.closedAt && s.events[i] == Started(c) ==> Matched(s.events[..s.closedAt], i, c)
  }

  lemma FollowsOn(events: seq<Event>, e: Event, later: Event, earlier: Event)
    requires Follows(events, later, earlier) && (e == later ==> earlier in events)
    ensures Follows(events + [e], later, earlier)
  {
    forall i | 0 <= i < |events + [e]| && (events + [e])[i] == later ensures earlier in (events + [e])[..i] {
      assert i < |events| ==> (events + [e])[..i] == events[..i];
      assert i == |events| ==> (events + [e])[..i] == events;
    }
  }

  lemma MatchedOn(events: seq<Event>, e: Event, i: nat, c: ConnId)
    requires Matched(events, i, c) || (i < |events| && e == Answered(c) && TaskEnded(c) !in events)
    ensures Matched(events + [e], i, c)
  {
    var more := events + [e];
    if Matched(events, i, c) {
      var m :| i < m < |events| && events[m] == Answered(c) && TaskEnded(c) !in events[..m];
      assert more[m] == Answered(c) && more[..m] == events[..m];
    } else {
      assert more[|events|] == Answered(c) && more[..|events|] == events;
    }
  }

  /** One more event keeps the order, if it comes at its place. */
  lemma FlushOn(s: State, t: State)
    requires FlushIsLast(s)
    requires |t.events| == |s.events| + 1 && t.events == s.events + [t.events[|s.events|]]
    requires var e := t.events[|s.events|];
      && (e.Accepted? ==> FlushStarted !in s.events)
      && (e.FlushStarted? ==> Closed in s.events && forall c :: Accepted(c) in s.events ==> TaskEnded(c) in s.events)
      && (e.FlushEnded? ==> FlushStarted in s.events)
      && (e.SocketRemoved? ==> FlushEnded in s.events)
    requires FlushStarted in t.events ==> t.main.Flushing? || PastFlush(t.main)
    ensures FlushIsLast(t)
  {
    var e := t.events[|s.events|];
    FollowsOn(s.events, e, FlushStarted, Closed);
    FollowsOn(s.events, e, FlushEnded, FlushStarted);
    forall n ensures Follows(t.events, SocketRemoved(n), FlushEnded) {
      FollowsOn(s.events, e, SocketRemoved(n), FlushEnded);
    }
    forall c | Accepted(c) in t.events ensures Follows(t.events, FlushStarted, TaskEnded(c)) {
      FollowsOn(s.events, e, FlushStarted, TaskEnded(c));
    }
  }

  lemma StartInv(sockets: nat, loops: set<LoopId>)
    ensures Inv(Start(sockets, loops))
  {
  }

  lemma LoopKeepsTasks(s: State, l: LoopId, step: LoopStep)
    requires TasksMatchEvents(s) && LoopEnabled(s, l, step)
    ensures TasksMatchEvents(LoopApply(s, l, step))
  {
  }

  lemma LoopKeepsMain(s: State, l: LoopId, step: LoopStep)
    requires MainMatchesEvents(s) && LoopEnabled(s, l, step)
    ensures MainMatchesEvents(LoopApply(s, l, step))
  {
  }

  lemma LoopKeepsAnswers(s: State, l: LoopId, step: LoopStep)
    requires AnswersFollow(s) && TasksMatchEvents(s) && LoopEnabled(s, l, step)
    ensures AnswersFollow(LoopApply(s, l, step))
  {
    var t := LoopApply(s, l, step);
    forall i, c | 0 <= i < |t.events| && t.events[i] == Started(c)
      ensures (c in t.conns && Busy(t.conns[c])) || Matched(t.events, i, c)
    {
      if i < |s.events| && !(c in t.conns && Busy(t.conns[c])) {
        assert s.events[i] == Started(c);
        if t.events != s.events { MatchedOn(s.events, t.events[|s.events|], i, c); }
      }
    }
  }

  lemma LoopKeepsNothingNew(s: State, l: LoopId, step: LoopStep)
    requires NothingNew(s) && MainMatchesEvents(s) && LoopEnabled(s, l, step)
    ensures NothingNew(LoopApply(s, l, step))
  {
    OthersKeepNothingNew(s, LoopApply(s, l, step));
  }

  lemma LoopKeepsFlush(s: State, l: LoopId, step: LoopStep)
    requires FlushIsLast(s) && MainMatchesEvents(s) && TasksMatchEvents(s) && LoopEnabled(s, l, step)
    ensures FlushIsLast(LoopApply(s, l, step))
  {
    var t := LoopApply(s, l, step);
    if t.events != s.events { FlushOn(s, t); }
  }

  /** A connection's step adds at most one event, and its end exactly when it ends there. */
  lemma ConnAddsOneEvent(s: State, c: ConnId, step: ConnStep)
    requires ConnEnabled(s, c, step)
    ensures var t := ConnApply(s, c, step);
      && t.conns.Keys == s.conns.Keys && (forall d :: d in s.conns && d != c ==> t.conns[d] == s.conns[d])
      && s.conns[c].at != Ended
      && (if t.conns[c].at == Ended then t.events == s.events + [TaskEnded(c)]
          else t.events in {s.events, s.events + [Started(c)], s.events + [Answered(c)]})
  {
  }

  lemma ConnKeepsConns(s: State, c: ConnId, step: ConnStep)
    requires ConnsMatchEvents(s) && ConnEnabled(s, c, step)
    ensures ConnsMatchEvents(ConnApply(s, c, step))
  {
    ConnAddsOneEvent(s, c, step);
    var t := ConnApply(s, c, step);
    forall d ensures Accepted(d) in t.events <==> Accepted(d) in s.events {}
    forall d ensures TaskEnded(d) in t.events <==> TaskEnded(d) in s.events || (d == c && t.conns[c].at == Ended) {}
  }

  lemma ConnKeepsLoops(s: State, c: ConnId, step: ConnStep)
    requires LoopsOutliveConns(s) && ConnEnabled(s, c, step)
    ensures LoopsOutliveConns(ConnApply(s, c, step))
  {
  }

  lemma ConnKeepsTasks(s: State, c: ConnId, step: ConnStep)
    requires TasksMatchEvents(s) && ConnEnabled(s, c, step)
    ensures TasksMatchEvents(ConnApply(s, c, step))
  {
    ConnKeepsConns(s, c, step);
    ConnKeepsLoops(s, c, step);
  }

  lemma ConnKeepsMain(s: State, c: ConnId, step: ConnStep)
    requires MainMatchesEvents(s) && ConnEnabled(s, c, step)
    ensures MainMatchesEvents(ConnApply(s, c, step))
  {
  }

  lemma ConnKeepsAnswers(s: State, c: ConnId, step: ConnStep)
    requires AnswersFollow(s) && TasksMatchEvents(s) && ConnEnabled(s, c, step)
    ensures AnswersFollow(ConnApply(s, c, step))
  {
    var t := ConnApply(s, c, step);
    forall i, d | 0 <= i < |t.events| && t.events[i] == Started(d)
      ensures (d in t.conns && Busy(t.conns[d])) || Matched(t.events, i, d)
    {
      if i < |s.events| && !(d in t.conns && Busy(t.conns[d])) {
        assert s.events[i] == Started(d);
        if t.events != s.events { MatchedOn(s.events, t.events[|s.events|], i, d); }
      }
    }
  }

  lemma ReadKeepsNothingNew(s: State, c: ConnId)
    requires NothingNew(s) && MainMatchesEvents(s) && ConnEnabled(s, c, ReadLine)
    ensures NothingNew(ConnApply(s, c, ReadLine))
  {
  }

  lemma ConnKeepsNothingNew(s: State, c: ConnId, step: ConnStep)
    requires NothingNew(s) && MainMatchesEvents(s) && ConnEnabled(s, c, step)
    ensures NothingNew(ConnApply(s, c, step))
  {
    if step == ReadLine {
      ReadKeepsNothingNew(s, c);
    } else if s.closing || step != ConnPoll {
      OthersKeepNothingNew(s, ConnApply(s, c, step));
    }
  }

  lemma ConnKeepsFlush(s: State, c: ConnId, step: ConnStep)
    requires FlushIsLast(s) && MainMatchesEvents(s) && TasksMatchEvents(s) && ConnEnabled(s, c, step)
    ensures FlushIsLast(ConnApply(s, c, step))
  {
    var t := ConnApply(s, c, step);
    if t.events != s.events { FlushOn(s, t); }
  }

  lemma MainKeepsTasks(s: State, step: MainStep)
    requires TasksMatchEvents(s) && MainEnabled(s, step)
    ensures TasksMatchEvents(MainApply(s, step))
  {
  }

  lemma MainKeepsMain(s: State, step: MainStep)
    requires MainMatchesEvents(s) && MainEnabled(s, step)
    ensures MainMatchesEvents(MainApply(s, step))
  {
  }

  lemma MainKeepsAnswers(s: State, step: MainStep)
    requires AnswersFollow(s) && TasksMatchEvents(s) && MainEnabled(s, step)
    ensures AnswersFollow(MainApply(s, step))
  {
    var t := MainApply(s, step);
    forall i, c | 0 <= i < |t.events| && t.events[i] == Started(c)
      ensures (c in t.conns && Busy(t.conns[c])) || Matched(t.events, i, c)
    {
      if i < |s.events| && !(c in t.conns && Busy(t.conns[c])) {
        assert s.events[i] == Started(c);
        if t.events != s.events { MatchedOn(s.events, t.events[|s.events|], i, c); }
      }
    }
  }

  lemma MainKeepsNothingNew(s: State, step: MainStep)
    requires NothingNew(s) && MainMatchesEvents(s) && MainEnabled(s, step)
    ensures NothingNew(MainApply(s, step))
  {
    if step != Signal { OthersKeepNothingNew(s, MainApply(s, step)); }
  }

  lemma MainKeepsFlush(s: State, step: MainStep)
    requires FlushIsLast(s) && MainMatchesEvents(s) && TasksMatchEvents(s) && MainEnabled(s, step)
    ensures FlushIsLast(MainApply(s, step))
  {
    var t := MainApply(s, step);
    if t.events != s.events { FlushOn(s, t); }
  }

  /** Steps of the timer and its drain thread, as far as anything else can tell. */
  ghost predicate Quiet(s: State, t: State) {
    && t.loops == s.loops && t.conns == s.conns && t.main == s.main && t.closing == s.closing
    && t.armed == s.armed && t.closedAt == s.closedAt
    && (t.events == s.events || (exists e :: IsRetry(e) && t.events == s.events + [e]))
  }

  lemma TimerIsQuiet(s: State, step: TimerStep)
    requires TimerEnabled(s, step)
    ensures Quiet(s, TimerApply(s, step))
  {
    assert IsRetry(RetryStarted) && IsRetry(RetryEnded);
  }

  lemma QuietKeepsTasks(s: State, t: State)
    requires Quiet(s, t) && TasksMatchEvents(s) && MainMatchesEvents(s)
    ensures TasksMatchEvents(t) && MainMatchesEvents(t)
  {
    forall c ensures Accepted(c) in t.events <==> Accepted(c) in s.events {}
    forall c ensures TaskEnded(c) in t.events <==> TaskEnded(c) in s.events {}
    QuietKeepsMain(s, t);
  }

  lemma QuietKeepsMain(s: State, t: State)
    requires Quiet(s, t) && MainMatchesEvents(s)
    ensures MainMatchesEvents(t)
  {
  }

  lemma QuietKeepsAnswers(s: State, t: State)
    requires Quiet(s, t) && AnswersFollow(s)
    ensures AnswersFollow(t)
  {
    forall i, c | 0 <= i < |t.events| && t.events[i] == Started(c)
      ensures (c in t.conns && Busy(t.conns[c])) || Matched(t.events, i, c)
    {
      assert i < |s.events| && s.events[i] == Started(c);
      if !(c in t.conns && Busy(t.conns[c])) && t.events != s.events { MatchedOn(s.events, t.events[|s.events|], i, c); }
    }
  }

  lemma QuietKeepsRest(s: State, t: State)
    requires Quiet(s, t) && MainMatchesEvents(s) && NothingNew(s) && FlushIsLast(s) && ArmedWereFree(s)
    ensures NothingNew(t) && FlushIsLast(t) && ArmedWereFree(t)
  {
    OthersKeepNothingNew(s, t);
    if t.events != s.events { FlushOn(s, t); }
    ArmedStayFree(s, t);
  }

  lemma TimerKeepsItsDrain(s: State, step: TimerStep)
    requires DrainHasItsTimer(s.timer) && TimerEnabled(s, step)
    ensures DrainHasItsTimer(TimerApply(s, step).timer)
  {
  }

  lemma RetryEndKeepsOne(s: State)
    requires OneRetryAtATime(s) && TimerEnabled(s, DrainEnds)
    ensures OneRetryAtATime(TimerApply(s, DrainEnds))
  {
    var t := TimerApply(s, DrainEnds);
    var n := |s.events|;
    forall i, j | 0 <= i < j < n && t.events[i] == RetryStarted && t.events[j] == RetryStarted
      ensures RetryEnded in t.events[i..j]
    {
      assert t.events[i..j] == s.events[i..j];
    }
    forall i | 0 <= i < |t.events| && t.events[i] == RetryStarted ensures RetryEnded in t.events[i..] {
      assert t.events[i..][n - i] == RetryEnded;
    }
  }

  lemma RetryStartKeepsOne(s: State, n: nat)
    requires OneRetryAtATime(s) && DrainHasItsTimer(s.timer) && TimerEnabled(s, Depth(n)) && n > 0
    ensures OneRetryAtATime(TimerApply(s, Depth(n)))
  {
    var t := TimerApply(s, Depth(n));
    forall i, j | 0 <= i < j < |t.events| && t.events[i] == RetryStarted && t.events[j] == RetryStarted
      ensures RetryEnded in t.events[i..j]
    {
      assert t.events[i..j] == s.events[i..j];
      if j == |s.events| { assert s.events[i..j] == s.events[i..]; }
    }
    assert t.events[|s.events|] == RetryStarted;
  }

  lemma TimerKeepsOne(s: State, step: TimerStep)
    requires OneRetryAtATime(s) && DrainHasItsTimer(s.timer) && TimerEnabled(s, step)
    ensures OneRetryAtATime(TimerApply(s, step)) && DrainHasItsTimer(TimerApply(s, step).timer)
  {
    TimerKeepsItsDrain(s, step);
    if step.DrainEnds? {
      RetryEndKeepsOne(s);
    } else if step.Depth? && step.n > 0 {
      RetryStartKeepsOne(s, step.n);
    }
  }

  lemma TimerKeepsLast(s: State, step: TimerStep)
    requires LastRetry(s) && TimerEnabled(s, step)
    ensures LastRetry(TimerApply(s, step))
  {
  }

  lemma TimerKeepsInv(s: State, step: TimerStep)
    requires Inv(s) && TimerEnabled(s, step)
    ensures Inv(TimerApply(s, step))
  {
    var t := TimerApply(s, step);
    TimerIsQuiet(s, step);
    QuietKeepsTasks(s, t);
    QuietKeepsAnswers(s, t);
    QuietKeepsRest(s, t);
    TimerKeepsOne(s, step);
    TimerKeepsLast(s, step);
  }

  /** Nobody else touches the timer; the signal only notes where it was. */
  ghost predicate BesideTimer(s: State, t: State) {
    && t.timer == s.timer && s.events <= t.events && |t.events| <= |s.events| + 1
    && (|t.events| > |s.events| ==> !IsRetry(t.events[|s.events|]))
    && (if t.closing == s.closing then t.closedAt == s.closedAt && t.midPoll == s.midPoll
        else t.closedAt == |s.events| && t.midPoll == s.timer.polling)
  }

  lemma BesideKeepsRetry(s: State, t: State)
    requires RetryInv(s) && BesideTimer(s, t)
    ensures RetryInv(t)
  {
    BesideKeepsOne(s, t);
    BesideKeepsLast(s, t);
  }

  lemma BesideKeepsLast(s: State, t: State)
    requires LastRetry(s) && BesideTimer(s, t)
    ensures LastRetry(t)
  {
    assert forall i :: 0 <= i < |t.events| && t.events[i] == RetryStarted ==> i < |s.events| && s.events[i] == RetryStarted;
  }

  lemma BesideKeepsOne(s: State, t: State)
    requires OneRetryAtATime(s) && BesideTimer(s, t)
    ensures OneRetryAtATime(t)
  {
    forall i, j | 0 <= i < j < |t.events| && t.events[i] == RetryStarted && t.events[j] == RetryStarted
      ensures RetryEnded in t.events[i..j]
    {
      assert t.events[i..j] == s.events[i..j];
    }
    if s.timer.drain == NoDrain {
      forall i | 0 <= i < |t.events| && t.events[i] == RetryStarted ensures RetryEnded in t.events[i..] {
        assert RetryEnded in s.events[i..];
        var k :| 0 <= k < |s.events[i..]| && s.events[i..][k] == RetryEnded;
        assert t.events[i..][k] == RetryEnded;
      }
    }
  }

  lemma LoopIsBesideTimer(s: State, l: LoopId, step: LoopStep)
    requires LoopEnabled(s, l, step)
    ensures BesideTimer(s, LoopApply(s, l, step))
  {
  }

  lemma ConnIsBesideTimer(s: State, c: ConnId, step: ConnStep)
    requires ConnEnabled(s, c, step)
    ensures BesideTimer(s, ConnApply(s, c, step))
  {
  }

  lemma MainIsBesideTimer(s: State, step: MainStep)
    requires MainMatchesEvents(s) && MainEnabled(s, step)
    ensures BesideTimer(s, MainApply(s, step))
  {
  }

  lemma LoopKeepsInv(s: State, l: LoopId, step: LoopStep)
    requires Inv(s) && LoopEnabled(s, l, step)
    ensures Inv(LoopApply(s, l, step))
  {
    LoopKeepsTasks(s, l, step);
    LoopKeepsMain(s, l, step);
    LoopKeepsAnswers(s, l, step);
    LoopKeepsNothingNew(s, l, step);
    LoopKeepsFlush(s, l, step);
    ArmedStayFree(s, LoopApply(s, l, step));
    LoopIsBesideTimer(s, l, step);
    BesideKeepsRetry(s, LoopApply(s, l, step));
  }

  lemma ConnKeepsOrder(s: State, c: ConnId, step: ConnStep)
    requires TasksMatchEvents(s) && MainMatchesEvents(s) && FlushIsLast(s) && ArmedWereFree(s) && RetryInv(s)
    requires ConnEnabled(s, c, step)
    ensures var t := ConnApply(s, c, step); FlushIsLast(t) && ArmedWereFree(t) && RetryInv(t)
  {
    ConnKeepsFlush(s, c, step);
    ArmedStayFree(s, ConnApply(s, c, step));
    ConnIsBesideTimer(s, c, step);
    BesideKeepsRetry(s, ConnApply(s, c, step));
  }

  lemma ConnKeepsInv(s: State, c: ConnId, step: ConnStep)
    requires Inv(s) && ConnEnabled(s, c, step)
    ensures Inv(ConnApply(s, c, step))
  {
    ConnKeepsTasks(s, c, step);
    ConnKeepsMain(s, c, step);
    ConnKeepsAnswers(s, c, step);
    ConnKeepsNothingNew(s, c, step);
    ConnKeepsOrder(s, c, step);
  }

  lemma SignalArmsTheFree(s: State)
    requires TasksMatchEvents(s) && AnswersFollow(s) && MainEnabled(s, Signal)
    ensures ArmedWereFree(MainApply(s, Signal))
  {
    var t := MainApply(s, Signal);
    assert t.events[..t.closedAt] == s.events;
    forall c | c in t.armed ensures Accepted(c) in s.events {
      assert c in s.conns;
    }
  }

  lemma MainKeepsArmed(s: State, step: MainStep)
    requires TasksMatchEvents(s) && MainMatchesEvents(s) && AnswersFollow(s) && ArmedWereFree(s) && MainEnabled(s, step)
    ensures ArmedWereFree(MainApply(s, step))
  {
    if step == Signal { SignalArmsTheFree(s); } else { ArmedStayFree(s, MainApply(s, step)); }
  }

  lemma MainKeepsInv(s: State, step: MainStep)
    requires Inv(s) && MainEnabled(s, step)
    ensures Inv(MainApply(s, step))
  {
    MainKeepsTasks(s, step);
    MainKeepsMain(s, step);
    MainKeepsAnswers(s, step);
    MainKeepsNothingNew(s, step);
    MainKeepsFlush(s, step);
    MainKeepsArmed(s, step);
    MainIsBesideTimer(s, step);
    BesideKeepsRetry(s, MainApply(s, step));
  }

  lemma ArmedStayFree(s: State, t: State)
    requires ArmedWereFree(s) && MainMatchesEvents(s)
    requires t.closing == s.closing && t.armed == s.armed && t.closedAt == s.closedAt && s.events <= t.events
    ensures ArmedWereFree(t)
  {
    if s.closing { assert t.events[..s.closedAt] == s.events[..s.closedAt]; }
  }

  predicate Legal(s: State, steps: seq<Step>)
    decreases |steps|
  {
    steps == [] || (Enabled(s, steps[0]) && Legal(Apply(s, steps[0]), steps[1..]))
  }

  function Exec(s: State, steps: seq<Step>): State
    requires Legal(s, steps)
    decreases |steps|
  {
    if steps == [] then s else Exec(Apply(s, steps[0]), steps[1..])
  }

  lemma {:induction false} RunKeepsInv(s: State, steps: seq<Step>)
    requires Inv(s) && Legal(s, steps)
    ensures Inv(Exec(s, steps))
    decreases |steps|
  {
    if steps != [] {
      match steps[0] {
        case OfTimer(t) => TimerKeepsInv(s, t);
        case OfLoop(l, loop) => LoopKeepsInv(s, l, loop);
        case OfConn(c, conn) => ConnKeepsInv(s, c, conn);
        case OfMain(m) => MainKeepsInv(s, m);
      }
      RunKeepsInv(Apply(s, steps[0]), steps[1..]);
    }
  }

  /**
   Over every run: a record that was started has its answer attempted before its connection's task
   ends.
   */
  lemma EveryRecordIsAnswered(sockets: nat, loops: set<LoopId>, steps: seq<Step>, i: nat, c: ConnId)
    requires Legal(Start(sockets, loops), steps)
    requires var events := Exec(Start(sockets, loops), steps).events;
      i < |events| && events[i] == Started(c) && TaskEnded(c) in events
    ensures Matched(Exec(Start(sockets, loops), steps).events, i, c)
  {
    StartInv(sockets, loops);
    RunKeepsInv(Start(sockets, loops), steps);
  }

  /**
   Over every run: a connection starts at most one record after the signal, and only if it had been
   accepted before it and every record it had started by then was answered, so that it was already
   reading for that one.
   */
  lemma NoRecordBeyondTheCurrentOne(sockets: nat, loops: set<LoopId>, steps: seq<Step>, k: nat, i: nat, c: ConnId)
    requires Legal(Start(sockets, loops), steps)
    requires var events := Exec(Start(sockets, loops), steps).events;
      k < i < |events| && events[k] == Closed && events[i] == Started(c)
    ensures var events := Exec(Start(sockets, loops), steps).events;
      && Accepted(c) in events[..k]
      && (forall h :: 0 <= h < k && events[h] == Started(c) ==> Matched(events[..k], h, c))
      && (forall j :: k < j < |events| && events[j] == Started(c) ==> j == i)
  {
    StartInv(sockets, loops);
    RunKeepsInv(Start(sockets, loops), steps);
    var s := Exec(Start(sockets, loops), steps);
    assert s.closing && k == s.closedAt;
    forall j | k < j < |s.events| && s.events[j] == Started(c) ensures j == i {
      assert !(i < j) && !(j < i);
    }
  }

  /**
   Over every run: the final flush starts after the signal and after every accepted connection's task has
   ended, and a socket is removed only after that flush returned.
   */
  lemma ShutdownIsOrdered(sockets: nat, loops: set<LoopId>, steps: seq<Step>, i: nat)
    requires Legal(Start(sockets, loops), steps)
    requires i < |Exec(Start(sockets, loops), steps).events|
    ensures var s := Exec(Start(sockets, loops), steps);
      && (s.events[i] == FlushStarted ==>
            Closed in s.events[..i] && forall c :: Accepted(c) in s.events ==> TaskEnded(c) in s.events[..i])
      && (s.events[i].SocketRemoved? ==>
            exists j :: 0 <= j < i && s.events[j] == FlushEnded && FlushStarted in s.events[..j])
  {
    StartInv(sockets, loops);
    RunKeepsInv(Start(sockets, loops), steps);
    var s := Exec(Start(sockets, loops), steps);
    if s.events[i] == FlushStarted {
      assert Closed in s.events[..i];
      var k :| 0 <= k < i && s.events[..i][k] == Closed;
      assert s.events[k] == Closed;
    } else if s.events[i].SocketRemoved? {
      assert Follows(s.events, SocketRemoved(s.events[i].socket), FlushEnded);
      var j :| 0 <= j < i && s.events[..i][j] == FlushEnded;
      assert s.events[j] == FlushEnded;
    }
  }

  /**
   Over every run: retry drains never overlap; after the signal at most one more is started, and only in a
   poll of the timer the signal found in progress; and a drain the dropped timer leaves behind has no poster.
   So at most one drain, without a poster once its timer is dropped, is left beside the final flush.
   */
  lemma TimerLeavesOneDrainAtMost(sockets: nat, loops: set<LoopId>, steps: seq<Step>, k: nat)
    requires Legal(Start(sockets, loops), steps)
    requires k < |Exec(Start(sockets, loops), steps).events|
    requires Exec(Start(sockets, loops), steps).events[k] == Closed
    ensures var s := Exec(Start(sockets, loops), steps);
      && (forall i, j :: 0 <= i < j < |s.events| && s.events[i] == RetryStarted && s.events[j] == RetryStarted ==>
            RetryEnded in s.events[i..j])
      && (forall i, j :: k < i < j < |s.events| && s.events[i] == RetryStarted ==> s.events[j] != RetryStarted)
      && (forall i :: k < i < |s.events| && s.events[i] == RetryStarted ==> s.midPoll)
      && (s.timer.at == Dropped ==> s.timer.drain != Served)
  {
    StartInv(sockets, loops);
    RunKeepsInv(Start(sockets, loops), steps);
    var s := Exec(Start(sockets, loops), steps);
    assert s.closing && k == s.closedAt;
  }

  /** A retry drain is alive, or a poll of the timer is still to start one. */
  predicate HarboursDrain(timer: Timer) {
    timer.drain != NoDrain || (timer.polling && (timer.at == Sleeping || timer.at == Checking))
  }

  lemma StepBringsNoDrain(s: State, step: Step)
    requires s.closing && !HarboursDrain(s.timer) && Enabled(s, step)
    ensures Apply(s, step).closing && !HarboursDrain(Apply(s, step).timer)
  {
  }

  /** With none at the signal, there is none in any run from there. */
  lemma {:induction false} NoDrainComesBack(s: State, steps: seq<Step>)
    requires s.closing && !HarboursDrain(s.timer) && Legal(s, steps)
    ensures !HarboursDrain(Exec(s, steps).timer)
    decreases |steps|
  {
    if steps != [] {
      StepBringsNoDrain(s, steps[0]);
      NoDrainComesBack(Apply(s, steps[0]), steps[1..]);
    }
  }

  predicate Path(from: State, steps: seq<Step>, s: State) {
    Legal(from, steps) && Exec(from, steps) == s
  }

  lemma {:induction false} OneMore(from: State, steps: seq<Step>, s: State, step: Step)
    requires Path(from, steps, s) && Enabled(s, step)
    ensures Path(from, steps + [step], Apply(s, step))
    decreases |steps|
  {
    if steps == [] {
      assert [] + [step] == [step] && [step][1..] == [];
    } else {
      assert (steps + [step])[1..] == steps[1..] + [step];
      OneMore(Apply(from, steps[0]), steps[1..], s, step);
    }
  }

  /** What is left alone while tasks come to their ends. */
  ghost predicate OnlyTasks(s: State, t: State) {
    t.timer == s.timer && t.main == s.main && t.closing == s.closing && t.loops.Keys == s.loops.Keys
  }

  /** How far a connection is from its end after the signal, when its writes fail. */
  function ConnLeft(at: ConnAt): nat {
    match at
    case Ended => 0
    case Submitting => 3
    case Answering => 2
    case _ => 1
  }

  function TowardsEnd(at: ConnAt): ConnStep {
    match at
    case Waiting => ConnPoll
    case Submitting => SubmitReturns
    case Answering => Answer(false)
    case _ => HangUp
  }

  lemma NearerItsEnd(s: State, c: ConnId)
    requires s.closing && c in s.conns && s.conns[c].at != Ended
    ensures var step := TowardsEnd(s.conns[c].at);
      && ConnEnabled(s, c, step)
      && OnlyTasks(s, ConnApply(s, c, step)) && ConnApply(s, c, step).loops == s.loops
      && ConnApply(s, c, step).conns == s.conns[c := Conn(s.conns[c].loop, ConnApply(s, c, step).conns[c].at)]
      && ConnLeft(ConnApply(s, c, step).conns[c].at) < ConnLeft(s.conns[c].at)
  {
  }

  /** After the signal a connection can come to its end, and nobody else moves. */
  lemma {:induction false} ConnFinishes(from: State, steps: seq<Step>, s: State, c: ConnId)
      returns (more: seq<Step>, t: State)
    requires Path(from, steps, s) && s.closing && c in s.conns
    ensures Path(from, more, t) && OnlyTasks(s, t) && t.loops == s.loops
    ensures t.conns == s.conns[c := Conn(s.conns[c].loop, Ended)]
    decreases ConnLeft(s.conns[c].at)
  {
    if s.conns[c].at == Ended {
      more, t := steps, s;
    } else {
      var step := TowardsEnd(s.conns[c].at);
      NearerItsEnd(s, c);
      OneMore(from, steps, s, OfConn(c, step));
      more, t := ConnFinishes(from, steps + [OfConn(c, step)], Apply(s, OfConn(c, step)), c);
    }
  }

  lemma {:induction false} ConnsFinish(from: State, steps: seq<Step>, s: State, left: set<ConnId>)
      returns (more: seq<Step>, t: State)
    requires Path(from, steps, s) && s.closing && left <= s.conns.Keys
    requires forall c :: c in s.conns && c !in left ==> s.conns[c].at == Ended
    ensures Path(from, more, t) && OnlyTasks(s, t) && t.loops == s.loops
    ensures forall c :: c in t.conns ==> t.conns[c].at == Ended
    decreases |left|
  {
    if left == {} {
      more, t := steps, s;
    } else {
      var c :| c in left;
      more, t := ConnFinishes(from, steps, s, c);
      more, t := ConnsFinish(from, more, t, left - {c});
    }
  }

  /** An accept loop with nothing open comes to its end: it looks at the signal, and is done. */
  lemma LoopFinishes(from: State, steps: seq<Step>, s: State, l: LoopId) returns (more: seq<Step>, t: State)
    requires Path(from, steps, s) && s.closing && l in s.loops
    requires forall c :: c in s.conns ==> s.conns[c].at == Ended
    ensures Path(from, more, t) && OnlyTasks(s, t) && t.conns == s.conns && t.loops == s.loops[l := LoopEnded]
  {
    more, t := steps, s;
    if t.loops[l] == Polled { more, t := LoopGoes(from, more, t, l, AcceptNothing); }
    if t.loops[l] == Selecting { more, t := LoopGoes(from, more, t, l, LoopPoll); }
    if t.loops[l] == Leaving { more, t := LoopGoes(from, more, t, l, LoopStep.LoopEnds); }
  }

  lemma LoopGoes(from: State, steps: seq<Step>, s: State, l: LoopId, step: LoopStep) returns (more: seq<Step>, t: State)
    requires Path(from, steps, s) && s.closing && LoopEnabled(s, l, step) && !step.Accept?
    ensures Path(from, more, t) && OnlyTasks(s, t) && t.conns == s.conns
    ensures t.loops == s.loops[l := match step case AcceptNothing => Selecting case LoopPoll => Leaving case _ => LoopEnded]
  {
    OneMore(from, steps, s, OfLoop(l, step));
    more, t := steps + [OfLoop(l, step)], LoopApply(s, l, step);
  }

  lemma {:induction false} LoopsFinish(from: State, steps: seq<Step>, s: State, left: set<LoopId>)
      returns (more: seq<Step>, t: State)
    requires Path(from, steps, s) && s.closing && left <= s.loops.Keys
    requires forall c :: c in s.conns ==> s.conns[c].at == Ended
    requires forall l :: l in s.loops && l !in left ==> s.loops[l] == LoopEnded
    ensures Path(from, more, t) && OnlyTasks(s, t)
    ensures forall l :: l in t.loops ==> t.loops[l] == LoopEnded
    decreases |left|
  {
    if left == {} {
      more, t := steps, s;
    } else {
      var l :| l in left;
      more, t := LoopFinishes(from, steps, s, l);
      more, t := LoopsFinish(from, more, t, left - {l});
    }
  }

  /** Whatever is going on at the signal, every task can come to its end and the final flush start, timer untouched. */
  lemma FinalFlushComes(from: State, steps: seq<Step>, s: State) returns (more: seq<Step>, t: State)
    requires Path(from, steps, s) && s.closing && s.main.Joining?
    ensures Path(from, more, t) && t.main.Flushing? && t.timer == s.timer
  {
    more, t := ConnsFinish(from, steps, s, s.conns.Keys);
    more, t := LoopsFinish(from, more, t, t.loops.Keys);
    OneMore(from, more, t, OfMain(AllJoined));
    more, t := more + [OfMain(AllJoined)], Apply(t, OfMain(AllJoined));
  }

  lemma TimerGoes(from: State, steps: seq<Step>, s: State, step: TimerStep) returns (more: seq<Step>, t: State)
    requires Path(from, steps, s) && TimerEnabled(s, step)
    ensures Path(from, more, t) && t == TimerApply(s, step)
  {
    OneMore(from, steps, s, OfTimer(step));
    more, t := steps + [OfTimer(step)], TimerApply(s, step);
  }

  /** The poll the signal found goes on to its end, and the timer is dropped with its drain alive. */
  lemma TimerLeavesItsDrain(from: State, steps: seq<Step>, s: State) returns (more: seq<Step>, t: State)
    requires Path(from, steps, s) && s.closing && s.main.Joining?
    requires DrainHasItsTimer(s.timer) && HarboursDrain(s.timer)
    ensures Path(from, more, t) && t.closing && t.main.Joining? && t.timer == Timer(Dropped, false, Orphaned)
  {
    more, t := steps, s;
    if t.timer.at == Sleeping { more, t := TimerGoes(from, more, t, Slept); }
    if t.timer.at == Checking { more, t := TimerGoes(from, more, t, Depth(1)); }
    if t.timer.polling { more, t := TimerGoes(from, more, t, Yield); }
    if t.timer.at == Retrying { more, t := TimerGoes(from, more, t, Drop); }
  }

  /** After the signal, this run comes to the final flush with a drain of the dropped timer still there. */
  ghost predicate FlushesBesideADrain(s: State, after: seq<Step>) {
    && Enabled(s, OfMain(Signal)) && Legal(Apply(s, OfMain(Signal)), after)
    && Exec(Apply(s, OfMain(Signal)), after).main.Flushing?
    && Exec(Apply(s, OfMain(Signal)), after).timer.drain == Orphaned
  }

  /**
   In every state a server can be in, whatever its sockets, loops and connections: a signal there can leave a retry
   drain beside the final flush exactly when one is alive or a poll in progress is still to start one.
   */
  lemma OrphanExactlyWhen(sockets: nat, loops: set<LoopId>, before: seq<Step>, s: State)
    requires Path(Start(sockets, loops), before, s) && s.main.Serving?
    ensures (exists after :: FlushesBesideADrain(s, after)) <==> HarboursDrain(s.timer)
  {
    StartInv(sockets, loops);
    RunKeepsInv(Start(sockets, loops), before);
    var s1 := Apply(s, OfMain(Signal));
    if HarboursDrain(s.timer) {
      var steps, t := TimerLeavesItsDrain(s1, [], s1);
      steps, t := FinalFlushComes(s1, steps, t);
      assert FlushesBesideADrain(s, steps);
    } else {
      forall after ensures !FlushesBesideADrain(s, after) {
        if FlushesBesideADrain(s, after) { NoDrainComesBack(s1, after); }
      }
    }
  }

  /** And if not, no retry drain is there at any moment after the signal: nothing competes with the final flush. */
  lemma NothingCompetesOtherwise(s: State, after: seq<Step>)
    requires s.main.Serving? && Legal(Apply(s, OfMain(Signal)), after) && !HarboursDrain(s.timer)
    ensures Exec(Apply(s, OfMain(Signal)), after).timer.drain == NoDrain
  {
    NoDrainComesBack(Apply(s, OfMain(Signal)), after);
  }

  /** It happens, with any number of sockets and accept loops: a signal in the middle of a retry. */
  lemma OrphanBesideTheFinalFlush(sockets: nat, loops: set<LoopId>) returns (steps: seq<Step>, s: State)
    ensures Path(Start(sockets, loops), steps, s) && s.main.Flushing? && s.timer.drain == Orphaned
  {
    var from := Start(sockets, loops);
    steps, s := TimerGoes(from, [], from, Wake);
    steps, s := TimerGoes(from, steps, s, Slept);
    steps, s := TimerGoes(from, steps, s, Depth(1));
    OneMore(from, steps, s, OfMain(Signal));
    steps, s := steps + [OfMain(Signal)], Apply(s, OfMain(Signal));
    steps, s := TimerLeavesItsDrain(from, steps, s);
    steps, s := FinalFlushComes(from, steps, s);
  }
}
