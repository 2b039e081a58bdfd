/**
 `flush` in detail: a blocking thread drains the spool, an asynchronous poster posts, and a pair of
 one-slot channels carries entries one way and verdicts the other. Either side can vanish: the poster
 is dropped when the retry task is aborted, the drain when its thread fails.

 The pair is shown to refine the sequential drain: same entries in the same order, each verdict
 applied to the entry it was computed for, never two entries in flight, no stuck state and no endless
 run, and a lost verdict counts as `Spooled`.
 */
module Handshake {
  import opened Outcomes

  /** A spool entry, as the position of its file in the listing the drain took. */
  type Entry = nat

  /** The drain thread, inside the loop over the listing and the closure it calls for each entry. */
  datatype Drainer =
    | Reading                    // about to read the entry at `at`, or to finish
    | Offering                   // in `blocking_send`
    | Awaiting                   // in `blocking_recv`
    | Told(v: Outcome)           // the closure returned
    | Finished(result: Outcome)  // the drain returned `Ok(at)` or an error; its channel ends are dropped

  /** The asynchronous side. */
  datatype Poster =
    | Listening                        // in `entry_rx.recv`
    | Posting(entry: Entry)            // unframing and posting
    | Replying(a: Attempt)             // in `verdict_tx.send`
    | Left                             // out of the loop
    | Gone                             // dropped mid-flight

  datatype State = State(
    total: nat,                        // entries in the listing
    at: nat,                           // the entry the drain is on: how many it removed
    drain: Drainer,
    poster: Poster,
    entries: seq<Entry>,               // the entry channel
    verdicts: seq<Attempt>,            // the verdict channel
    posted: seq<(Entry, Attempt)>,     // history: what the poster ran into, in order
    told: seq<Outcome>                 // history: what the drain's closure returned, in order
  )

  datatype Step =
    | Read | ReadFails | NoMore
    | Send | SendClosed
    | Recv | RecvClosed
    | Remove | RemoveFails | Stop
    | TakeEntry | ChannelEnds
    | Post(a: Attempt, taken: bool)    // the attempt, and whether the service took the record in it
    | Reply | ReplyClosed
    | Abort                            // the poster's task is dropped
    | Panic                            // the drain's thread dies

  /** A channel end held by the poster is gone. */
  predicate Away(s: State) {
    s.poster.Left? || s.poster.Gone?
  }

  predicate Enabled(s: State, step: Step) {
    match step
    case Read => s.drain.Reading? && s.at < s.total
    case ReadFails => s.drain.Reading? && s.at < s.total
    case NoMore => s.drain.Reading? && s.at == s.total
    case Send => s.drain.Offering? && !Away(s) && |s.entries| < 1
    case SendClosed => s.drain.Offering? && Away(s)
    case Recv => s.drain.Awaiting? && |s.verdicts| > 0
    case RecvClosed => s.drain.Awaiting? && |s.verdicts| == 0 && Away(s)
    case Remove => s.drain.Told? && IsFinal(s.drain.v)
    case RemoveFails => s.drain.Told? && IsFinal(s.drain.v)
    case Stop => s.drain.Told? && !IsFinal(s.drain.v)
    case TakeEntry => s.poster.Listening? && |s.entries| > 0
    case ChannelEnds => s.poster.Listening? && |s.entries| == 0 && s.drain.Finished?
    case Post(_, _) => s.poster.Posting?
    case Reply => s.poster.Replying? && !s.drain.Finished? && |s.verdicts| < 1
    case ReplyClosed => s.poster.Replying? && s.drain.Finished?
    case Abort => !Away(s)
    case Panic => !s.drain.Finished?
  }

  function Apply(s: State, step: Step): State
    requires Enabled(s, step)
  {
    match step
    case Read => s.(drain := Offering)
    case ReadFails => s.(drain := Finished(Io))
    case NoMore => s.(drain := Finished(Ok))
    case Send => s.(drain := Awaiting, entries := s.entries + [s.at])
    case SendClosed => s.(drain := Told(Spooled), told := s.told + [Spooled])
    case Recv =>
      var v := VerdictOf(s.verdicts[0]);
      s.(drain := Told(v), verdicts := s.verdicts[1..], told := s.told + [v])
    case RecvClosed => s.(drain := Told(Spooled), told := s.told + [Spooled])
    case Remove => s.(drain := Reading, at := s.at + 1)
    case RemoveFails => s.(drain := Finished(Io))
    case Stop => s.(drain := Finished(if s.drain.v == Spooled then Ok else s.drain.v))
    case TakeEntry => s.(poster := Posting(s.entries[0]), entries := s.entries[1..])
    case ChannelEnds => s.(poster := Left)
    case Post(a, _) => s.(poster := Replying(a), posted := s.posted + [(s.poster.entry, a)])
    case Reply => s.(poster := Listening, verdicts := s.verdicts + [s.poster.a])
    case ReplyClosed => s.(poster := Left)
    case Abort => s.(poster := Gone, entries := [])
    case Panic => s.(drain := Finished(Io))
  }

  function Start(total: nat): State {
    State(total, 0, Reading, Listening, [], [], [], [])
  }

  predicate Done(s: State) {
    s.drain.Finished? && Away(s)
  }

  /** Where the one entry in flight is, if any. */
  function InFlight(s: State): nat {
    |s.entries| + |s.verdicts| + (if s.poster.Posting? || s.poster.Replying? then 1 else 0)
  }

  /** The verdict the current entry will be given is the last one posted, and it is about this entry. */
  predicate AboutCurrent(s: State, v: Outcome) {
    |s.posted| == s.at + 1 && VerdictOf(s.posted[s.at].1) == v
  }

  ghost predicate Inv(s: State) {
    && s.at <= s.total
    && InFlight(s) <= 1
    && (forall i :: 0 <= i < |s.posted| ==> s.posted[i].0 == i)
    && (forall i :: 0 <= i < s.at ==> i < |s.posted| && IsFinal(VerdictOf(s.posted[i].1)))
    && s.at <= |s.posted| <= s.at + 1
    && (s.drain.Reading? || s.drain.Offering? ==> |s.posted| == s.at && InFlight(s) == 0)
    && (s.drain.Told? ==> InFlight(s) == 0)
    && (s.drain.Told? && IsFinal(s.drain.v) ==> AboutCurrent(s, s.drain.v))
    && (s.drain.Told? && !IsFinal(s.drain.v) ==> s.drain.v == Spooled && (AboutCurrent(s, Spooled) || s.poster.Gone?))
    && (s.drain.Offering? || s.drain.Awaiting? || s.drain.Told? ==> s.at < s.total)
    && (s.drain.Awaiting? && InFlight(s) == 0 ==> s.poster.Gone?)
    && (|s.entries| == 1 ==> s.entries[0] == s.at && |s.posted| == s.at && s.poster.Listening?)
    && (s.poster.Posting? ==> s.poster.entry == s.at && |s.posted| == s.at)
    && (s.poster.Replying? ==> AboutCurrent(s, VerdictOf(s.poster.a)))
    && (|s.verdicts| == 1 ==> AboutCurrent(s, VerdictOf(s.verdicts[0])))
    && (s.poster.Left? ==> s.drain.Finished?)
    && (s.drain.Finished? && s.drain.result == Ok && s.at < s.total ==>
          AboutCurrent(s, Spooled) || s.poster.Gone?)
    && (s.drain.Finished? ==> s.drain.result == Ok || s.drain.result == Io)
  }

  lemma StepKeepsInv(s: State, step: Step)
    requires Inv(s) && Enabled(s, step)
    ensures Inv(Apply(s, step))
  {
  }

  predicate Legal(s: State, steps: seq<Step>)
    decreases |steps|
  {
    steps == [] || (Enabled(s, steps[0]) && Legal(Apply(s, steps[0]), steps[1..]))
  }

  function Exec(s: State, steps: seq<Step>): State
    requires Legal(s, steps)
    decreases |steps|
  {
    if steps == [] then s else Exec(Apply(s, steps[0]), steps[1..])
  }

  lemma {:induction false} RunKeepsInv(s: State, steps: seq<Step>)
    requires Inv(s) && Legal(s, steps)
    ensures Inv(Exec(s, steps)) && Exec(s, steps).total == s.total
    decreases |steps|
  {
    if steps != [] {
      StepKeepsInv(s, steps[0]);
      RunKeepsInv(Apply(s, steps[0]), steps[1..]);
    }
  }

  /** The sequential drain: how many of `total` entries go when the closure returns `told`, one by one. */
  function Drained(total: nat, told: seq<Outcome>): nat {
    if total == 0 || told == [] || !IsFinal(told[0]) then 0 else 1 + Drained(total - 1, told[1..])
  }

  /**
   What the closure returned keeps step with the removals; each of its results is the poster's own about
   that entry, or stands for one that was lost with the poster.
   */
  ghost predicate ToldInv(s: State) {
    && s.at <= |s.told| <= s.at + 1 && |s.told| <= s.total
    && (s.drain.Reading? || s.drain.Offering? || s.drain.Awaiting? ==> |s.told| == s.at)
    && (s.drain.Told? ==> |s.told| == s.at + 1 && s.told[s.at] == s.drain.v)
    && (forall i :: 0 <= i < |s.told| ==> IsHeard(s, i) || IsLost(s, i))
    && (forall i :: 0 <= i < s.at ==> IsFinal(s.told[i]))
    && (s.drain == Finished(Ok) ==> s.at == s.total || (|s.told| == s.at + 1 && s.told[s.at] == Spooled))
    && (|s.told| == s.at + 1 && IsFinal(s.told[s.at]) ==> s.drain.Told? || s.drain == Finished(Io))
  }

  predicate IsHeard(s: State, i: nat) {
    i < |s.told| && i < |s.posted| && s.posted[i].0 == i && VerdictOf(s.posted[i].1) == s.told[i]
  }

  predicate IsLost(s: State, i: nat) {
    i < |s.told| && s.told[i] == Spooled && s.poster.Gone?
  }

  lemma StepKeepsTold(s: State, step: Step)
    requires Inv(s) && ToldInv(s) && Enabled(s, step)
    ensures ToldInv(Apply(s, step))
  {
    var t := Apply(s, step);
    forall i: nat | i < |t.told| ensures IsHeard(t, i) || IsLost(t, i) {
      if i < |s.told| { assert IsHeard(s, i) || IsLost(s, i); }
    }
  }

  lemma {:induction false} RunKeepsTold(s: State, steps: seq<Step>)
    requires Inv(s) && ToldInv(s) && Legal(s, steps)
    ensures ToldInv(Exec(s, steps))
    decreases |steps|
  {
    if steps != [] {
      StepKeepsInv(s, steps[0]);
      StepKeepsTold(s, steps[0]);
      RunKeepsTold(Apply(s, steps[0]), steps[1..]);
    }
  }

  lemma {:induction false} DrainedCountsFinals(total: nat, told: seq<Outcome>, n: nat)
    requires n <= total && n <= |told| && (n < |told| && n < total ==> !IsFinal(told[n]))
    requires forall i :: 0 <= i < n ==> IsFinal(told[i])
    ensures Drained(total, told) == n
    decreases n
  {
    if n > 0 { DrainedCountsFinals(total - 1, told[1..], n - 1); }
  }

  /** A verdict has come that allows removing the current entry, and it has not been removed. */
  predicate OneBehind(s: State) {
    |s.told| == s.at + 1 && IsFinal(s.told[s.at])
  }

  /**
   Refinement, over every run in which either side may vanish at any moment: the entries removed are
   those the sequential drain removes on what its closure returned, oldest first, except that the last
   one may still be there, before its unlink or after a failed one; whatever the closure returned about
   an entry is the verdict the poster got for that very entry, or `Spooled` in place of one lost with
   the poster, so an entry goes only on its own final verdict; at most one entry is in flight; and a
   drain that returns without an error removed everything or stopped at a `Spooled`.
   */
  lemma FlushRefinesDrain(total: nat, steps: seq<Step>)
    requires Legal(Start(total), steps)
    ensures var s := Exec(Start(total), steps);
      && s.at + (if OneBehind(s) then 1 else 0) == Drained(total, s.told)
      && (OneBehind(s) ==> s.drain.Told? || s.drain == Finished(Io))
      && (forall i: nat :: i < |s.told| ==> IsHeard(s, i) || IsLost(s, i))
      && (forall i: nat :: i < s.at ==> IsHeard(s, i) && IsFinal(s.told[i]))
      && InFlight(s) <= 1
      && (s.drain == Finished(Ok) ==> s.at == total || (|s.told| == s.at + 1 && s.told[s.at] == Spooled))
  {
    RunKeepsInv(Start(total), steps);
    RunKeepsTold(Start(total), steps);
    var s := Exec(Start(total), steps);
    DrainedCountsFinals(total, s.told, if OneBehind(s) then s.at + 1 else s.at);
  }

  /** A step of the program itself, as opposed to one side vanishing. */
  predicate IsWork(step: Step) {
    !step.Abort? && !step.Panic?
  }

  /** No state short of the end is stuck, whoever has vanished before. */
  lemma NeverStuck(s: State) returns (step: Step)
    requires Inv(s) && !Done(s)
    ensures Enabled(s, step) && IsWork(step)
  {
    if s.poster.Posting? {
      step := Post(TimedOut, false);
    } else if s.poster.Replying? {
      step := if s.drain.Finished? then ReplyClosed else Reply;
    } else if s.poster.Listening? && |s.entries| > 0 {
      step := TakeEntry;
    } else {
      step := match s.drain
        case Finished(_) => ChannelEnds
        case Reading => if s.at < s.total then Read else NoMore
        case Offering => if Away(s) then SendClosed else Send
        case Awaiting => if |s.verdicts| > 0 then Recv else RecvClosed
        case Told(v) => if IsFinal(v) then Remove else Stop;
    }
  }

  /** What is left to do, counted so that every step takes some of it away. */
  function Rank(s: State): nat
    requires s.at <= s.total
  {
    20 * (s.total - s.at) + 6 * |s.entries| + 2 * |s.verdicts|
    + (match s.drain case Reading => 20 case Offering => 19 case Awaiting => 10 case Told(_) => 9 case Finished(_) => 0)
    + (match s.poster case Listening => 1 case Posting(_) => 5 case Replying(_) => 4 case Left => 0 case Gone => 0)
  }

  lemma StepLowersRank(s: State, step: Step)
    requires Inv(s) && Enabled(s, step)
    ensures Inv(Apply(s, step)) && Rank(Apply(s, step)) < Rank(s)
  {
    StepKeepsInv(s, step);
  }

  /** Every flush ends: no run is longer than its first rank. */
  lemma {:induction false} FlushEnds(s: State, steps: seq<Step>)
    requires Inv(s) && Legal(s, steps)
    ensures |steps| <= Rank(s)
    decreases |steps|
  {
    if steps != [] {
      StepLowersRank(s, steps[0]);
      FlushEnds(Apply(s, steps[0]), steps[1..]);
    }
  }
}
