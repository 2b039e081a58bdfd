/**
 The two threads of a flush, step for step, as drain steps of the protocol: whatever they do, with anything
 else going on beside them, is a run of the protocol, so what holds over its runs holds with flushes that
 are aborted half way.
 */
module FlushSteps {
  import opened Outcomes
  import opened Protocol
  import opened Conservation
  import opened Runs
  import opened Recovery
  import opened SpoolDir
  import opened Utf8
  import H = Handshake

  /** What the drain's listing found, oldest first. */
  type Listing = seq<(nat, File)>

  /** The listing is in order, and about records that were sent. */
  ghost predicate IsListing(p: State, l: Listing) {
    && (forall i, j :: 0 <= i < j < |l| ==> l[i].0 < l[j].0)
    && (forall i :: 0 <= i < |l| ==> l[i].1.rec < |p.submitted| && p.submitted[l[i].1.rec] < |p.callers|)
  }

  /** The directory shows what the drain has not removed yet. */
  ghost predicate Remaining(vol: Directory, l: Listing, at: nat) {
    && (forall i :: at <= i < |l| ==> l[i].0 in vol && vol[l[i].0] == l[i].1)
    && (forall k :: k in vol ==> exists i :: at <= i < |l| && l[i].0 == k)
  }

  /** An entry that was handed over may have left, if it is whole and can be replayed. */
  predicate HandedOver(p: State, f: File) {
    f.whole && CanReplay(p.config, AgentOf(p, f.rec)) ==> f.rec in p.posted
  }

  /** An attempt the protocol allows at this entry now. */
  predicate Backed(p: State, f: File, a: Attempt) {
    EntryRunsInto(p.config, AgentOf(p, f.rec), f, a) && (VerdictOf(a) == Ok ==> f.whole && f.rec in p.log)
  }

  /** Where the drain thread is, as the holder of the protocol's lock. */
  function LockFor(d: H.Drainer, who: Flusher, key: nat): Lock {
    match d
    case Reading => Looking(who)
    case Told(v) => if IsFinal(v) then Decided(who, key) else Sending(who, key)
    case _ => Sending(who, key)
  }

  ghost predicate Running(h: H.State, p: State, who: Flusher, l: Listing) {
    && Remaining(p.disk.vol, l, h.at)
    && (h.drain.Reading? ==> p.lock == Looking(who))
    && (!h.drain.Reading? ==> h.at < |l| && p.lock == LockFor(h.drain, who, l[h.at].0) && HandedOver(p, l[h.at].1))
    && (h.poster.Replying? && h.at < |l| ==> Backed(p, l[h.at].1, h.poster.a))
    && (|h.verdicts| > 0 && h.at < |l| ==> Backed(p, l[h.at].1, h.verdicts[0]))
  }

  /** The flush at `h` is this much of the protocol's state. */
  ghost predicate Simulated(h: H.State, p: State, who: Flusher, l: Listing) {
    && H.Inv(h) && |l| == h.total && IsListing(p, l)
    && (!h.drain.Finished? ==> Running(h, p, who, l))
    && (h.poster.Posting? ==> h.poster.entry < |l| && HandedOver(p, l[h.poster.entry].1))
    && (|h.entries| > 0 ==> h.entries[0] < |l| && HandedOver(p, l[h.entries[0]].1))
  }

  /** The poster runs into what the protocol says it can. */
  ghost predicate Faithful(h: H.State, step: H.Step, p: State, l: Listing) {
    step.Post? && h.poster.Posting? && h.poster.entry < |l| ==>
      var f := l[h.poster.entry].1;
      && EntryRunsInto(p.config, AgentOf(p, f.rec), f, step.a)
      && (step.taken ==> f.whole && CanReplay(p.config, AgentOf(p, f.rec)))
      && (VerdictOf(step.a) == Ok ==> f.whole && (step.taken || f.rec in p.log))
  }

  /** What one step of the two threads is in the protocol. */
  function AsProtocol(h: H.State, step: H.Step, l: Listing): seq<Step> {
    match step
    case Read => if h.at < |l| then [Drain(Hand(l[h.at].0))] else []
    case ReadFails => [Drain(DrainFails)]
    case NoMore => [Drain(EndDrain)]
    case Recv =>
      if |h.verdicts| > 0 && IsFinal(VerdictOf(h.verdicts[0])) then [Drain(Verdict(h.verdicts[0]))] else []
    case Remove => [Drain(Unlink), Drain(SyncRemoval)]
    case RemoveFails => [Drain(DrainFails)]
    case Stop => [Drain(VerdictLost)]
    case Panic => [Drain(DrainFails)]
    case Post(_, taken) =>
      if !taken then []
      else if !h.drain.Finished? then [Drain(Take)]
      else if h.poster.Posting? && h.poster.entry < |l| then [Stray(l[h.poster.entry].1.rec)]
      else []
    case _ => []
  }

  /** Everything a finished flush still needs survives, as long as the configuration does. */
  lemma SettingKept(p: State, q: State, l: Listing, f: File)
    requires IsListing(p, l) && q.config == p.config && p.submitted <= q.submitted && p.callers <= q.callers
    requires p.posted <= q.posted
    ensures IsListing(q, l)
    ensures f.rec < |p.submitted| && p.submitted[f.rec] < |p.callers| ==>
              AgentOf(q, f.rec) == AgentOf(p, f.rec) && (HandedOver(p, f) ==> HandedOver(q, f))
  {
  }

  lemma ListingKept(h: H.State, p: State, q: State, l: Listing, i: nat)
    requires IsListing(p, l) && i < |l| && q.config == p.config && p.submitted <= q.submitted && p.callers <= q.callers
    requires p.posted <= q.posted && p.log <= q.log
    ensures IsListing(q, l)
    ensures HandedOver(p, l[i].1) ==> HandedOver(q, l[i].1)
    ensures forall a :: Backed(p, l[i].1, a) ==> Backed(q, l[i].1, a)
  {
    SettingKept(p, q, l, l[i].1);
  }

  lemma FirstIsOldest(vol: Directory, l: Listing, at: nat)
    requires Remaining(vol, l, at) && at < |l| && forall i, j :: 0 <= i < j < |l| ==> l[i].0 < l[j].0
    ensures IsMin(vol, l[at].0)
  {
    forall k | k in vol ensures l[at].0 <= k {
      var i :| at <= i < |l| && l[i].0 == k;
      if i > at { assert l[at].0 < l[i].0; }
    }
  }

  lemma NothingRemains(vol: Directory, l: Listing)
    requires Remaining(vol, l, |l|)
    ensures vol == map[]
  {
    assert vol.Keys == {};
  }

  lemma OneRemoved(vol: Directory, l: Listing, at: nat)
    requires Remaining(vol, l, at) && at < |l| && forall i, j :: 0 <= i < j < |l| ==> l[i].0 < l[j].0
    ensures Remaining(vol - {l[at].0}, l, at + 1)
  {
    forall k | k in vol - {l[at].0} ensures exists i :: at + 1 <= i < |l| && l[i].0 == k {
      var i :| at <= i < |l| && l[i].0 == k;
      assert at + 1 <= i;
    }
  }

  lemma ReadIsHand(h: H.State, p: State, who: Flusher, l: Listing)
    requires Simulated(h, p, who, l) && H.Enabled(h, H.Read)
    ensures Enabled(p, Drain(Hand(l[h.at].0)))
    ensures Simulated(H.Apply(h, H.Read), Apply(p, Drain(Hand(l[h.at].0))), who, l)
  {
    FirstIsOldest(p.disk.vol, l, h.at);
    H.StepKeepsInv(h, H.Read);
    var q := Apply(p, Drain(Hand(l[h.at].0)));
    SettingKept(p, q, l, l[h.at].1);
  }

  lemma FailureIsRelease(h: H.State, step: H.Step, p: State, who: Flusher, l: Listing)
    requires Simulated(h, p, who, l) && H.Enabled(h, step) && (step.ReadFails? || step.RemoveFails? || step.Panic?)
    ensures Enabled(p, Drain(DrainFails)) && Simulated(H.Apply(h, step), Apply(p, Drain(DrainFails)), who, l)
  {
    H.StepKeepsInv(h, step);
    var q := Apply(p, Drain(DrainFails));
    if h.poster.Posting? { SettingKept(p, q, l, l[h.poster.entry].1); }
    if |h.entries| > 0 { SettingKept(p, q, l, l[h.entries[0]].1); }
  }

  lemma EndIsRelease(h: H.State, step: H.Step, p: State, who: Flusher, l: Listing)
    requires Simulated(h, p, who, l) && H.Enabled(h, step) && (step.NoMore? || step.Stop?)
    ensures var d := Drain(if step.NoMore? then EndDrain else VerdictLost);
      Enabled(p, d) && Simulated(H.Apply(h, step), Apply(p, d), who, l)
  {
    H.StepKeepsInv(h, step);
    if step.NoMore? { NothingRemains(p.disk.vol, l); }
    var q := Apply(p, Drain(if step.NoMore? then EndDrain else VerdictLost));
  }

  lemma RecvIsVerdict(h: H.State, p: State, who: Flusher, l: Listing)
    requires Simulated(h, p, who, l) && H.Enabled(h, H.Recv) && IsFinal(VerdictOf(h.verdicts[0]))
    ensures Enabled(p, Drain(Verdict(h.verdicts[0])))
    ensures Simulated(H.Apply(h, H.Recv), Apply(p, Drain(Verdict(h.verdicts[0]))), who, l)
  {
    H.StepKeepsInv(h, H.Recv);
    var q := Apply(p, Drain(Verdict(h.verdicts[0])));
    SettingKept(p, q, l, l[h.at].1);
    assert l[h.at].0 in p.disk.vol;
  }

  lemma RemoveIsUnlinkAndSync(h: H.State, p: State, who: Flusher, l: Listing)
    requires Simulated(h, p, who, l) && H.Enabled(h, H.Remove)
    ensures Enabled(p, Drain(Unlink)) && Enabled(Apply(p, Drain(Unlink)), Drain(SyncRemoval))
    ensures Simulated(H.Apply(h, H.Remove), Apply(Apply(p, Drain(Unlink)), Drain(SyncRemoval)), who, l)
  {
    H.StepKeepsInv(h, H.Remove);
    OneRemoved(p.disk.vol, l, h.at);
    var q := Apply(Apply(p, Drain(Unlink)), Drain(SyncRemoval));
  }

  lemma PostIsTake(h: H.State, a: Attempt, taken: bool, p: State, who: Flusher, l: Listing)
    requires Simulated(h, p, who, l) && H.Enabled(h, H.Post(a, taken)) && Faithful(h, H.Post(a, taken), p, l)
    requires !h.drain.Finished?
    ensures taken ==> Enabled(p, Drain(Take))
    ensures Simulated(H.Apply(h, H.Post(a, taken)), if taken then Apply(p, Drain(Take)) else p, who, l)
  {
    H.StepKeepsInv(h, H.Post(a, taken));
    assert h.drain.Awaiting? && h.poster.entry == h.at;
    if taken {
      var q := Apply(p, Drain(Take));
      SettingKept(p, q, l, l[h.at].1);
    }
  }

  lemma LatePostIsStray(h: H.State, a: Attempt, p: State, who: Flusher, l: Listing)
    requires Simulated(h, p, who, l) && H.Enabled(h, H.Post(a, true)) && Faithful(h, H.Post(a, true), p, l)
    requires h.drain.Finished?
    ensures Enabled(p, Stray(l[h.poster.entry].1.rec))
    ensures Simulated(H.Apply(h, H.Post(a, true)), Apply(p, Stray(l[h.poster.entry].1.rec)), who, l)
  {
    H.StepKeepsInv(h, H.Post(a, true));
  }

  lemma SilentStep(h: H.State, step: H.Step, p: State, who: Flusher, l: Listing)
    requires Simulated(h, p, who, l) && H.Enabled(h, step) && Faithful(h, step, p, l) && AsProtocol(h, step, l) == []
    ensures Simulated(H.Apply(h, step), p, who, l)
  {
    H.StepKeepsInv(h, step);
  }

  lemma SingleStep(h: H.State, step: H.Step, p: State, who: Flusher, l: Listing)
    requires Simulated(h, p, who, l) && H.Enabled(h, step) && Faithful(h, step, p, l)
    requires AsProtocol(h, step, l) != [] && !step.Remove?
    ensures |AsProtocol(h, step, l)| == 1 && Enabled(p, AsProtocol(h, step, l)[0])
    ensures Simulated(H.Apply(h, step), Apply(p, AsProtocol(h, step, l)[0]), who, l)
  {
    match step
    case Read => ReadIsHand(h, p, who, l);
    case NoMore => EndIsRelease(h, step, p, who, l);
    case Stop => EndIsRelease(h, step, p, who, l);
    case Recv => RecvIsVerdict(h, p, who, l);
    case Post(a, taken) =>
      if h.drain.Finished? { LatePostIsStray(h, a, p, who, l); } else { PostIsTake(h, a, taken, p, who, l); }
    case _ => FailureIsRelease(h, step, p, who, l);
  }

  lemma RemoveIsTwoSteps(h: H.State, from: State, steps: seq<Step>, p: State, who: Flusher, l: Listing)
      returns (more: seq<Step>, q: State)
    requires Simulated(h, p, who, l) && H.Enabled(h, H.Remove) && Path(from, steps, p)
    ensures Path(from, more, q) && more == steps + [Drain(Unlink), Drain(SyncRemoval)]
    ensures Simulated(H.Apply(h, H.Remove), q, who, l)
  {
    RemoveIsUnlinkAndSync(h, p, who, l);
    var t := Apply(p, Drain(Unlink));
    more := Go(from, steps, p, Drain(Unlink));
    more := Go(from, more, t, Drain(SyncRemoval));
    q := Apply(t, Drain(SyncRemoval));
  }

  lemma SingleIsOneStep(h: H.State, step: H.Step, from: State, steps: seq<Step>, p: State, who: Flusher, l: Listing)
      returns (more: seq<Step>, q: State)
    requires Simulated(h, p, who, l) && H.Enabled(h, step) && Faithful(h, step, p, l) && Path(from, steps, p)
    requires AsProtocol(h, step, l) != [] && !step.Remove?
    ensures Path(from, more, q) && more == steps + AsProtocol(h, step, l)
    ensures Simulated(H.Apply(h, step), q, who, l)
  {
    SingleStep(h, step, p, who, l);
    var made := AsProtocol(h, step, l);
    more := Go(from, steps, p, made[0]);
    assert made == [made[0]];
    q := Apply(p, made[0]);
  }

  /** Forward simulation: each step of the two threads is none, one or two steps of the protocol. */
  lemma StepIsDrainSteps(h: H.State, step: H.Step, from: State, steps: seq<Step>, p: State, who: Flusher, l: Listing)
      returns (more: seq<Step>, q: State)
    requires Simulated(h, p, who, l) && H.Enabled(h, step) && Faithful(h, step, p, l)
    requires Path(from, steps, p)
    ensures Path(from, more, q) && more == steps + AsProtocol(h, step, l)
    ensures Simulated(H.Apply(h, step), q, who, l)
  {
    if AsProtocol(h, step, l) == [] {
      more, q := steps, p;
      SilentStep(h, step, p, who, l);
    } else if step.Remove? {
      more, q := RemoveIsTwoSteps(h, from, steps, p, who, l);
    } else {
      more, q := SingleIsOneStep(h, step, from, steps, p, who, l);
    }
  }

  /**
   A step of anybody else: not a crash, which ends the flush, and no drain's as long as this one has the lock.
   Once it has given the lock back, its poster may still be posting, and other drains come and go.
   */
  predicate IsBeside(h: H.State, step: Step) {
    !step.Crash? && (step.Drain? ==> h.drain.Finished?)
  }

  /** What else goes on only adds to what a flush depends on; while the drain has the lock it leaves the directory alone. */
  ghost predicate LeavesFlush(p: State, q: State, locked: bool) {
    && q.config == p.config && p.submitted <= q.submitted && p.callers <= q.callers
    && p.posted <= q.posted && p.log <= q.log
    && (locked && Draining(p.lock) ==> q.lock == p.lock && q.disk == p.disk)
  }

  lemma LineBeside(p: State, step: LineStep)
    requires LineEnabled(p, step)
    ensures LeavesFlush(p, LineApply(p, step), true)
  {
    LineLeavesSpool(p, step);
    LineGrows(p, step);
  }

  lemma PushBeside(p: State, step: PushStep)
    requires PushEnabled(p, step)
    ensures LeavesFlush(p, PushApply(p, step), true)
  {
  }

  lemma DrainBeside(p: State, step: DrainStep)
    requires DrainEnabled(p, step)
    ensures LeavesFlush(p, DrainApply(p, step), false)
  {
    DrainLeaves(p, step);
    DrainGrows(p, step);
  }

  lemma BesideLeaves(h: H.State, p: State, step: Step)
    requires Enabled(p, step) && IsBeside(h, step)
    ensures LeavesFlush(p, Apply(p, step), !h.drain.Finished?)
  {
    match step
    case Line(l) => LineBeside(p, l);
    case Push(x) => PushBeside(p, x);
    case Drain(d) => DrainBeside(p, d);
    case Stray(_) =>
  }

  lemma BesideKeepsFlush(h: H.State, p: State, step: Step, who: Flusher, l: Listing)
    requires Simulated(h, p, who, l) && Enabled(p, step) && IsBeside(h, step)
    ensures Simulated(h, Apply(p, step), who, l)
  {
    var q := Apply(p, step);
    BesideLeaves(h, p, step);
    forall i: nat | i < |l|
      ensures HandedOver(p, l[i].1) ==> HandedOver(q, l[i].1)
      ensures forall a :: Backed(p, l[i].1, a) ==> Backed(q, l[i].1, a)
    {
      ListingKept(h, p, q, l, i);
    }
    if |l| == 0 { SettingKept(p, q, l, File(0, false)); } else { SettingKept(p, q, l, l[0].1); }
  }

  /** One step of a flush and everything beside it. */
  datatype Joint = Flush(step: H.Step) | Beside(other: Step)

  ghost predicate JointEnabled(h: H.State, p: State, l: Listing, j: Joint) {
    match j
    case Flush(step) => H.Enabled(h, step) && Faithful(h, step, p, l)
    case Beside(other) => IsBeside(h, other) && Enabled(p, other)
  }

  /** The protocol's steps for one of these. */
  function Made(h: H.State, l: Listing, j: Joint): seq<Step> {
    match j
    case Flush(step) => AsProtocol(h, step, l)
    case Beside(other) => [other]
  }

  function Next(h: H.State, j: Joint): H.State {
    if j.Flush? && H.Enabled(h, j.step) then H.Apply(h, j.step) else h
  }

  /** Where the two threads are after such a run. */
  function FlushAfter(h: H.State, js: seq<Joint>): H.State
    decreases |js|
  {
    if js == [] then h else FlushAfter(Next(h, js[0]), js[1..])
  }

  /** A run of the flush and of everything beside it, on the protocol's own state. */
  ghost predicate JointRun(h: H.State, p: State, l: Listing, js: seq<Joint>)
    decreases |js|
  {
    js == [] ||
    (&& JointEnabled(h, p, l, js[0])
     && (Legal(p, Made(h, l, js[0])) ==> JointRun(Next(h, js[0]), Exec(p, Made(h, l, js[0])), l, js[1..])))
  }

  lemma JointStepIsProtocolSteps(h: H.State, p: State, who: Flusher, l: Listing, j: Joint)
    requires Simulated(h, p, who, l) && JointEnabled(h, p, l, j)
    ensures Legal(p, Made(h, l, j)) && Simulated(Next(h, j), Exec(p, Made(h, l, j)), who, l)
  {
    assert Path(p, [], p);
    match j {
      case Flush(step) =>
        var more, q := StepIsDrainSteps(h, step, p, [], p, who, l);
        assert more == AsProtocol(h, step, l);
      case Beside(other) =>
        BesideKeepsFlush(h, p, other, who, l);
        var more := Go(p, [], p, other);
        assert more == [other];
    }
  }

  /**
   Any run of the two threads of a flush, with anything going on beside it and either thread vanishing at any
   moment, is a run of the protocol.
   */
  lemma {:induction false} FlushIsAProtocolRun(h: H.State, p: State, who: Flusher, l: Listing, js: seq<Joint>)
      returns (steps: seq<Step>)
    requires Simulated(h, p, who, l) && JointRun(h, p, l, js)
    ensures Legal(p, steps) && Simulated(FlushAfter(h, js), Exec(p, steps), who, l)
    decreases |js|
  {
    if js == [] {
      steps := [];
    } else {
      JointStepIsProtocolSteps(h, p, who, l, js[0]);
      var made := Made(h, l, js[0]);
      var rest := FlushIsAProtocolRun(Next(h, js[0]), Exec(p, made), who, l, js[1..]);
      steps := made + rest;
      RunsJoin(p, made, Exec(p, made), rest, Exec(Exec(p, made), rest));
    }
  }

  lemma {:induction false} RunsJoin(s: State, a: seq<Step>, m: State, b: seq<Step>, t: State)
    requires Path(s, a, m) && Path(m, b, t)
    ensures Path(s, a + b, t)
    decreases |b|
  {
    if b == [] {
      assert a + b == a;
    } else {
      OneMore(s, a, m, b[0]);
      RunsJoin(s, a + [b[0]], Apply(m, b[0]), b[1..], t);
      assert a + b == a + [b[0]] + b[1..];
    }
  }

  /** Every flush starts out simulated: the lock taken, and the spool listed oldest first. */
  lemma FlushStarts(p: State, who: Flusher) returns (l: Listing)
    requires p.lock == Looking(who) && HistoryOk(p) && ConnsOk(p)
    ensures Simulated(H.Start(|l|), p, who, l)
  {
    l := Listed(p.disk.vol);
    assert forall i :: 0 <= i < |l| ==> l[i].0 in p.disk.vol && p.disk.vol[l[i].0] == l[i].1;
  }

  lemma ListedWithLast(vol: Directory, k: nat, below: Listing)
    requires k in vol && (forall n :: n in vol ==> n <= k)
    requires Remaining(vol - {k}, below, 0) && forall i, j :: 0 <= i < j < |below| ==> below[i].0 < below[j].0
    ensures var l := below + [(k, vol[k])];
      Remaining(vol, l, 0) && forall i, j :: 0 <= i < j < |l| ==> l[i].0 < l[j].0
  {
    var l := below + [(k, vol[k])];
    forall i | 0 <= i < |below| ensures l[i].0 in vol && vol[l[i].0] == l[i].1 && l[i].0 < k {
      assert below[i].0 in vol - {k};
    }
    forall n | n in vol ensures exists i :: 0 <= i < |l| && l[i].0 == n {
      if n == k {
        assert l[|below|].0 == k;
      } else {
        assert n in vol - {k};
        var i :| 0 <= i < |below| && below[i].0 == n;
        assert l[i].0 == n;
      }
    }
  }

  lemma {:induction false} Listed(vol: Directory) returns (l: Listing)
    ensures Remaining(vol, l, 0) && forall i, j :: 0 <= i < j < |l| ==> l[i].0 < l[j].0
    decreases |vol|
  {
    if vol == map[] {
      l := [];
    } else {
      var top := Highest(vol);
      assert vol.Keys != {};
      var k: nat := top - 1;
      assert (vol - {k}).Keys == vol.Keys - {k};
      l := Listed(vol - {k});
      ListedWithLast(vol, k, l);
      l := l + [(k, vol[k])];
    }
  }

  /** So what was answered before a flush stands at its every moment, whoever vanishes. */
  lemma FlushKeepsPromises(h: H.State, p: State, who: Flusher, l: Listing, js: seq<Joint>, r: Record)
      returns (steps: seq<Step>)
    requires Inv(p) && Simulated(h, p, who, l) && JointRun(h, p, l, js) && r in p.answered
    ensures Legal(p, steps) && Simulated(FlushAfter(h, js), Exec(p, steps), who, l)
    ensures r in Exec(p, steps).answered && Promise(Exec(p, steps), r, p.answered[r])
  {
    steps := FlushIsAProtocolRun(h, p, who, l, js);
    RunKeepsInv(p, steps);
    AnswersStand(p, steps, r);
  }

  /** The spool's own drain, ending without an error, removes what the sequential count of its verdicts says. */
  lemma SpoolDrainCounts(send: (nat, seq<Byte>) -> Outcome, readable: nat -> bool, removable: nat -> bool,
                         before: Files, order: seq<nat>, sent: seq<seq<Byte>>, removed: nat)
    requires SentOldest(before, order, sent) && AllFinal(send, sent, removed)
    requires EndedFor(send, readable, removable, order, sent, removed, Ok)
    ensures removed == H.Drained(|order|, seq(|sent|, i requires 0 <= i < |sent| => send(i, sent[i])))
  {
    H.DrainedCountsFinals(|order|, seq(|sent|, i requires 0 <= i < |sent| => send(i, sent[i])), removed);
  }
}
