/**
 With one submitting connection at a time, beside the timer, timeouts, aborted flushes and crashes,
 the service's acceptance log is the submission order with only adjacent repeats.
 */
module SoloOrder {
  import opened Outcomes
  import opened Protocol
  import opened Conservation
  import opened Ordering

  /** A step that keeps to one submitter: a record is sent only while no other is in hand. */
  predicate KeepsToOne(s: State, step: Step) {
    step.Line? && step.l.Submit? ==> forall c :: c in s.conns ==> s.conns[c].Idle?
  }

  ghost predicate Solo(s: State, steps: seq<Step>)
    requires Legal(s, steps)
    decreases |steps|
  {
    steps == [] || (KeepsToOne(s, steps[0]) && Solo(Apply(s, steps[0]), steps[1..]))
  }

  /** Only the newest record can be in a connection's hand. */
  ghost predicate OnlyNewest(s: State) {
    forall c :: c in s.conns && !s.conns[c].Idle? ==> s.conns[c].rec + 1 == |s.submitted|
  }

  ghost predicate Ascending(d: Disk) {
    forall j, k, f, g :: Has(d, j, f) && Has(d, k, g) && j < k ==> f.rec < g.rec
  }

  ghost predicate PostsOverNothing(s: State) {
    forall c, k, f :: At(s, c, Posting(RecordOf(s, c))) ==> !Has(s.disk, k, f)
  }

  ghost predicate Sorted(log: seq<Record>) {
    forall i, j :: 0 <= i <= j < |log| ==> log[i] <= log[j]
  }

  ghost predicate LogBeforeSpool(d: Disk, log: seq<Record>) {
    forall k, r: Record, i :: Has(d, k, File(r, true)) && 0 <= i < |log| ==> log[i] <= r
  }

  ghost predicate SoloInv(s: State) {
    OnlyNewest(s) && Ascending(s.disk) && PostsOverNothing(s) && Sorted(s.log) && LogBeforeSpool(s.disk, s.log)
  }

  lemma LineKeepsNewest(s: State, step: LineStep)
    requires OnlyNewest(s) && KeepsToOne(s, Line(step)) && LineEnabled(s, step)
    ensures OnlyNewest(LineApply(s, step))
  {
  }

  lemma DrainKeepsNewest(s: State, step: DrainStep)
    requires OnlyNewest(s) && HolderOk(s) && DrainEnabled(s, step)
    ensures OnlyNewest(DrainApply(s, step))
  {
  }

  lemma PushKeepsNewest(s: State, step: PushStep)
    requires OnlyNewest(s) && HolderOk(s) && PushEnabled(s, step)
    ensures OnlyNewest(PushApply(s, step))
  {
  }

  lemma LineKeepsLog(s: State, step: LineStep)
    requires OnlyNewest(s) && PostsOverNothing(s) && Sorted(s.log) && LogBeforeSpool(s.disk, s.log)
    requires HistoryOk(s) && LineEnabled(s, step)
    ensures var t := LineApply(s, step); Sorted(t.log) && LogBeforeSpool(s.disk, t.log)
  {
    if step.TakeDirect? {
      assert forall i :: 0 <= i < |s.log| ==> s.log[i] in s.log;
      assert At(s, step.c, Posting(RecordOf(s, step.c)));
    }
  }

  lemma LineKeepsSolo(s: State, step: LineStep)
    requires SoloInv(s) && KeepsToOne(s, Line(step)) && LineEnabled(s, step)
    requires ConnsOk(s) && HistoryOk(s) && ViewsAgree(s.disk, s.lock)
    ensures SoloInv(LineApply(s, step))
  {
    var t := LineApply(s, step);
    LineLeavesSpool(s, step);
    LineKeepsNewest(s, step);
    assert PostsOverNothing(t) by {
      forall c | At(t, c, Posting(RecordOf(t, c))) && !At(s, c, Posting(RecordOf(s, c)))
        ensures forall k, f :: !Has(s.disk, k, f)
      {
        assert step.SecondDepth? && s.disk.vol == map[];
      }
    }
    LineKeepsLog(s, step);
  }

  lemma FewerFilesKeepSolo(s: State, t: State)
    requires SoloInv(s) && OnlyNewest(t) && t.log == s.log
    requires forall k, f :: Has(t.disk, k, f) ==> Has(s.disk, k, f)
    requires forall c :: At(t, c, Posting(RecordOf(t, c))) ==> At(s, c, Posting(RecordOf(s, c)))
    ensures SoloInv(t)
  {
  }

  lemma DrainKeepsSolo(s: State, step: DrainStep)
    requires SoloInv(s) && HolderOk(s) && DrainEnabled(s, step) && !step.Take?
    ensures SoloInv(DrainApply(s, step))
  {
    var t := DrainApply(s, step);
    DrainKeepsNewest(s, step);
    DrainKeepsLog(s, step);
    forall k, f | Has(t.disk, k, f) ensures Has(s.disk, k, f) { DrainOnlyRemoves(s, step, k, f); }
    forall c | At(t, c, Posting(RecordOf(t, c))) ensures At(s, c, Posting(RecordOf(s, c))) {
      DrainStartsNoPost(s, step, c);
    }
    FewerFilesKeepSolo(s, t);
  }

  lemma TakeKeepsSolo(s: State)
    requires SoloInv(s) && DrainEnabled(s, Take) && WorkOk(s) && ViewsAgree(s.disk, s.lock)
    ensures SoloInv(DrainApply(s, Take))
  {
    var t := DrainApply(s, Take);
    var at := s.lock.at;
    assert Has(s.disk, at, File(s.disk.vol[at].rec, true));
    assert forall c :: At(t, c, Posting(RecordOf(t, c))) ==> At(s, c, Posting(RecordOf(s, c)));
    forall k, r: Record, i | Has(t.disk, k, File(r, true)) && 0 <= i < |t.log| ensures t.log[i] <= r {
      assert k in s.disk.vol && at <= k;
    }
  }

  lemma PushKeepsAscending(s: State, step: PushStep)
    requires OnlyNewest(s) && Ascending(s.disk) && PushEnabled(s, step)
    requires SpoolOk(s) && HolderOk(s) && HistoryOk(s) && NotYetSpooled(s)
    ensures Ascending(PushApply(s, step).disk)
  {
    var t := PushApply(s, step);
    if step.Create? || step.Write? {
      assert Clause(s, Writer(s, step), s.conns[Writer(s, step)]);
    }
    forall j: nat, k: nat, f, g | Has(t.disk, j, f) && Has(t.disk, k, g) && j < k ensures f.rec < g.rec {
      PushFiles(s, step, j, f);
      PushFiles(s, step, k, g);
      assert k <= s.disk.next;
      assert Has(s.disk, j, f) ==> Holds(s.disk, j, f.rec) by { assert f == File(f.rec, true) || f == File(f.rec, false); }
    }
  }

  /** The one connection with a record in hand is the one pushing it. */
  lemma NobodyPostsBesideAPush(s: State, step: PushStep)
    requires OnlyNewest(s) && ConnsOk(s) && HolderOk(s) && PushEnabled(s, step)
    ensures forall c :: !At(PushApply(s, step), c, Posting(RecordOf(PushApply(s, step), c)))
  {
    var w := if step.PushRefused? || step.Create? then step.c else s.lock.conn;
    assert w in s.conns && InHand(s.submitted, w, s.conns[w].rec);
    assert forall c :: c in s.conns && !s.conns[c].Idle? ==> c == w;
  }

  lemma PushKeepsSolo(s: State, step: PushStep)
    requires SoloInv(s) && PushEnabled(s, step)
    requires SpoolOk(s) && HolderOk(s) && HistoryOk(s) && NotYetSpooled(s) && ConnsOk(s)
    ensures SoloInv(PushApply(s, step))
  {
    var t := PushApply(s, step);
    PushKeepsNewest(s, step);
    PushKeepsAscending(s, step);
    forall k, r: Record, i | Has(t.disk, k, File(r, true)) && 0 <= i < |t.log| ensures t.log[i] <= r {
      PushFiles(s, step, k, File(r, true));
      assert s.log[i] in s.log;
    }
    NobodyPostsBesideAPush(s, step);
  }

  lemma CrashKeepsSolo(s: State, left: Directory, config: Config)
    requires SoloInv(s) && Enabled(s, Crash(left, config))
    ensures SoloInv(Apply(s, Crash(left, config)))
  {
    var t := Apply(s, Crash(left, config));
    assert forall k, r: Record :: Has(t.disk, k, File(r, true)) ==> Has(s.disk, k, File(r, true));
    assert forall k, r: Record :: Has(t.disk, k, File(r, false)) ==> Holds(s.disk, k, r);
  }

  lemma StepKeepsSolo(s: State, step: Step)
    requires Inv(s) && SoloInv(s) && Enabled(s, step) && KeepsToOne(s, step) && !step.Stray?
    ensures SoloInv(Apply(s, step))
  {
    match step
    case Line(l) => LineKeepsSolo(s, l);
    case Drain(d) => if d.Take? { TakeKeepsSolo(s); } else { DrainKeepsSolo(s, d); }
    case Push(p) => PushKeepsSolo(s, p);
    case Crash(left, config) => CrashKeepsSolo(s, left, config);
  }

  lemma {:induction false} RunKeepsSolo(s: State, steps: seq<Step>)
    requires Inv(s) && SoloInv(s) && Legal(s, steps) && Solo(s, steps) && NoStray(steps)
    ensures SoloInv(Exec(s, steps))
    decreases |steps|
  {
    if steps != [] {
      StepKeepsInv(s, steps[0]);
      StepKeepsSolo(s, steps[0]);
      RunKeepsSolo(Apply(s, steps[0]), steps[1..]);
    }
  }

  /** A log with runs of equal neighbours collapsed to one. */
  function Collapse(log: seq<Record>): (c: seq<Record>)
    ensures log != [] ==> c != [] && c[0] == log[0]
  {
    if |log| <= 1 then log
    else if log[0] == log[1] then Collapse(log[1..])
    else [log[0]] + Collapse(log[1..])
  }

  predicate StrictlyIncreasing(log: seq<Record>) {
    forall i, j :: 0 <= i < j < |log| ==> log[i] < log[j]
  }

  lemma {:induction false} SortedCollapses(log: seq<Record>)
    requires Sorted(log)
    ensures StrictlyIncreasing(Collapse(log))
    decreases |log|
  {
    if |log| > 1 {
      SortedCollapses(log[1..]);
      var c := Collapse(log[1..]);
      assert forall i :: 0 <= i < |c| ==> log[1] <= c[i];
    }
  }

  lemma {:induction false} CollapseKeepsAll(log: seq<Record>, r: Record)
    ensures r in Collapse(log) <==> r in log
    decreases |log|
  {
    if |log| > 1 {
      CollapseKeepsAll(log[1..], r);
      assert log == [log[0]] + log[1..];
    }
  }

  /**
   Over every run with one submitter at a time and no late acceptance: collapsing adjacent repeats of the acceptance log
   gives a strictly increasing sequence of submissions, with nothing left out of it.
   */
  lemma AcceptedInSubmissionOrder(config: Config, steps: seq<Step>, s: State)
    requires Reached(config, steps, s) && Solo(Start(config), steps) && NoStray(steps)
    ensures StrictlyIncreasing(Collapse(s.log))
    ensures forall r :: r in Collapse(s.log) <==> r in s.log
  {
    StartInv(config);
    RunKeepsSolo(Start(config), steps);
    SortedCollapses(s.log);
    forall r ensures r in Collapse(s.log) <==> r in s.log {
      CollapseKeepsAll(s.log, r);
    }
  }
}
