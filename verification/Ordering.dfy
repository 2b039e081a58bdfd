/**
 Records sent one after another on one connection reach the service in the order they were sent.
 Holds in every run in which no post is taken after it was given up on (`Stray`); the runs in which one
 breaks it are in `OrderBreaks`.
 */
module Ordering {
  import opened Outcomes
  import opened Protocol
  import opened Conservation

  /** Entries of one connection stand in the spool in the order it sent them. */
  ghost predicate FilesOrdered(d: Disk, submitted: seq<ConnId>) {
    forall j, k, f, g ::
      Has(d, j, f) && Has(d, k, g) && j < k && f.rec < |submitted| && g.rec < |submitted|
      && submitted[f.rec] == submitted[g.rec]
      ==> f.rec < g.rec
  }

  /** While a connection posts directly, none of its records is waiting in the spool. */
  ghost predicate NothingBehind(s: State) {
    forall c, k, f ::
      At(s, c, Posting(RecordOf(s, c))) && Has(s.disk, k, f) && f.rec < |s.submitted| ==> s.submitted[f.rec] != c
  }

  /** A waiting record that a later one of its connection has overtaken was itself accepted before. */
  ghost predicate NoneOvertaken(d: Disk, log: seq<Record>, submitted: seq<ConnId>) {
    forall k, r: Record, q: Record ::
      Has(d, k, File(r, true)) && q in log && r < q < |submitted| && submitted[r] == submitted[q] ==> r in log
  }

  /** First acceptances of one connection's records come in the order sent. */
  ghost predicate FirstsInOrder(log: seq<Record>, submitted: seq<ConnId>) {
    forall j, r: Record ::
      0 <= j < |log| && r < log[j] < |submitted| && submitted[r] == submitted[log[j]] && r in log
      ==> r in log[..j]
  }

  ghost predicate OrderInv(s: State) {
    && FilesOrdered(s.disk, s.submitted)
    && NothingBehind(s)
    && NoneOvertaken(s.disk, s.log, s.submitted)
    && FirstsInOrder(s.log, s.submitted)
  }

  lemma LineKeepsFiles(s: State, step: LineStep)
    requires FilesOrdered(s.disk, s.submitted) && HistoryOk(s) && LineEnabled(s, step)
    ensures FilesOrdered(LineApply(s, step).disk, LineApply(s, step).submitted)
  {
    LineLeavesSpool(s, step);
    assert s.submitted <= LineApply(s, step).submitted;
    assert forall k, f :: Has(s.disk, k, f) ==> f.rec < |s.submitted|;
  }

  lemma LineKeepsNothingBehind(s: State, step: LineStep)
    requires NothingBehind(s) && ViewsAgree(s.disk, s.lock) && HistoryOk(s) && LineEnabled(s, step)
    ensures NothingBehind(LineApply(s, step))
  {
    var t := LineApply(s, step);
    LineLeavesSpool(s, step);
    forall c, k, f | At(t, c, Posting(RecordOf(t, c))) && Has(t.disk, k, f)
      ensures f.rec < |s.submitted| && s.submitted[f.rec] != c
    {
      assert Has(s.disk, k, f);
      if step.SecondDepth? && c == step.c {
        assert false;
      } else {
        assert At(s, c, Posting(RecordOf(s, c)));
      }
    }
  }

  lemma LineKeepsOvertaking(s: State, step: LineStep)
    requires OrderInv(s) && HistoryOk(s) && ConnsOk(s) && LineEnabled(s, step)
    ensures NoneOvertaken(LineApply(s, step).disk, LineApply(s, step).log, LineApply(s, step).submitted)
  {
    var t := LineApply(s, step);
    LineLeavesSpool(s, step);
    forall k, r: Record, q: Record | Has(t.disk, k, File(r, true)) && q in t.log && r < q < |t.submitted|
        && t.submitted[r] == t.submitted[q]
      ensures r in t.log
    {
      assert Has(s.disk, k, File(r, true)) && q < |s.submitted|;
    }
  }

  lemma LineKeepsFirsts(s: State, step: LineStep)
    requires OrderInv(s) && HistoryOk(s) && ConnsOk(s) && LineEnabled(s, step)
    ensures FirstsInOrder(LineApply(s, step).log, LineApply(s, step).submitted)
  {
    var t := LineApply(s, step);
    if step.TakeDirect? { assert InHand(s.submitted, step.c, RecordOf(s, step.c)); }
    forall j, r: Record | 0 <= j < |t.log| && r < t.log[j] < |t.submitted|
        && t.submitted[r] == t.submitted[t.log[j]] && r in t.log
      ensures r in t.log[..j]
    {
      if j < |s.log| {
        assert t.log[..j] == s.log[..j];
        assert s.log[j] in s.log;
      } else {
        assert t.log[..j] == s.log;
      }
    }
  }

  lemma DrainStartsNoPost(s: State, step: DrainStep, c: ConnId)
    requires DrainEnabled(s, step)
    requires At(DrainApply(s, step), c, Posting(RecordOf(DrainApply(s, step), c)))
    ensures At(s, c, Posting(RecordOf(s, c)))
  {
  }

  lemma FewerFilesKeepOrder(s: State, t: State)
    requires OrderInv(s) && t.log == s.log && t.submitted == s.submitted
    requires forall k, f :: Has(t.disk, k, f) ==> Has(s.disk, k, f)
    requires forall c :: At(t, c, Posting(RecordOf(t, c))) ==> At(s, c, Posting(RecordOf(s, c)))
    ensures OrderInv(t)
  {
  }

  lemma DrainKeepsLog(s: State, step: DrainStep)
    requires DrainEnabled(s, step) && !step.Take?
    ensures DrainApply(s, step).log == s.log
  {
  }

  lemma DrainKeepsOrder(s: State, step: DrainStep)
    requires OrderInv(s) && DrainEnabled(s, step) && !step.Take?
    ensures OrderInv(DrainApply(s, step))
  {
    var t := DrainApply(s, step);
    DrainLeaves(s, step);
    DrainKeepsLog(s, step);
    forall k, f | Has(t.disk, k, f) ensures Has(s.disk, k, f) { DrainOnlyRemoves(s, step, k, f); }
    forall c | At(t, c, Posting(RecordOf(t, c))) ensures At(s, c, Posting(RecordOf(s, c))) {
      DrainStartsNoPost(s, step, c);
    }
    FewerFilesKeepOrder(s, t);
  }

  lemma TakeKeepsOrder(s: State)
    requires OrderInv(s) && WorkOk(s) && HistoryOk(s) && ViewsAgree(s.disk, s.lock) && DrainEnabled(s, Take)
    ensures OrderInv(DrainApply(s, Take))
  {
    var t := DrainApply(s, Take);
    var at := s.lock.at;
    var taken := s.disk.vol[at].rec;
    assert Has(s.disk, at, File(taken, true));
    forall c | At(t, c, Posting(RecordOf(t, c))) ensures At(s, c, Posting(RecordOf(s, c))) {}
    forall k, r: Record, q: Record | Has(t.disk, k, File(r, true)) && q in t.log && r < q < |t.submitted|
        && t.submitted[r] == t.submitted[q]
      ensures r in t.log
    {
      assert k in s.disk.vol && at <= k;
    }
    forall j, r: Record | 0 <= j < |t.log| && r < t.log[j] < |t.submitted|
        && t.submitted[r] == t.submitted[t.log[j]] && r in t.log
      ensures r in t.log[..j]
    {
      if j < |s.log| {
        assert t.log[..j] == s.log[..j];
        assert s.log[j] in s.log;
      } else {
        assert t.log[..j] == s.log;
      }
    }
  }

  /** The record a push step is about. */
  function Writer(s: State, step: PushStep): ConnId {
    if step.Create? then step.c else if Writing(s.lock) then s.lock.conn else 0
  }

  /** The only file a push step adds or changes is its own record's, under the next number. */
  lemma PushFiles(s: State, step: PushStep, k: nat, f: File)
    requires SpoolOk(s) && PushEnabled(s, step) && Has(PushApply(s, step).disk, k, f)
    ensures Has(s.disk, k, f)
            || ((step.Create? || step.Write?) && k == s.disk.next && f.rec == RecordOf(s, Writer(s, step)))
  {
  }

  lemma PushKeepsFiles(s: State, step: PushStep)
    requires FilesOrdered(s.disk, s.submitted) && SpoolOk(s) && HolderOk(s) && ConnsOk(s) && HistoryOk(s) && NotYetSpooled(s)
    requires PushEnabled(s, step)
    ensures FilesOrdered(PushApply(s, step).disk, s.submitted)
  {
    var t := PushApply(s, step);
    var w := RecordOf(s, Writer(s, step));
    if step.Create? || step.Write? {
      assert Clause(s, Writer(s, step), s.conns[Writer(s, step)]);
      assert InHand(s.submitted, Writer(s, step), w);
    }
    forall j: nat, k: nat, f, g | Has(t.disk, j, f) && Has(t.disk, k, g) && j < k && f.rec < |s.submitted|
        && g.rec < |s.submitted|
                        && s.submitted[f.rec] == s.submitted[g.rec]
      ensures f.rec < g.rec
    {
      PushFiles(s, step, j, f);
      PushFiles(s, step, k, g);
      assert k <= s.disk.next;
      assert Has(s.disk, j, f) ==> Holds(s.disk, j, f.rec) by { assert f == File(f.rec, true) || f == File(f.rec, false); }
    }
  }

  lemma PushKeepsNothingBehind(s: State, step: PushStep)
    requires OrderInv(s) && SpoolOk(s) && HolderOk(s) && ConnsOk(s) && PushEnabled(s, step)
    ensures NothingBehind(PushApply(s, step))
  {
    var t := PushApply(s, step);
    forall c, k, f | At(t, c, Posting(RecordOf(t, c))) && Has(t.disk, k, f) && f.rec < |t.submitted|
      ensures t.submitted[f.rec] != c
    {
      PushFiles(s, step, k, f);
      assert At(s, c, Posting(RecordOf(s, c)));
    }
  }

  lemma PushKeepsOvertaking(s: State, step: PushStep)
    requires OrderInv(s) && SpoolOk(s) && HolderOk(s) && ConnsOk(s) && PushEnabled(s, step)
    ensures NoneOvertaken(PushApply(s, step).disk, s.log, s.submitted)
  {
    var t := PushApply(s, step);
    forall k, r: Record, q: Record | Has(t.disk, k, File(r, true)) && q in s.log && r < q < |s.submitted|
        && s.submitted[r] == s.submitted[q]
      ensures r in s.log
    {
      PushFiles(s, step, k, File(r, true));
    }
  }

  lemma PushKeepsOrder(s: State, step: PushStep)
    requires OrderInv(s) && SpoolOk(s) && HolderOk(s) && ConnsOk(s) && HistoryOk(s) && NotYetSpooled(s)
    requires PushEnabled(s, step)
    ensures OrderInv(PushApply(s, step))
  {
    PushKeepsFiles(s, step);
    PushKeepsNothingBehind(s, step);
    PushKeepsOvertaking(s, step);
  }

  lemma CrashKeepsOrder(s: State, left: Directory, config: Config)
    requires OrderInv(s) && Enabled(s, Crash(left, config))
    ensures OrderInv(Apply(s, Crash(left, config)))
  {
    var t := Apply(s, Crash(left, config));
    assert forall k, r: Record :: Has(t.disk, k, File(r, true)) ==> Has(s.disk, k, File(r, true));
    assert forall k, r: Record :: Has(t.disk, k, File(r, false)) ==> Holds(s.disk, k, r);
  }

  lemma LineKeepsOrder(s: State, step: LineStep)
    requires OrderInv(s) && HistoryOk(s) && ConnsOk(s) && ViewsAgree(s.disk, s.lock) && LineEnabled(s, step)
    ensures OrderInv(LineApply(s, step))
  {
    LineKeepsFiles(s, step);
    LineKeepsNothingBehind(s, step);
    LineKeepsOvertaking(s, step);
    LineKeepsFirsts(s, step);
  }

  lemma StepKeepsOrder(s: State, step: Step)
    requires Inv(s) && OrderInv(s) && Enabled(s, step) && !step.Stray?
    ensures OrderInv(Apply(s, step))
  {
    match step
    case Line(l) => LineKeepsOrder(s, l);
    case Drain(d) => if d.Take? { TakeKeepsOrder(s); } else { DrainKeepsOrder(s, d); }
    case Push(p) => PushKeepsOrder(s, p);
    case Crash(left, config) => CrashKeepsOrder(s, left, config);
  }

  /** No post is taken by the service after it was given up on. */
  predicate NoStray(steps: seq<Step>) {
    forall i :: 0 <= i < |steps| ==> !steps[i].Stray?
  }

  lemma {:induction false} RunKeepsOrder(s: State, steps: seq<Step>)
    requires Inv(s) && OrderInv(s) && Legal(s, steps) && NoStray(steps)
    ensures OrderInv(Exec(s, steps))
    decreases |steps|
  {
    if steps != [] {
      StepKeepsInv(s, steps[0]);
      StepKeepsOrder(s, steps[0]);
      RunKeepsOrder(Apply(s, steps[0]), steps[1..]);
    }
  }

  /**
   Order of delivery, over every run: of two records sent on one connection, the later is never
   accepted before the first acceptance of the earlier, if that ever comes; and while the earlier one
   still waits in the spool without having been accepted, the later one has not been accepted either.
   */
  lemma PromptPostsInOrder(config: Config, steps: seq<Step>, s: State, earlier: Record, later: Record, j: nat)
    requires Reached(config, steps, s) && NoStray(steps)
    requires earlier < later < |s.submitted| && s.submitted[earlier] == s.submitted[later]
    requires j < |s.log| && s.log[j] == later
    ensures earlier in s.log ==> earlier in s.log[..j]
    ensures WholeInSpool(s.disk, earlier) ==> earlier in s.log
  {
    StartInv(config);
    RunKeepsOrder(Start(config), steps);
  }
}
