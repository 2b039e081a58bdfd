/**
 What every step of the protocol keeps: no answered record is lost, whatever the interleaving of
 connections, timer, aborted flushes, late acceptances and crashes.
 */
module Conservation {
  import opened Outcomes
  import opened Protocol

  /** Either view of the directory shows `f` under `k`. */
  predicate Has(d: Disk, k: nat, f: File) {
    (k in d.vol && d.vol[k] == f) || (k in d.dur && d.dur[k] == f)
  }

  /** Either view shows some copy of `r` under `k`, whole or torn. */
  predicate Holds(d: Disk, k: nat, r: Record) {
    Has(d, k, File(r, true)) || Has(d, k, File(r, false))
  }

  ghost predicate InSpool(d: Disk, r: Record) {
    exists k :: Holds(d, k, r)
  }

  ghost predicate WholeInSpool(d: Disk, r: Record) {
    exists k :: Has(d, k, File(r, true))
  }

  /** A whole, durable copy. */
  ghost predicate Kept(d: Disk, r: Record) {
    exists k :: Durable(d, k, File(r, true))
  }

  /** The service took it, or it was refused out there, or its entry was given up here. */
  predicate Settled(s: State, r: Record) {
    r in s.log || r in s.refused || r in s.dropped
  }

  /** What an answer promises about its record, from the moment `submit` returns. */
  ghost predicate Promise(s: State, r: Record, status: Status) {
    match status
    case AcceptedStatus => r in s.log && !InSpool(s.disk, r)
    case SpooledStatus => Settled(s, r) || Kept(s.disk, r)
    case RejectedStatus => !InSpool(s.disk, r)
    case SpoolFullStatus => !InSpool(s.disk, r)
    case ErrorStatus => !WholeInSpool(s.disk, r)
  }

  lemma KeptIsWhole(d: Disk, r: Record)
    requires Kept(d, r)
    ensures WholeInSpool(d, r)
  {
    var k :| Durable(d, k, File(r, true));
    assert Has(d, k, File(r, true));
  }

  /** The two views differ only where the lock holder, or a failed write, explains it. */
  ghost predicate ViewsAgree(d: Disk, lock: Lock) {
    && (forall k :: k in d.dur ==> (k in d.vol && d.vol[k] == d.dur[k]) || (lock.Removed? && k == lock.at))
    && (forall k :: k in d.vol ==> k in d.dur || k == d.next)
    && (lock.Removed? ==> lock.at !in d.vol)
    && (Writing(lock) ==> d.next in d.vol && d.next !in d.dur)
  }

  ghost predicate NamesBelowNext(d: Disk, lock: Lock, torn: bool) {
    && (forall k :: k in d.vol || k in d.dur ==> k <= d.next)
    && (d.next in d.vol && !Writing(lock) ==> torn && !d.vol[d.next].whole)
    && (d.next in d.dur ==> torn)
  }

  /** A connection's record in hand is the last one it sent. */
  ghost predicate InHand(submitted: seq<ConnId>, c: ConnId, r: Record) {
    && r < |submitted|
    && submitted[r] == c
    && forall q :: r < q < |submitted| ==> submitted[q] != c
  }

  ghost predicate ConnsOk(s: State) {
    && (forall c :: c in s.conns ==> c < |s.callers|)
    && (forall r :: 0 <= r < |s.submitted| ==> s.submitted[r] < |s.callers|)
    && (forall c :: c in s.conns && !s.conns[c].Idle? ==> InHand(s.submitted, c, s.conns[c].rec))
  }

  /** The lock holder's connection is in the matching place. */
  ghost predicate HolderOk(s: State) {
    && (Draining(s.lock) && s.lock.who.Caller? ==> At(s, s.lock.who.conn, Flushing(RecordOf(s, s.lock.who.conn))))
    && (Writing(s.lock) ==> At(s, s.lock.conn, Pushing(RecordOf(s, s.lock.conn))))
  }

  /** The file being written is the writer's record, and a drained entry is the oldest, settled before it goes. */
  ghost predicate WorkOk(s: State) {
    && (Writing(s.lock) ==>
          s.disk.next in s.disk.vol
          && s.disk.vol[s.disk.next] == File(RecordOf(s, s.lock.conn), !s.lock.Created?))
    && (s.lock.Sending? || s.lock.Decided? ==> IsMin(s.disk.vol, s.lock.at))
    && (s.lock.Decided? && s.lock.at in s.disk.vol ==> Settled(s, s.disk.vol[s.lock.at].rec))
    && (s.lock.Removed? ==> forall k :: k in s.disk.vol ==> s.lock.at < k)
    && (s.lock.Removed? && s.lock.at in s.disk.dur ==> Settled(s, s.disk.dur[s.lock.at].rec))
  }

  /** What the spool may hold of the record a connection is working on. */
  ghost predicate Clause(s: State, c: ConnId, conn: Conn) {
    match conn
    case Idle => true
    case Answering(r, outcome) => Promise(s, r, StatusOf(outcome))
    case Pushing(r) => forall k :: Holds(s.disk, k, r) ==> Writing(s.lock) && s.lock.conn == c && k == s.disk.next
    case _ => !InSpool(s.disk, conn.rec)
  }

  ghost predicate NotYetSpooled(s: State) {
    forall c :: c in s.conns ==> Clause(s, c, s.conns[c])
  }

  /** Answers keep what they promised, and are about records no connection still holds. */
  ghost predicate PromisesKept(s: State) {
    forall r :: r in s.answered ==> Promise(s, r, s.answered[r])
  }

  ghost predicate AnsweredDone(s: State) {
    && (forall r :: r in s.answered ==> r < |s.submitted|)
    && (forall c :: c in s.conns && !s.conns[c].Idle? ==> s.conns[c].rec !in s.answered)
  }

  ghost predicate FilesKnown(d: Disk, n: nat) {
    && (forall k :: k in d.vol ==> d.vol[k].rec < n)
    && (forall k :: k in d.dur ==> d.dur[k].rec < n)
  }

  ghost predicate HistoryOk(s: State) {
    && (forall r :: r in s.log ==> r < |s.submitted|)
    && (forall r :: r in s.posted ==> r < |s.submitted|)
    && FilesKnown(s.disk, |s.submitted|)
  }

  ghost predicate Inv(s: State) {
    && ViewsAgree(s.disk, s.lock)
    && NamesBelowNext(s.disk, s.lock, s.torn)
    && ConnsOk(s)
    && HolderOk(s)
    && WorkOk(s)
    && NotYetSpooled(s)
    && PromisesKept(s)
    && AnsweredDone(s)
    && HistoryOk(s)
  }

  /** The service has only what has left for it. */
  ghost predicate LogPosted(s: State) {
    forall r :: r in s.log ==> r in s.posted
  }

  lemma StartInv(config: Config)
    ensures Inv(Start(config))
  {
  }

  ghost predicate SpoolOk(s: State) {
    ViewsAgree(s.disk, s.lock) && NamesBelowNext(s.disk, s.lock, s.torn) && WorkOk(s)
  }

  lemma LineLeavesSpool(s: State, step: LineStep)
    requires LineEnabled(s, step)
    ensures LineApply(s, step).disk == s.disk && LineApply(s, step).lock == s.lock
    ensures LineApply(s, step).torn == s.torn
  {
  }

  /** No step of a connection takes the record out of the hand of one that is pushing. */
  lemma LineSparesWriter(s: State, step: LineStep)
    requires HolderOk(s) && ConnsOk(s) && LineEnabled(s, step) && Writing(s.lock)
    ensures RecordOf(LineApply(s, step), s.lock.conn) == RecordOf(s, s.lock.conn)
  {
  }

  lemma LineKeepsWork(s: State, step: LineStep)
    requires WorkOk(s) && HolderOk(s) && ConnsOk(s) && LineEnabled(s, step)
    ensures WorkOk(LineApply(s, step))
  {
    LineLeavesSpool(s, step);
    LineGrows(s, step);
    if Writing(s.lock) { LineSparesWriter(s, step); }
  }

  /** A drain touches the directory only to remove, and never what callers have sent and heard. */
  lemma DrainLeaves(s: State, step: DrainStep)
    requires DrainEnabled(s, step)
    ensures !step.Unlink? && !step.SyncRemoval? ==> DrainApply(s, step).disk == s.disk
    ensures DrainApply(s, step).torn == s.torn && DrainApply(s, step).submitted == s.submitted
    ensures DrainApply(s, step).answered == s.answered && DrainApply(s, step).callers == s.callers
    ensures DrainApply(s, step).config == s.config && DrainApply(s, step).vanished == s.vanished
    ensures !Writing(DrainApply(s, step).lock) && !Writing(s.lock)
  {
    DrainLeavesDisk(s, step);
    DrainLeavesCallers(s, step);
  }

  lemma DrainLeavesCallers(s: State, step: DrainStep)
    requires DrainEnabled(s, step)
    ensures var t := DrainApply(s, step);
      && t.submitted == s.submitted && t.answered == s.answered && t.callers == s.callers
      && t.config == s.config && t.vanished == s.vanished
  {
  }

  lemma DrainLeavesDisk(s: State, step: DrainStep)
    requires DrainEnabled(s, step)
    ensures !step.Unlink? && !step.SyncRemoval? ==> DrainApply(s, step).disk == s.disk
    ensures var t := DrainApply(s, step); t.torn == s.torn && !Writing(t.lock) && !Writing(s.lock)
  {
  }

  lemma DrainOnlyRemoves(s: State, step: DrainStep, k: nat, f: File)
    requires DrainEnabled(s, step) && Has(DrainApply(s, step).disk, k, f)
    ensures Has(s.disk, k, f)
  {
    if !step.Unlink? && !step.SyncRemoval? { DrainLeaves(s, step); }
  }

  lemma RemovalKeepsViews(s: State, step: DrainStep)
    requires ViewsAgree(s.disk, s.lock) && DrainEnabled(s, step) && (step.Unlink? || step.SyncRemoval?)
    ensures ViewsAgree(DrainApply(s, step).disk, DrainApply(s, step).lock)
  {
  }

  lemma DrainKeepsViews(s: State, step: DrainStep)
    requires ViewsAgree(s.disk, s.lock) && DrainEnabled(s, step)
    ensures ViewsAgree(DrainApply(s, step).disk, DrainApply(s, step).lock)
  {
    if step.Unlink? || step.SyncRemoval? {
      RemovalKeepsViews(s, step);
    } else {
      DrainLeaves(s, step);
    }
  }

  lemma DrainKeepsNames(s: State, step: DrainStep)
    requires NamesBelowNext(s.disk, s.lock, s.torn) && DrainEnabled(s, step)
    ensures NamesBelowNext(DrainApply(s, step).disk, DrainApply(s, step).lock, DrainApply(s, step).torn)
  {
    DrainLeaves(s, step);
  }

  lemma RemovalKeepsWork(s: State, step: DrainStep)
    requires ViewsAgree(s.disk, s.lock) && WorkOk(s) && DrainEnabled(s, step) && (step.Unlink? || step.SyncRemoval?)
    ensures WorkOk(DrainApply(s, step))
  {
  }

  lemma DrainKeepsWork(s: State, step: DrainStep)
    requires ViewsAgree(s.disk, s.lock) && WorkOk(s) && DrainEnabled(s, step)
    ensures WorkOk(DrainApply(s, step))
  {
    if step.Unlink? || step.SyncRemoval? { RemovalKeepsWork(s, step); } else { DrainLeaves(s, step); }
  }

  lemma PushKeepsSpool(s: State, step: PushStep)
    requires SpoolOk(s) && HolderOk(s) && PushEnabled(s, step)
    ensures SpoolOk(PushApply(s, step))
  {
  }

  lemma CrashKeepsSpool(s: State, left: Directory, config: Config)
    requires SpoolOk(s) && Enabled(s, Crash(left, config))
    ensures SpoolOk(Apply(s, Crash(left, config)))
  {
    NextExists(left);
  }

  /** What a connection has in hand afterwards is what it had, or the record it has just sent. */
  lemma LineHands(s: State, step: LineStep, c: ConnId)
    requires LineEnabled(s, step) && c in LineApply(s, step).conns && !LineApply(s, step).conns[c].Idle?
    ensures var t := LineApply(s, step);
      if step.Submit? && step.c == c then t.conns[c].rec == |s.submitted|
      else c in s.conns && !s.conns[c].Idle? && t.conns[c].rec == s.conns[c].rec
  {
  }

  lemma LineSends(s: State, step: LineStep)
    requires LineEnabled(s, step)
    ensures LineApply(s, step).submitted == if step.Submit? then s.submitted + [step.c] else s.submitted
    ensures LineApply(s, step).callers == if step.Connect? then s.callers + [step.agent] else s.callers
    ensures forall c :: c in LineApply(s, step).conns ==> c in s.conns || (step.Connect? && c == |s.callers|)
  {
  }

  lemma LineKeepsConns(s: State, step: LineStep)
    requires ConnsOk(s) && LineEnabled(s, step)
    ensures ConnsOk(LineApply(s, step))
  {
    var t := LineApply(s, step);
    LineSends(s, step);
    forall c | c in t.conns && !t.conns[c].Idle? ensures InHand(t.submitted, c, t.conns[c].rec) {
      LineHands(s, step, c);
      if c in s.conns && !s.conns[c].Idle? { assert InHand(s.submitted, c, s.conns[c].rec); }
    }
    forall r | 0 <= r < |t.submitted| ensures t.submitted[r] < |t.callers| {
      if r == |s.submitted| { assert step.c in s.conns; }
    }
  }

  /** The connection a line step is about, if any. */
  predicate IsAbout(step: LineStep, c: ConnId) {
    match step
    case Connect(_) => false
    case Hangup(d) => c == d
    case Submit(d, _) => c == d
    case DepthFails(d) => c == d
    case FirstDepth(d) => c == d
    case SecondDepth(d) => c == d
    case TakeDirect(d) => c == d
    case DirectVerdict(d, _) => c == d
    case Answer(d) => c == d
  }

  /** Other connections stay where they are; so does one that is flushing or pushing. */
  lemma LineSparesOthers(s: State, step: LineStep, c: ConnId)
    requires LineEnabled(s, step) && c in s.conns && c < |s.callers|
    requires !IsAbout(step, c) || s.conns[c].Flushing? || s.conns[c].Pushing?
    ensures c in LineApply(s, step).conns && LineApply(s, step).conns[c] == s.conns[c]
  {
  }

  lemma LineKeepsHolder(s: State, step: LineStep)
    requires ConnsOk(s) && HolderOk(s) && LineEnabled(s, step)
    ensures HolderOk(LineApply(s, step))
  {
    LineLeavesSpool(s, step);
    if Draining(s.lock) && s.lock.who.Caller? { LineSparesOthers(s, step, s.lock.who.conn); }
    if Writing(s.lock) { LineSparesOthers(s, step, s.lock.conn); }
  }

  lemma LineKeepsAnswered(s: State, step: LineStep)
    requires ConnsOk(s) && AnsweredDone(s) && LineEnabled(s, step)
    ensures AnsweredDone(LineApply(s, step))
  {
  }

  lemma LineKeepsHistory(s: State, step: LineStep)
    requires ConnsOk(s) && HistoryOk(s) && LineEnabled(s, step)
    ensures HistoryOk(LineApply(s, step))
  {
    LineLeavesSpool(s, step);
  }

  lemma DrainKeepsConns(s: State, step: DrainStep)
    requires ConnsOk(s) && HolderOk(s) && DrainEnabled(s, step)
    ensures ConnsOk(DrainApply(s, step))
  {
    DrainLeaves(s, step);
  }

  lemma DrainKeepsHolder(s: State, step: DrainStep)
    requires HolderOk(s) && DrainEnabled(s, step)
    ensures HolderOk(DrainApply(s, step))
  {
  }

  lemma DrainKeepsHistory(s: State, step: DrainStep)
    requires HolderOk(s) && AnsweredDone(s) && HistoryOk(s) && DrainEnabled(s, step)
    ensures AnsweredDone(DrainApply(s, step)) && HistoryOk(DrainApply(s, step))
  {
    DrainLeaves(s, step);
  }

  lemma PushKeepsConns(s: State, step: PushStep)
    requires ConnsOk(s) && HolderOk(s) && PushEnabled(s, step)
    ensures ConnsOk(PushApply(s, step)) && HolderOk(PushApply(s, step))
  {
  }

  lemma PushKeepsHistory(s: State, step: PushStep)
    requires ConnsOk(s) && HolderOk(s) && AnsweredDone(s) && HistoryOk(s) && PushEnabled(s, step)
    ensures AnsweredDone(PushApply(s, step)) && HistoryOk(PushApply(s, step))
  {
  }

  /** No copy of `q` in `e` that was not in `d`. */
  ghost predicate NoNewCopy(d: Disk, e: Disk, q: Record) {
    forall k :: (Has(e, k, File(q, true)) ==> Has(d, k, File(q, true))) && (Holds(e, k, q) ==> Holds(d, k, q))
  }

  /** What may happen to a record that is not being written: copies go only once it is settled. */
  ghost predicate Evolves(s: State, t: State, q: Record) {
    && NoNewCopy(s.disk, t.disk, q)
    && (Kept(s.disk, q) ==> Settled(t, q) || Kept(t.disk, q))
    && (q in s.log ==> q in t.log)
    && (q in s.refused ==> q in t.refused)
    && (q in s.dropped ==> q in t.dropped)
  }

  lemma PromiseEvolves(s: State, t: State, q: Record, status: Status)
    requires Evolves(s, t, q) && Promise(s, q, status)
    ensures Promise(t, q, status)
  {
  }

  /** Histories only grow. */
  ghost predicate Grows(s: State, t: State) {
    s.log <= t.log && s.refused <= t.refused && s.dropped <= t.dropped && s.posted <= t.posted
  }

  lemma LineGrows(s: State, step: LineStep)
    requires LineEnabled(s, step)
    ensures Grows(s, LineApply(s, step))
  {
  }

  lemma DrainGrows(s: State, step: DrainStep)
    requires DrainEnabled(s, step)
    ensures Grows(s, DrainApply(s, step))
  {
  }

  lemma SameDiskEvolves(s: State, t: State, q: Record)
    requires t.disk == s.disk && Grows(s, t)
    ensures Evolves(s, t, q)
  {
  }

  lemma LineEvolves(s: State, step: LineStep, q: Record)
    requires LineEnabled(s, step)
    ensures Evolves(s, LineApply(s, step), q)
  {
    LineLeavesSpool(s, step);
    LineGrows(s, step);
    SameDiskEvolves(s, LineApply(s, step), q);
  }

  lemma RemovalEvolves(s: State, step: DrainStep, q: Record)
    requires WorkOk(s) && ViewsAgree(s.disk, s.lock) && DrainEnabled(s, step) && (step.Unlink? || step.SyncRemoval?)
    ensures Evolves(s, DrainApply(s, step), q)
  {
    var t := DrainApply(s, step);
    if Kept(s.disk, q) {
      var k :| Durable(s.disk, k, File(q, true));
      assert Settled(t, q) || Durable(t.disk, k, File(q, true));
    }
  }

  lemma DrainEvolves(s: State, step: DrainStep, q: Record)
    requires WorkOk(s) && ViewsAgree(s.disk, s.lock) && DrainEnabled(s, step)
    ensures Evolves(s, DrainApply(s, step), q)
  {
    if step.Unlink? || step.SyncRemoval? {
      RemovalEvolves(s, step, q);
    } else {
      DrainLeaves(s, step);
      DrainGrows(s, step);
      SameDiskEvolves(s, DrainApply(s, step), q);
    }
  }

  lemma PushEvolves(s: State, step: PushStep, q: Record)
    requires ViewsAgree(s.disk, s.lock) && PushEnabled(s, step)
    requires step.Create? ==> q != RecordOf(s, step.c)
    requires step.Write? ==> q != RecordOf(s, s.lock.conn)
    ensures Evolves(s, PushApply(s, step), q)
  {
    var t := PushApply(s, step);
    if Kept(s.disk, q) {
      var k :| Durable(s.disk, k, File(q, true));
      assert Settled(t, q) || Durable(t.disk, k, File(q, true));
    }
  }

  lemma CrashEvolves(s: State, left: Directory, config: Config, q: Record)
    requires Enabled(s, Crash(left, config))
    ensures Evolves(s, Apply(s, Crash(left, config)), q)
  {
    var t := Apply(s, Crash(left, config));
    if Kept(s.disk, q) {
      var k :| Durable(s.disk, k, File(q, true));
      assert Settled(t, q) || Durable(t.disk, k, File(q, true));
    }
  }

  lemma NotWritingClauseEvolves(s: State, t: State, c: ConnId, conn: Conn)
    requires Clause(s, c, conn) && !conn.Idle? && !conn.Pushing? && Evolves(s, t, conn.rec)
    ensures Clause(t, c, conn)
  {
    if conn.Answering? {
      PromiseEvolves(s, t, conn.rec, StatusOf(conn.outcome));
    }
  }

  /** A connection that stays put, and is not writing, keeps its clause. */
  lemma ClauseEvolves(s: State, t: State, c: ConnId, conn: Conn)
    requires Clause(s, c, conn) && !conn.Idle? && Evolves(s, t, conn.rec)
    requires !(Writing(s.lock) && s.lock.conn == c)
    ensures Clause(t, c, conn)
  {
    if conn.Answering? {
      PromiseEvolves(s, t, conn.rec, StatusOf(conn.outcome));
    }
  }

  lemma UnknownIsAbsent(d: Disk, n: nat, r: Record)
    requires FilesKnown(d, n) && n <= r
    ensures !InSpool(d, r)
  {
  }

  lemma AbsentIsNotWhole(d: Disk, r: Record)
    requires !InSpool(d, r)
    ensures !WholeInSpool(d, r)
  {
    if WholeInSpool(d, r) {
      var k :| Has(d, k, File(r, true));
      assert Holds(d, k, r);
    }
  }

  lemma LineMovesWithinClause(s: State, step: LineStep, c: ConnId)
    requires NotYetSpooled(s) && HistoryOk(s) && LineEnabled(s, step) && IsAbout(step, c)
    requires c in LineApply(s, step).conns
    ensures Clause(LineApply(s, step), c, LineApply(s, step).conns[c])
  {
    var t := LineApply(s, step);
    LineLeavesSpool(s, step);
    UnknownIsAbsent(s.disk, |s.submitted|, |s.submitted|);
    if !t.conns[c].Idle? && !InSpool(s.disk, t.conns[c].rec) {
      AbsentIsNotWhole(s.disk, t.conns[c].rec);
    }
  }

  lemma LineKeepsClauses(s: State, step: LineStep, c: ConnId)
    requires NotYetSpooled(s) && HistoryOk(s) && ConnsOk(s) && LineEnabled(s, step)
    requires c in LineApply(s, step).conns
    ensures Clause(LineApply(s, step), c, LineApply(s, step).conns[c])
  {
    var t := LineApply(s, step);
    if IsAbout(step, c) {
      LineMovesWithinClause(s, step, c);
    } else if c in s.conns {
      LineSparesOthers(s, step, c);
      LineLeavesSpool(s, step);
      if !s.conns[c].Idle? && !s.conns[c].Pushing? {
        assert Clause(s, c, s.conns[c]);
        LineEvolves(s, step, s.conns[c].rec);
        NotWritingClauseEvolves(s, t, c, s.conns[c]);
      }
    }
  }

  /** A drain moves no connection but the one that started it, and that one only when it gives the lock back. */
  lemma DrainMoves(s: State, step: DrainStep, c: ConnId)
    requires HolderOk(s) && DrainEnabled(s, step) && c in DrainApply(s, step).conns
    ensures var t := DrainApply(s, step);
      && c in s.conns
      && (t.conns[c] == s.conns[c]
          || (s.conns[c].Flushing? && t.disk == s.disk
              && (t.conns[c] == Rechecking(s.conns[c].rec) || t.conns[c] == Answering(s.conns[c].rec, Io))))
  {
  }

  lemma DrainKeepsClauses(s: State, step: DrainStep, c: ConnId)
    requires NotYetSpooled(s) && HolderOk(s) && WorkOk(s) && ViewsAgree(s.disk, s.lock) && DrainEnabled(s, step)
    requires c in DrainApply(s, step).conns
    ensures Clause(DrainApply(s, step), c, DrainApply(s, step).conns[c])
  {
    var t := DrainApply(s, step);
    DrainMoves(s, step, c);
    DrainLeaves(s, step);
    assert Clause(s, c, s.conns[c]);
    if s.conns[c] != t.conns[c] {
      AbsentIsNotWhole(s.disk, s.conns[c].rec);
    } else if !t.conns[c].Idle? {
      DrainEvolves(s, step, t.conns[c].rec);
      ClauseEvolves(s, t, c, t.conns[c]);
    }
  }

  /** The push answers: durable, not there at all, or not there whole. */
  lemma AnsweredPushKeepsClause(s: State, step: PushStep, c: ConnId)
    requires NotYetSpooled(s) && HolderOk(s) && WorkOk(s) && ViewsAgree(s.disk, s.lock) && PushEnabled(s, step)
    requires if step.PushRefused? then c == step.c else (step.SyncPush? || step.WriteFails?) && c == s.lock.conn
    ensures Clause(PushApply(s, step), c, PushApply(s, step).conns[c])
  {
    assert Clause(s, c, s.conns[c]);
    if step.SyncPush? {
      assert Durable(PushApply(s, step).disk, s.disk.next, File(RecordOf(s, c), true));
    } else if step.PushRefused? {
      assert !InSpool(s.disk, RecordOf(s, c));
      AbsentIsNotWhole(s.disk, RecordOf(s, c));
    } else {
      assert forall k :: Has(s.disk, k, File(RecordOf(s, c), true)) ==> Holds(s.disk, k, RecordOf(s, c));
    }
  }

  lemma PushKeepsClauses(s: State, step: PushStep, c: ConnId)
    requires NotYetSpooled(s) && HolderOk(s) && ConnsOk(s) && WorkOk(s) && ViewsAgree(s.disk, s.lock)
    requires PushEnabled(s, step)
    requires c in PushApply(s, step).conns
    ensures Clause(PushApply(s, step), c, PushApply(s, step).conns[c])
  {
    var t := PushApply(s, step);
    if if step.PushRefused? then c == step.c else (step.SyncPush? || step.WriteFails?) && c == s.lock.conn {
      AnsweredPushKeepsClause(s, step, c);
    } else if Writing(t.lock) && t.lock.conn == c {
      var r := RecordOf(s, c);
      forall k | Holds(t.disk, k, r) ensures k == t.disk.next {
        assert k == t.disk.next || Holds(s.disk, k, r);
      }
    } else if !t.conns[c].Idle? {
      PushEvolves(s, step, t.conns[c].rec);
      ClauseEvolves(s, t, c, t.conns[c]);
    }
  }

  lemma LineKeepsPromises(s: State, step: LineStep, r: Record)
    requires PromisesKept(s) && NotYetSpooled(s) && LineEnabled(s, step)
    requires r in LineApply(s, step).answered
    ensures Promise(LineApply(s, step), r, LineApply(s, step).answered[r])
  {
    LineEvolves(s, step, r);
    var t := LineApply(s, step);
    if step.Answer? && r == RecordOf(s, step.c) {
      assert Clause(s, step.c, s.conns[step.c]);
      PromiseEvolves(s, t, r, StatusOf(s.conns[step.c].outcome));
    } else {
      PromiseEvolves(s, t, r, s.answered[r]);
    }
  }

  lemma DrainKeepsPromises(s: State, step: DrainStep, r: Record)
    requires PromisesKept(s) && WorkOk(s) && ViewsAgree(s.disk, s.lock) && DrainEnabled(s, step)
    requires r in DrainApply(s, step).answered
    ensures Promise(DrainApply(s, step), r, DrainApply(s, step).answered[r])
  {
    DrainEvolves(s, step, r);
    PromiseEvolves(s, DrainApply(s, step), r, s.answered[r]);
  }

  lemma PushKeepsPromises(s: State, step: PushStep, r: Record)
    requires PromisesKept(s) && AnsweredDone(s) && HolderOk(s) && ViewsAgree(s.disk, s.lock) && PushEnabled(s, step)
    requires r in PushApply(s, step).answered
    ensures Promise(PushApply(s, step), r, PushApply(s, step).answered[r])
  {
    PushEvolves(s, step, r);
    PromiseEvolves(s, PushApply(s, step), r, s.answered[r]);
  }

  lemma LineKeepsInv(s: State, step: LineStep)
    requires Inv(s) && LineEnabled(s, step)
    ensures Inv(LineApply(s, step))
  {
    LineLeavesSpool(s, step);
    LineKeepsWork(s, step);
    LineKeepsConns(s, step);
    LineKeepsHolder(s, step);
    LineKeepsAnswered(s, step);
    LineKeepsHistory(s, step);
    var t := LineApply(s, step);
    forall c | c in t.conns ensures Clause(t, c, t.conns[c]) { LineKeepsClauses(s, step, c); }
    forall r | r in t.answered ensures Promise(t, r, t.answered[r]) { LineKeepsPromises(s, step, r); }
  }

  lemma DrainKeepsInv(s: State, step: DrainStep)
    requires Inv(s) && DrainEnabled(s, step)
    ensures Inv(DrainApply(s, step))
  {
    DrainKeepsViews(s, step);
    DrainKeepsNames(s, step);
    DrainKeepsWork(s, step);
    DrainKeepsConns(s, step);
    DrainKeepsHolder(s, step);
    DrainKeepsHistory(s, step);
    var t := DrainApply(s, step);
    forall c | c in t.conns ensures Clause(t, c, t.conns[c]) { DrainKeepsClauses(s, step, c); }
    forall r | r in t.answered ensures Promise(t, r, t.answered[r]) { DrainKeepsPromises(s, step, r); }
  }

  lemma PushKeepsInv(s: State, step: PushStep)
    requires Inv(s) && PushEnabled(s, step)
    ensures Inv(PushApply(s, step))
  {
    PushKeepsSpool(s, step);
    PushKeepsConns(s, step);
    PushKeepsHistory(s, step);
    var t := PushApply(s, step);
    forall c | c in t.conns ensures Clause(t, c, t.conns[c]) { PushKeepsClauses(s, step, c); }
    forall r | r in t.answered ensures Promise(t, r, t.answered[r]) { PushKeepsPromises(s, step, r); }
  }

  lemma StrayKeepsInv(s: State, r: Record)
    requires Inv(s) && Enabled(s, Stray(r))
    ensures Inv(Apply(s, Stray(r)))
  {
    var t := Apply(s, Stray(r));
    forall c | c in t.conns && !t.conns[c].Idle? ensures Clause(t, c, t.conns[c]) {
      assert Clause(s, c, s.conns[c]);
    }
    forall q | q in t.answered ensures Promise(t, q, t.answered[q]) {
      PromiseEvolves(s, t, q, s.answered[q]);
    }
  }

  lemma CrashKeepsInv(s: State, left: Directory, config: Config)
    requires Inv(s) && Enabled(s, Crash(left, config))
    ensures Inv(Apply(s, Crash(left, config)))
  {
    var t := Apply(s, Crash(left, config));
    CrashKeepsSpool(s, left, config);
    forall k | k in left ensures left[k].rec < |s.submitted| {
      assert (k in s.disk.dur && left[k] == s.disk.dur[k]) || MaySurvive(s.disk, k, left[k], s.lock.Synced?);
    }
    forall r | r in t.answered ensures Promise(t, r, t.answered[r]) {
      CrashEvolves(s, left, config, r);
      PromiseEvolves(s, t, r, s.answered[r]);
    }
  }

  lemma StepKeepsInv(s: State, step: Step)
    requires Inv(s) && Enabled(s, step)
    ensures Inv(Apply(s, step))
  {
    match step
    case Line(l) => LineKeepsInv(s, l);
    case Drain(d) => DrainKeepsInv(s, d);
    case Push(p) => PushKeepsInv(s, p);
    case Stray(r) => StrayKeepsInv(s, r);
    case Crash(left, config) => CrashKeepsInv(s, left, config);
  }

  lemma {:induction false} RunKeepsInv(s: State, steps: seq<Step>)
    requires Inv(s) && Legal(s, steps)
    ensures Inv(Exec(s, steps))
    decreases |steps|
  {
    if steps != [] {
      StepKeepsInv(s, steps[0]);
      RunKeepsInv(Apply(s, steps[0]), steps[1..]);
    }
  }

  /**
   Conservation, over every run of the sidecar: once a record has been answered, then at every later
   point an accepted one is with the service and not in the spool, a spooled one is with the service, or was refused out
   there, or dropped here, or is whole and durable on disk; and a record answered rejected or refused for
   want of room has no copy in the spool, torn or whole, while one answered with an error has no whole copy.
   */
  lemma AnsweredRecordsAreNotLost(config: Config, steps: seq<Step>, s: State, later: seq<Step>, r: Record)
    requires Reached(config, steps, s) && Legal(s, later) && r in s.answered
    ensures r in Exec(s, later).answered && Exec(s, later).answered[r] == s.answered[r]
    ensures Promise(Exec(s, later), r, s.answered[r])
  {
    StartInv(config);
    RunKeepsInv(Start(config), steps);
    RunKeepsInv(s, later);
    AnswersStand(s, later, r);
  }

  lemma {:induction false} AnswersStand(s: State, steps: seq<Step>, r: Record)
    requires Inv(s) && Legal(s, steps) && r in s.answered
    ensures r in Exec(s, steps).answered && Exec(s, steps).answered[r] == s.answered[r]
    decreases |steps|
  {
    if steps != [] {
      StepKeepsInv(s, steps[0]);
      AnswerStands(s, steps[0], r);
      AnswersStand(Apply(s, steps[0]), steps[1..], r);
    }
  }

  lemma AnswerStands(s: State, step: Step, r: Record)
    requires AnsweredDone(s) && Enabled(s, step) && r in s.answered
    ensures r in Apply(s, step).answered && Apply(s, step).answered[r] == s.answered[r]
  {
  }
}
