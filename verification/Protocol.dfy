/**
 The sidecar's durable write protocol as a labelled transition system: any number of caller
 connections, flushers (a connection's own, the retry timer's, the shutdown flush), one
 mutex-guarded spool over a directory that has a volatile and a durable view, a service that may
 take a record and lose the answer, and crashes at any point.

 Assumptions about the world, all visible in `Enabled` and `CrashLeaves`:
 - a successful fsync is durable; a name created or removed since the last directory sync may or may
   not survive a crash, and an unsynced file may survive torn; a failed fsync counts as a crash;
 - the service answers a success only for a record it has, and never takes a torn entry, because a
   truncated envelope does not open;
 - nobody else edits the spool directory.
 Acceptance of a record whose post has already been given up on is the separate step `Stray`. What an
 attempt can run into on this side depends on the configuration, which a restart may change.
 */
module Protocol {
  import opened Outcomes
  import opened Sets
  import opened Names

  /** One submission: the position of its line among all lines ever handed to `submit`. */
  type Record = nat
  type ConnId = nat
  type Agent = string

  /** What a start reads, as far as the protocol depends on it. */
  datatype Config = Config(
    endpoint: bool,     // the base URL names a host
    keys: set<Agent>,   // the agents with a signing key
    capacity: nat       // how many entries the spool takes
  )

  /** What an entry file holds: the framed record, or a torn beginning of it. */
  datatype File = File(rec: Record, whole: bool)

  /** Entry files by sequence number. */
  type Directory = map<nat, File>

  /** Where a connection is in `submit` and in answering for it. */
  datatype Conn =
    | Idle
    | Checking(rec: Record)                    // about to read the depth for the first time
    | Flushing(rec: Record)                    // in `flush`, waiting for the lock or draining
    | Rechecking(rec: Record)                  // about to read the depth again
    | Posting(rec: Record)                     // the direct post, outside the lock
    | Pushing(rec: Record)                     // in `push`, waiting for the lock or writing
    | Answering(rec: Record, outcome: Outcome) // `submit` has returned

  /** Who is draining. */
  datatype Flusher = Caller(conn: ConnId) | Background

  /** The spool mutex, with how far its holder has got. */
  datatype Lock =
    | Free
    | Looking(who: Flusher)            // between entries
    | Sending(who: Flusher, at: nat)   // entry `at` is with the poster
    | Decided(who: Flusher, at: nat)   // the verdict allows removing it
    | Removed(who: Flusher, at: nat)   // unlinked, directory not yet synced
    | Created(conn: ConnId)           // `create_new` done
    | Written(conn: ConnId)           // `write_all` done
    | Synced(conn: ConnId)            // file synced, directory not yet

  /** The spool directory in both views, with the number the next push will use. */
  datatype Disk = Disk(
    vol: Directory,   // what a listing shows
    dur: Directory,   // what the last directory sync made durable
    next: nat
  )

  datatype State = State(
    disk: Disk,
    lock: Lock,
    config: Config,
    conns: map<ConnId, Conn>,
    callers: seq<Agent>,            // whose socket each connection came in on
    submitted: seq<ConnId>,         // history: which connection sent each record
    log: seq<Record>,               // history: the service's acceptances, in order
    refused: set<Record>,           // history: records the service, or something before it, refused for good
    dropped: set<Record>,           // history: records whose entry was given up here, unsent or not whole
    posted: set<Record>,            // history: records that may have left for the service
    answered: map<Record, Status>,  // history: the answers given
    vanished: set<Conn>,            // history: what connections had in hand when they ended unanswered
    found: nat,                     // entries found when the spool was opened
    torn: bool                      // history: a write has failed since the spool was opened
  )

  /** Steps of a connection and of the service it posts to. */
  datatype LineStep =
    | Connect(agent: Agent)
    | Hangup(c: ConnId)
    | Submit(c: ConnId, vetted: Outcome)   // Ok: parsed, vetted, redacted and sealed
    | DepthFails(c: ConnId)
    | FirstDepth(c: ConnId)
    | SecondDepth(c: ConnId)
    | TakeDirect(c: ConnId)                // the service takes the record being posted
    | DirectVerdict(c: ConnId, a: Attempt)
    | Answer(c: ConnId)

  /** Steps of whoever drains, and of the service it posts to. */
  datatype DrainStep =
    | StartDrain(who: Flusher)
    | Hand(at: nat)                        // read the oldest entry and pass it to the poster
    | Take                                 // the service takes the entry in flight
    | Verdict(a: Attempt)                  // what the poster ran into
    | VerdictLost                          // the poster vanished, which counts as `Spooled`
    | Unlink
    | SyncRemoval
    | EndDrain
    | DrainFails                           // a listing, a read or an unlink failed, or the thread died

  /** Steps of one `push`. */
  datatype PushStep =
    | PushRefused(c: ConnId, why: Outcome) // full, or the listing or the exclusive create failed
    | Create(c: ConnId)
    | Write
    | WriteFails
    | SyncFile
    | SyncPush

  datatype Step =
    | Line(l: LineStep)
    | Drain(d: DrainStep)
    | Push(p: PushStep)
    | Stray(r: Record)                     // the service takes a post that was given up on
    | Crash(left: Directory, config: Config)  // and reopening what it left, under this configuration

  predicate IsMin(d: Directory, at: nat) {
    at in d && forall k :: k in d ==> at <= k
  }

  /** What `open` takes as the next sequence number. */
  ghost predicate IsNext(d: Directory, next: nat) {
    && (forall k :: k in d ==> k < next)
    && (next != 0 ==> next - 1 in d)
  }

  ghost function NextOf(d: Directory): nat {
    if exists n: nat :: IsNext(d, n) then var n: nat :| IsNext(d, n); n else 0
  }

  /** What an unsynced file may look like after a crash; `intact` when its contents were synced. */
  predicate MaySurvive(d: Disk, k: nat, f: File, intact: bool) {
    && k in d.vol
    && f.rec == d.vol[k].rec
    && (f.whole ==> d.vol[k].whole)
    && (intact && k == d.next ==> f == d.vol[k])
  }

  predicate Durable(d: Disk, k: nat, f: File) {
    k in d.vol && k in d.dur && d.vol[k] == f && d.dur[k] == f
  }

  /** The directories a crash may leave behind. */
  ghost predicate CrashLeaves(d: Disk, intact: bool, left: Directory) {
    && (forall k, f :: Durable(d, k, f) ==> k in left && left[k] == f)
    && (forall k :: k in left ==> (k in d.dur && left[k] == d.dur[k]) || MaySurvive(d, k, left[k], intact))
  }

  predicate Draining(lock: Lock) {
    lock.Looking? || lock.Sending? || lock.Decided? || lock.Removed?
  }

  predicate Writing(lock: Lock) {
    lock.Created? || lock.Written? || lock.Synced?
  }

  predicate At(s: State, c: ConnId, conn: Conn) {
    c in s.conns && s.conns[c] == conn
  }

  /** The record a connection is working on. */
  function RecordOf(s: State, c: ConnId): Record {
    if c in s.conns && !s.conns[c].Idle? then s.conns[c].rec else 0
  }

  function Move(s: State, c: ConnId, conn: Conn): State {
    s.(conns := s.conns[c := conn])
  }

  /** Whose record this is. */
  function AgentOf(s: State, r: Record): Agent {
    if r < |s.submitted| && s.submitted[r] < |s.callers| then s.callers[s.submitted[r]] else ""
  }

  /** An attempt for this agent gets as far as sending. */
  predicate CanSend(config: Config, agent: Agent) {
    agent in config.keys && config.endpoint
  }

  /** So does a replay of its spool entry: an entry that names no agent does not unframe. */
  predicate CanReplay(config: Config, agent: Agent) {
    CanSend(config, agent) && agent != ""
  }

  /**
   What an attempt for this agent can run into: the faults on this side in the order they are looked for. A
   request can always be built, because a vetted name fits a header (`Frames.VettedNamesFitAHeader`).
   */
  predicate CanRunInto(config: Config, agent: Agent, a: Attempt) {
    match a
    case Corrupt => false
    case NoCredential => agent !in config.keys
    case NoEndpoint => agent in config.keys && !config.endpoint
    case NoRequest => false
    case _ => CanSend(config, agent)
  }

  /** The flusher gives the lock back; a connection that was flushing goes on, or answers `Io`. */
  function Release(s: State, failed: bool): State
    requires Draining(s.lock)
  {
    var t := s.(lock := Free);
    match s.lock.who
    case Background => t
    case Caller(c) =>
      Move(t, c, if failed then Answering(RecordOf(s, c), Io) else Rechecking(RecordOf(s, c)))
  }

  /** A record about to be posted may have left, if its attempt gets as far as sending. */
  function Leave(s: State, r: Record): State {
    if CanSend(s.config, AgentOf(s, r)) then s.(posted := s.posted + {r}) else s
  }

  /** So may one about to be replayed. */
  function LeaveSpool(s: State, r: Record): State {
    if CanReplay(s.config, AgentOf(s, r)) then s.(posted := s.posted + {r}) else s
  }

  predicate LineEnabled(s: State, step: LineStep) {
    match step
    case Connect(agent) => agent in s.config.keys
    case Hangup(c) => At(s, c, Idle) || (c in s.conns && s.conns[c].Answering?)
    case Submit(c, vetted) =>
      && At(s, c, Idle) && vetted in {Ok, Rejected, Crypto}
      && (vetted == Ok && c < |s.callers| ==> !HasControl(s.callers[c]))
    case DepthFails(c) => At(s, c, Checking(RecordOf(s, c))) || At(s, c, Rechecking(RecordOf(s, c)))
    case FirstDepth(c) => s.lock.Free? && At(s, c, Checking(RecordOf(s, c)))
    case SecondDepth(c) => s.lock.Free? && At(s, c, Rechecking(RecordOf(s, c)))
    case TakeDirect(c) => At(s, c, Posting(RecordOf(s, c))) && RecordOf(s, c) in s.posted
    case DirectVerdict(c, a) =>
      && At(s, c, Posting(RecordOf(s, c))) && CanRunInto(s.config, AgentOf(s, RecordOf(s, c)), a)
      && (VerdictOf(a) == Ok ==> RecordOf(s, c) in s.log)
    case Answer(c) => c in s.conns && s.conns[c].Answering?
  }

  function LineApply(s: State, step: LineStep): State
    requires LineEnabled(s, step)
  {
    match step
    case Connect(agent) => Move(s, |s.callers|, Idle).(callers := s.callers + [agent])
    case Hangup(c) =>
      s.(conns := s.conns - {c}, vanished := if s.conns[c].Idle? then s.vanished else s.vanished + {s.conns[c]})
    case Submit(c, vetted) =>
      var r := |s.submitted|;
      Move(s, c, if vetted == Ok then Checking(r) else Answering(r, vetted)).(submitted := s.submitted + [c])
    case DepthFails(c) => Move(s, c, Answering(RecordOf(s, c), Io))
    case FirstDepth(c) =>
      Move(s, c, if |s.disk.vol| > 0 then Flushing(RecordOf(s, c)) else Rechecking(RecordOf(s, c)))
    case SecondDepth(c) =>
      var r := RecordOf(s, c);
      if |s.disk.vol| > 0 then Move(s, c, Pushing(r)) else Leave(Move(s, c, Posting(r)), r)
    case TakeDirect(c) => s.(log := s.log + [RecordOf(s, c)])
    case DirectVerdict(c, a) =>
      var r := RecordOf(s, c);
      if VerdictOf(a) == Spooled then Move(s, c, Pushing(r))
      else Move(s, c, Answering(r, VerdictOf(a))).(refused := if IsRefusal(a) then s.refused + {r} else s.refused)
    case Answer(c) =>
      Move(s, c, Idle).(answered := s.answered[RecordOf(s, c) := StatusOf(s.conns[c].outcome)])
  }

  /** What an attempt at a spool entry can run into: one that names no agent does not unframe, a torn one may not. */
  predicate EntryRunsInto(config: Config, agent: Agent, f: File, a: Attempt) {
    if a.Corrupt? then agent == "" || !f.whole else agent != "" && CanRunInto(config, agent, a)
  }

  /** A whole entry answered with a final no was refused out there; any other one given up was dropped here. */
  function GiveUp(s: State, f: File, a: Attempt): State {
    if VerdictOf(a) != Rejected then s
    else if f.whole && IsRefusal(a) then s.(refused := s.refused + {f.rec})
    else s.(dropped := s.dropped + {f.rec})
  }

  predicate DrainEnabled(s: State, step: DrainStep) {
    match step
    case StartDrain(who) =>
      s.lock.Free? && (who.Caller? ==> At(s, who.conn, Flushing(RecordOf(s, who.conn))))
    case Hand(at) => s.lock.Looking? && IsMin(s.disk.vol, at)
    case Take =>
      && s.lock.Sending? && s.lock.at in s.disk.vol && s.disk.vol[s.lock.at].whole
      && s.disk.vol[s.lock.at].rec in s.posted && CanReplay(s.config, AgentOf(s, s.disk.vol[s.lock.at].rec))
    case Verdict(a) =>
      && s.lock.Sending? && s.lock.at in s.disk.vol
      && EntryRunsInto(s.config, AgentOf(s, s.disk.vol[s.lock.at].rec), s.disk.vol[s.lock.at], a)
      && (VerdictOf(a) == Ok ==> s.disk.vol[s.lock.at].whole && s.disk.vol[s.lock.at].rec in s.log)
    case VerdictLost => s.lock.Sending?
    case Unlink => s.lock.Decided?
    case SyncRemoval => s.lock.Removed?
    case EndDrain => s.lock.Looking? && s.disk.vol == map[]
    case DrainFails => s.lock.Looking? || s.lock.Sending? || s.lock.Decided?
  }

  function DrainApply(s: State, step: DrainStep): State
    requires DrainEnabled(s, step)
  {
    match step
    case StartDrain(who) => s.(lock := Looking(who))
    case Hand(at) =>
      var f := s.disk.vol[at];
      var t := s.(lock := Sending(s.lock.who, at));
      if f.whole then LeaveSpool(t, f.rec) else t
    case Take => s.(log := s.log + [s.disk.vol[s.lock.at].rec])
    case Verdict(a) =>
      if VerdictOf(a) == Spooled then Release(s, false)
      else GiveUp(s, s.disk.vol[s.lock.at], a).(lock := Decided(s.lock.who, s.lock.at))
    case VerdictLost => Release(s, false)
    case Unlink =>
      s.(disk := s.disk.(vol := s.disk.vol - {s.lock.at}), lock := Removed(s.lock.who, s.lock.at))
    case SyncRemoval => s.(disk := s.disk.(dur := s.disk.vol), lock := Looking(s.lock.who))
    case EndDrain => Release(s, false)
    case DrainFails => Release(s, true)
  }

  predicate PushEnabled(s: State, step: PushStep) {
    match step
    case PushRefused(c, why) =>
      && s.lock.Free? && At(s, c, Pushing(RecordOf(s, c)))
      && (why == Io || (why == SpoolFull && |s.disk.vol| >= s.config.capacity))
    case Create(c) =>
      && s.lock.Free? && At(s, c, Pushing(RecordOf(s, c)))
      && |s.disk.vol| < s.config.capacity && s.disk.next !in s.disk.vol
    case Write => s.lock.Created?
    case WriteFails => s.lock.Created?
    case SyncFile => s.lock.Written?
    case SyncPush => s.lock.Synced?
  }

  function PushApply(s: State, step: PushStep): State
    requires PushEnabled(s, step)
  {
    match step
    case PushRefused(c, why) => Move(s, c, Answering(RecordOf(s, c), why))
    case Create(c) =>
      s.(disk := s.disk.(vol := s.disk.vol[s.disk.next := File(RecordOf(s, c), false)]), lock := Created(c))
    case Write =>
      var c := s.lock.conn;
      s.(disk := s.disk.(vol := s.disk.vol[s.disk.next := File(RecordOf(s, c), true)]), lock := Written(c))
    case WriteFails =>
      Move(s, s.lock.conn, Answering(RecordOf(s, s.lock.conn), Io)).(lock := Free, torn := true)
    case SyncFile => s.(lock := Synced(s.lock.conn))
    case SyncPush =>
      Move(s, s.lock.conn, Answering(RecordOf(s, s.lock.conn), Spooled))
      .(disk := Disk(s.disk.vol, s.disk.vol, s.disk.next + 1), lock := Free)
  }

  /** What the connections have in hand. */
  function InHands(s: State): set<Conn> {
    set c | c in s.conns && !s.conns[c].Idle? :: s.conns[c]
  }

  /** What has to hold for a step to be taken. */
  ghost predicate Enabled(s: State, step: Step) {
    match step
    case Line(l) => LineEnabled(s, l)
    case Drain(d) => DrainEnabled(s, d)
    case Push(p) => PushEnabled(s, p)
    case Stray(r) => r in s.posted
    case Crash(left, _) => CrashLeaves(s.disk, s.lock.Synced?, left)
  }

  /** The state a step leads to. */
  ghost function Apply(s: State, step: Step): State
    requires Enabled(s, step)
  {
    match step
    case Line(l) => LineApply(s, l)
    case Drain(d) => DrainApply(s, d)
    case Push(p) => PushApply(s, p)
    case Stray(r) => s.(log := s.log + [r])
    case Crash(left, config) =>
      s.(disk := Disk(left, left, NextOf(left)), lock := Free, config := config, conns := map[],
         vanished := s.vanished + InHands(s), found := |left|, torn := false)
  }

  /** A fresh sidecar over an empty spool. */
  function Start(config: Config): State {
    State(Disk(map[], map[], 0), Free, config, map[], [], [], [], {}, {}, {}, map[], {}, 0, false)
  }

  /** Every step of a run is enabled where it is taken. */
  ghost predicate Legal(s: State, steps: seq<Step>)
    decreases |steps|
  {
    steps == [] || (Enabled(s, steps[0]) && Legal(Apply(s, steps[0]), steps[1..]))
  }

  ghost function Exec(s: State, steps: seq<Step>): State
    requires Legal(s, steps)
    decreases |steps|
  {
    if steps == [] then s else Exec(Apply(s, steps[0]), steps[1..])
  }

  /** `s` is where this run of a fresh sidecar ends. */
  ghost predicate Reached(config: Config, steps: seq<Step>, s: State) {
    Legal(Start(config), steps) && Exec(Start(config), steps) == s
  }

  /** `open` always finds its next number, past every name on disk. */
  lemma {:induction false} NextExists(d: Directory)
    ensures IsNext(d, NextOf(d))
  {
    var n := Highest(d);
    assert IsNext(d, n);
  }

  lemma {:induction false} Highest(d: Directory) returns (n: nat)
    ensures IsNext(d, n)
    decreases |d|
  {
    if d == map[] {
      n := 0;
    } else {
      var k :| k in d;
      var rest := d - {k};
      assert |rest| < |d| by {
        assert rest.Keys < d.Keys;
        SubsetSmaller(rest.Keys, d.Keys);
      }
      var m := Highest(rest);
      n := if m <= k then k + 1 else m;
      assert forall j :: j in d ==> j == k || j in rest;
    }
  }

  lemma {:induction false} SubsetSmaller(a: set<nat>, b: set<nat>)
    requires a < b
    ensures |a| < |b|
  {
    var x :| x in b && x !in a;
    assert a <= b - {x};
    SubsetSize(a, b - {x});
  }
}
