/**
 What the emitter's exit code tells its caller, composed through `submit`, the answer line, the
 report and the exit code.
 */
module EndToEnd {
  import opened Outcomes
  import opened Protocol
  import opened Conservation
  import opened Drops
  import opened Silence
  import opened Exits

  /** How the exchange of one line for one answer can go. */
  datatype Exchange =
    | NoSocket                      // the connect failed
    | Silence(outOfTime: bool)      // a write or read failed, or the socket closed without a word
    | Unreadable                    // an answer that does not parse
    | Heard(status: Status)         // an answer

  /** `exchange` and `report`; `printed` says whether the report line could be written. */
  function ExitOf(exchange: Exchange, printed: bool): Exit {
    match exchange
    case NoSocket => ExitUnreachable
    case Silence(outOfTime) => if outOfTime then Failed else ExitUnreachable
    case Unreadable => Failed
    case Heard(AcceptedStatus) => if printed then ExitOk else Failed
    case Heard(SpooledStatus) => if printed then ExitSpooled else Failed
    case Heard(SpoolFullStatus) => if printed then Degraded else Failed
    case Heard(RejectedStatus) => ExitRejected
    case Heard(ErrorStatus) => Failed
  }

  /**
   What an emitter on connection `c` can meet: it is not there when the connect failed; it hears only what
   was answered for its record; and a socket closed without a word is one whose connection has ended with
   nothing answered.
   */
  predicate Truthful(s: State, c: ConnId, r: Record, exchange: Exchange) {
    match exchange
    case NoSocket => c >= |s.callers|
    case Silence(false) => c !in s.conns && r !in s.answered
    case Heard(status) => r in s.answered && s.answered[r] == status
    case _ => true
  }

  lemma PromiseCoversCode(s: State, r: Record, exchange: Exchange, printed: bool)
    requires exchange.Heard? ==> Promise(s, r, exchange.status)
    ensures IsSuccess(ExitOf(exchange, printed)) ==> Settled(s, r) || Kept(s.disk, r)
    ensures Code(ExitOf(exchange, printed)) == 0 ==> r in s.log
    ensures Code(ExitOf(exchange, printed)) in {8, 4} ==> !InSpool(s.disk, r)
  {
  }

  /**
   End to end, over every run: whatever the sidecar, the service and crashes do after the emitter has
   exited, a success code means the record is with the service, or was refused or dropped after having
   been spooled, or is whole and durable in the spool; code 0 means the service has it; and codes 8 and 4
   mean no copy of it is in the spool.
   */
  lemma ExitCodeIsHonest(config: Config, steps: seq<Step>, s: State, later: seq<Step>,
                         c: ConnId, r: Record, exchange: Exchange, printed: bool)
    requires Reached(config, steps, s) && Legal(s, later) && Truthful(s, c, r, exchange)
    ensures var t := Exec(s, later);
      var code := Code(ExitOf(exchange, printed));
      && (IsSuccess(ExitOf(exchange, printed)) ==> r in t.log || r in t.refused || r in t.dropped || Kept(t.disk, r))
      && (code == 0 ==> r in t.log)
      && (code == 8 || code == 4 ==> !InSpool(t.disk, r))
  {
    if exchange.Heard? {
      AnsweredRecordsAreNotLost(config, steps, s, later, r);
    }
    PromiseCoversCode(Exec(s, later), r, exchange, printed);
  }

  /** With its agent's records sendable throughout, a success code means what it says: nothing is dropped here. */
  lemma SuccessIsKeptWhileSendable(config: Config, steps: seq<Step>, s: State,
                                      c: ConnId, r: Record, exchange: Exchange, printed: bool)
    requires Reached(config, steps, s) && SendableThroughout(Start(config), steps, r)
    requires Truthful(s, c, r, exchange) && IsSuccess(ExitOf(exchange, printed))
    ensures r in s.log || r in s.refused || Kept(s.disk, r)
  {
    if s.answered[r] == SpooledStatus {
      AcknowledgedIsNeverDropped(config, steps, s, r);
    } else {
      StartInv(config);
      RunKeepsInv(Start(config), steps);
      assert Promise(s, r, AcceptedStatus);
    }
  }

  /** `v` is where a connection ended with this record in hand, and it tells what may have become of it. */
  ghost predicate TracedBy(s: State, r: Record, v: Conn) {
    && v in s.vanished && !v.Idle? && v.rec == r
    && (r in s.log ==> MayBeTaken(v)) && (WholeInSpool(s.disk, r) ==> MaySpool(v))
  }

  /**
   Code 9, over every run: after a failed connect no record of this connection was ever submitted; after a
   socket closed without a word, what the service and the spool may hold of the record is told by where the
   connection was when it ended.
   */
  lemma UnreachableIsTraced(config: Config, steps: seq<Step>, s: State,
                            c: ConnId, r: Record, exchange: Exchange, printed: bool)
    requires Reached(config, steps, s) && Truthful(s, c, r, exchange)
    requires Code(ExitOf(exchange, printed)) == 9 && r < |s.submitted|
    ensures exchange.NoSocket? ==> s.submitted[r] != c
    ensures s.submitted[r] == c ==> exists v :: TracedBy(s, r, v)
  {
    StartInv(config);
    RunKeepsInv(Start(config), steps);
    assert s.submitted[r] < |s.callers|;
    if s.submitted[r] == c && exchange.Silence? {
      forall d | d in s.conns && !s.conns[d].Idle? ensures s.conns[d].rec != r {
        assert InHand(s.submitted, d, s.conns[d].rec);
      }
      var v := UnansweredIsTraced(config, steps, s, r);
      assert TracedBy(s, r, v);
    }
  }
}
