/**
 Spool entries: the agent's name on a line of its own, then the sealed body; and the vetting that
 decides which names can get there.
 */
module Frames {
  import opened Wrappers
  import opened Names
  import opened SpoolNames
  import opened Utf8

  const NEWLINE: Byte := 0x0A

  function Frame(agent: string, body: seq<Byte>): seq<Byte> {
    Encode(agent) + [NEWLINE] + body
  }

  datatype Unframed =
    | Parts(agent: string, body: seq<Byte>)
    | NoAgentLine
    | AgentNotUtf8
    | NoAgent

  /** Where the first newline is, or the length when there is none. */
  function FirstNewline(b: seq<Byte>): (at: nat)
    ensures at <= |b|
    ensures at < |b| ==> b[at] == NEWLINE
    ensures NEWLINE !in b[..at]
  {
    if b == [] then 0
    else if b[0] == NEWLINE then 0
    else
      var at := 1 + FirstNewline(b[1..]);
      assert b[..at] == [b[0]] + b[1..][..at - 1];
      at
  }

  /** The drain drops an entry that does not unframe: no retry can make it postable. */
  function Unframe(entry: seq<Byte>): Unframed {
    var at := FirstNewline(entry);
    if at == |entry| then NoAgentLine
    else
      match Decode(entry[..at])
      case None => AgentNotUtf8
      case Some(agent) => if agent == "" then NoAgent else Parts(agent, entry[at + 1..])
  }

  lemma {:induction false} FirstNewlineOf(head: seq<Byte>, tail: seq<Byte>)
    requires NEWLINE !in head
    ensures FirstNewline(head + [NEWLINE] + tail) == |head|
    decreases |head|
  {
    var b := head + [NEWLINE] + tail;
    if head != [] {
      FirstNewlineOf(head[1..], tail);
      assert b[1..] == head[1..] + [NEWLINE] + tail;
    }
  }

  /**
   The frame is read back as what went in exactly for a name that is not empty and has no newline in
   it, whatever the body's bytes are.
   */
  lemma FrameRoundTrips(agent: string, body: seq<Byte>)
    ensures Unframe(Frame(agent, body)) == Parts(agent, body) <==> agent != "" && '\n' !in agent
  {
    AsciiStaysItself(agent, '\n');
    StringRoundTrip(agent);
    var entry := Frame(agent, body);
    if '\n' !in agent {
      FirstNewlineOf(Encode(agent), body);
      assert entry[..|Encode(agent)|] == Encode(agent);
      assert entry[|Encode(agent)| + 1..] == body;
    } else if Unframe(entry).Parts? {
      UnframedNameHasNoNewline(entry);
    }
  }

  lemma UnframedNameHasNoNewline(entry: seq<Byte>)
    requires Unframe(entry).Parts?
    ensures '\n' !in Unframe(entry).agent && Unframe(entry).agent != ""
    ensures Frame(Unframe(entry).agent, Unframe(entry).body) == entry
  {
    var at := FirstNewline(entry);
    var agent := Unframe(entry).agent;
    BytesRoundTrip(entry[..at]);
    AsciiStaysItself(agent, '\n');
    assert entry == entry[..at] + [NEWLINE] + entry[at + 1..];
  }

  /** On arbitrary bytes: a corrupt entry is refused, and any other is the frame of its own parts. */
  lemma UnframeAcceptsOnlyFrames(entry: seq<Byte>)
    ensures Unframe(entry).Parts? <==>
              exists agent, body :: agent != "" && '\n' !in agent && entry == Frame(agent, body)
  {
    if Unframe(entry).Parts? {
      UnframedNameHasNoNewline(entry);
    } else if exists agent, body :: agent != "" && '\n' !in agent && entry == Frame(agent, body) {
      var agent, body :| agent != "" && '\n' !in agent && entry == Frame(agent, body);
      FrameRoundTrips(agent, body);
    }
  }

  /** No two framed records share an entry. */
  lemma FramesAreInjective(a: string, x: seq<Byte>, b: string, y: seq<Byte>)
    requires a != "" && '\n' !in a && b != "" && '\n' !in b
    requires Frame(a, x) == Frame(b, y)
    ensures a == b && x == y
  {
    FrameRoundTrips(a, x);
    FrameRoundTrips(b, y);
  }

  /** A torn entry names its own agent or none: it reads if and only if the tear is past a name that is not empty. */
  lemma TornEntriesNameNoOther(agent: string, body: seq<Byte>, n: nat)
    requires '\n' !in agent && n <= |Frame(agent, body)|
    ensures var name := |Encode(agent)|;
      Unframe(Frame(agent, body)[..n]) ==
        if n <= name then NoAgentLine
        else if agent == "" then NoAgent
        else Parts(agent, body[..n - name - 1])
  {
    AsciiStaysItself(agent, '\n');
    var name := |Encode(agent)|;
    var torn := Frame(agent, body)[..n];
    if n <= name {
      assert torn == Encode(agent)[..n];
    } else {
      assert torn == Frame(agent, body[..n - name - 1]);
      NamesRead(agent, body[..n - name - 1]);
    }
  }

  lemma NamesRead(agent: string, body: seq<Byte>)
    requires '\n' !in agent
    ensures Unframe(Frame(agent, body)) == if agent == "" then NoAgent else Parts(agent, body)
  {
    if agent == "" {
      FirstNewlineOf([], body);
      StringRoundTrip("");
      assert Encode("") == [] && Frame("", body) == [] + [NEWLINE] + body;
      assert Frame("", body)[..0] == [];
    } else {
      FrameRoundTrips(agent, body);
    }
  }

  /** A caller's line, as far as vetting looks at it; reading the JSON and validating are not modelled. */
  datatype Line =
    | Malformed
    | Parsed(agent: string, valid: bool, internal: bool)

  datatype Vetted =
    | Vetted
    | MalformedRecord
    | InvalidRecord
    | AnotherAgent
    | ClassNotGranted
    | ControlCharacter

  function Vet(socketAgent: string, filesSubjectDerived: bool, line: Line): Vetted {
    match line
    case Malformed => MalformedRecord
    case Parsed(agent, valid, internal) =>
      if !valid then InvalidRecord
      else if agent != socketAgent then AnotherAgent
      else if !internal && !filesSubjectDerived then ClassNotGranted
      else if HasControl(agent) then ControlCharacter
      else Vetted.Vetted
  }

  /**
   What passes vetting under a name survives the spool frame under that name, exactly when the name is not
   empty: vetting lets the empty name through, and its entries are read back as naming no agent.
   */
  lemma VettedRecordsSurviveTheFrame(socketAgent: string, granted: bool, line: Line, body: seq<Byte>)
    requires Vet(socketAgent, granted, line) == Vetted.Vetted
    ensures Unframe(Frame(line.agent, body)) == if socketAgent == "" then NoAgent else Parts(socketAgent, body)
  {
    assert IsControl('\n');
    NamesRead(line.agent, body);
  }

  /** A name can belong to a record that passes vetting if and only if it has no control character. */
  lemma VettedExactlyWithoutControl(agent: string)
    ensures (exists granted, line :: Vet(agent, granted, line) == Vetted.Vetted) <==> !HasControl(agent)
  {
    if !HasControl(agent) {
      assert Vet(agent, true, Parsed(agent, true, true)) == Vetted.Vetted;
    }
  }

  /** A byte a header value may hold (section 5.5 of RFC 9110). */
  predicate FitsAHeader(b: Byte) {
    b == 0x09 || (b >= 0x20 && b != 0x7F)
  }

  /** Every byte of a vetted name may stand in a header, so the request that names the agent can be built. */
  lemma VettedNamesFitAHeader(socketAgent: string, granted: bool, line: Line, b: Byte)
    requires Vet(socketAgent, granted, line) == Vetted.Vetted && b in Encode(line.agent)
    ensures FitsAHeader(b)
  {
    if b < 0x80 {
      AsciiStaysItself(line.agent, b as char);
      var i :| 0 <= i < |line.agent| && line.agent[i] == b as char;
      assert !IsControl(line.agent[i]);
    }
  }
}
