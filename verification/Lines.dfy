/**
 One caller connection: a byte stream that arrives in arbitrary pieces, read a line at a time under a
 bound, each non-blank line submitted and answered before the next is read.
 */
module Lines {
  import opened Outcomes
  import opened Utf8
  import opened Frames

  const RETURN: Byte := 0x0D

  function Flatten(pieces: seq<seq<Byte>>): seq<Byte> {
    if pieces == [] then [] else pieces[0] + Flatten(pieces[1..])
  }

  /** The length of the first line, its newline included, or of everything when there is none. */
  function LineLength(s: seq<Byte>): (n: nat)
    ensures n <= |s| && (s != [] ==> n > 0)
  {
    var at := FirstNewline(s);
    if at < |s| then at + 1 else at
  }

  /** The stream cut into lines, each with its newline; the last may lack one. */
  function Segments(s: seq<Byte>): seq<seq<Byte>> {
    if s == [] then [] else [s[..LineLength(s)]] + Segments(s[LineLength(s)..])
  }

  predicate IsBreak(b: Byte) {
    b == NEWLINE || b == RETURN
  }

  /** A line without the line-break bytes at its end. */
  function Trimmed(line: seq<Byte>): seq<Byte> {
    if line != [] && IsBreak(line[|line| - 1]) then Trimmed(line[..|line| - 1]) else line
  }

  /** Nothing but break bytes goes, and all of them at the end go. */
  lemma {:induction false} TrimmedIsExact(line: seq<Byte>)
    ensures Trimmed(line) <= line
    ensures forall i :: |Trimmed(line)| <= i < |line| ==> IsBreak(line[i])
    ensures Trimmed(line) != [] ==> !IsBreak(Trimmed(line)[|Trimmed(line)| - 1])
    decreases |line|
  {
    if line != [] && IsBreak(line[|line| - 1]) {
      TrimmedIsExact(line[..|line| - 1]);
    }
  }

  method TrimLine(line: seq<Byte>) returns (r: seq<Byte>)
    ensures r == Trimmed(line)
  {
    var end := |line|;
    assert line[..end] == line;
    while end > 0 && IsBreak(line[end - 1])
      invariant 0 <= end <= |line| && Trimmed(line[..end]) == Trimmed(line)
    {
      assert line[..end][..end - 1] == line[..end - 1];
      end := end - 1;
    }
    r := line[..end];
  }

  /** A line: nothing after its first newline. */
  predicate IsLine(line: seq<Byte>) {
    line != [] && NEWLINE !in line[..|line| - 1]
  }

  /** The part read so far ends in its first newline. */
  predicate EndsHere(line: seq<Byte>) {
    IsLine(line) && line[|line| - 1] == NEWLINE
  }

  lemma FirstLineIsLine(s: seq<Byte>)
    requires s != []
    ensures IsLine(s[..LineLength(s)])
    ensures LineLength(s) < |s| ==> s[LineLength(s) - 1] == NEWLINE
  {
    var n := LineLength(s);
    assert s[..n][..n - 1] == s[..FirstNewline(s)][..n - 1];
  }

  lemma FlattenSplits(first: seq<Byte>, rest: seq<seq<Byte>>)
    ensures Flatten([first] + rest) == first + Flatten(rest)
  {
    assert ([first] + rest)[1..] == rest;
  }

  /** The cutting loses nothing. */
  lemma {:induction false} SegmentsLoseNothing(s: seq<Byte>)
    ensures Flatten(Segments(s)) == s
    decreases |s|
  {
    if s != [] {
      var n := LineLength(s);
      SegmentsLoseNothing(s[n..]);
      FlattenSplits(s[..n], Segments(s[n..]));
      assert s == s[..n] + s[n..];
    }
  }

  /** It cuts after each newline, and nowhere else. */
  lemma {:induction false} SegmentsAreTheLines(s: seq<Byte>, i: nat)
    requires i < |Segments(s)|
    ensures IsLine(Segments(s)[i])
    ensures i + 1 < |Segments(s)| ==> EndsHere(Segments(s)[i])
    decreases i
  {
    FirstLineIsLine(s);
    if i > 0 { SegmentsAreTheLines(s[LineLength(s)..], i - 1); }
  }

  /** How many lines come before the first one over the bound. */
  function Fitting(lines: seq<seq<Byte>>, max: nat): (n: nat)
    ensures n <= |lines|
    ensures forall i :: 0 <= i < n ==> |lines[i]| <= max
    ensures n < |lines| ==> |lines[n]| > max
  {
    if lines == [] || |lines[0]| > max then 0 else 1 + Fitting(lines[1..], max)
  }

  /** The records among some lines: trimmed, blank ones dropped. */
  function Records(lines: seq<seq<Byte>>): seq<seq<Byte>> {
    if lines == [] then []
    else if Trimmed(lines[0]) == [] then Records(lines[1..])
    else [Trimmed(lines[0])] + Records(lines[1..])
  }

  /** What a connection over the whole stream submits. */
  function Wanted(s: seq<Byte>, max: nat): seq<seq<Byte>> {
    Records(Segments(s)[..Fitting(Segments(s), max)])
  }

  /** Whether the stream has a line over the bound, the newline counted in. */
  predicate Overruns(s: seq<Byte>, max: nat) {
    Fitting(Segments(s), max) < |Segments(s)|
  }

  lemma LineIsWanted(s: seq<Byte>, max: nat)
    requires s != [] && LineLength(s) <= max
    ensures var line, rest := s[..LineLength(s)], s[LineLength(s)..];
      && Wanted(s, max) == (if Trimmed(line) == [] then [] else [Trimmed(line)]) + Wanted(rest, max)
      && (Overruns(s, max) <==> Overruns(rest, max))
  {
    OneMoreLine(s[..LineLength(s)], Segments(s[LineLength(s)..]), max);
  }

  lemma OneMoreLine(line: seq<Byte>, lines: seq<seq<Byte>>, max: nat)
    requires |line| <= max
    ensures var all := [line] + lines;
      && Fitting(all, max) == 1 + Fitting(lines, max)
      && Records(all[..Fitting(all, max)]) ==
           (if Trimmed(line) == [] then [] else [Trimmed(line)]) + Records(lines[..Fitting(lines, max)])
  {
    var all := [line] + lines;
    var n := Fitting(lines, max);
    assert all[1..] == lines;
    assert all[..n + 1][0] == line && all[..n + 1][1..] == lines[..n];
  }

  lemma WantedByLines(s: seq<Byte>, max: nat)
    ensures s == [] ==> Wanted(s, max) == [] && !Overruns(s, max)
    ensures s != [] && LineLength(s) > max ==> Wanted(s, max) == [] && Overruns(s, max)
    ensures s != [] && LineLength(s) <= max ==>
              var line, rest := s[..LineLength(s)], s[LineLength(s)..];
              && Wanted(s, max) == (if Trimmed(line) == [] then [] else [Trimmed(line)]) + Wanted(rest, max)
              && (Overruns(s, max) <==> Overruns(rest, max))
  {
    if s != [] && LineLength(s) <= max { LineIsWanted(s, max); }
  }

  /** The buffered read half of a socket: what has arrived or will arrive, piece by piece, until the end. */
  class Reader {
    var pieces: seq<seq<Byte>>

    constructor (pieces: seq<seq<Byte>>)
      requires forall i :: 0 <= i < |pieces| ==> pieces[i] != []
      ensures Valid() && Rest() == Flatten(pieces)
    {
      this.pieces := pieces;
    }

    ghost predicate Valid()
      reads this
    {
      forall i :: 0 <= i < |pieces| ==> pieces[i] != []
    }

    ghost function Rest(): seq<Byte>
      reads this
    {
      Flatten(pieces)
    }

    method Consume(n: nat)
      requires Valid() && pieces != [] && n <= |pieces[0]|
      modifies this
      ensures Valid() && Rest() == old(Rest())[n..]
      ensures |Rest()| == |old(Rest())| - n
    {
      var piece := pieces[0];
      var tail := pieces[1..];
      assert Flatten(pieces) == piece + Flatten(tail);
      if n == |piece| {
        assert (piece + Flatten(tail))[n..] == Flatten(tail);
        pieces := tail;
      } else {
        pieces := [piece[n..]] + tail;
        assert pieces[1..] == tail;
        assert Flatten(pieces) == piece[n..] + Flatten(tail);
      }
    }

    /** `read_until` a newline through `take(limit)`: at most `limit` bytes, piece by piece. */
    method ReadUntil(limit: nat) returns (line: seq<Byte>)
      requires Valid() && limit > 0
      modifies this
      ensures Valid() && old(Rest()) == line + Rest()
      ensures |line| == if LineLength(old(Rest())) <= limit then LineLength(old(Rest())) else limit
    {
      line := [];
      var found := false;
      ghost var whole := Rest();
      while !found && |line| < limit && pieces != []
        invariant Valid() && whole == line + Rest() && |line| <= limit
        invariant if found then EndsHere(line) else NEWLINE !in line
        decreases !found, |Rest()|
      {
        var room := limit - |line|;
        var available := if |pieces[0]| <= room then pieces[0] else pieces[0][..room];
        var at := FirstNewline(available);
        found := at < |available|;
        var taken := if found then at + 1 else at;
        TakingKeepsTheStream(line, pieces, available, taken);
        NextPart(line, available);
        line := line + available[..taken];
        Consume(taken);
      }
      NewlineSettlesLength(whole, line, found);
    }
  }

  lemma TakingKeepsTheStream(line: seq<Byte>, pieces: seq<seq<Byte>>, available: seq<Byte>, taken: nat)
    requires pieces != [] && available <= pieces[0] && taken <= |available|
    ensures line + Flatten(pieces) == line + available[..taken] + Flatten(pieces)[taken..]
  {
    assert Flatten(pieces)[..taken] == available[..taken];
  }

  lemma NextPart(line: seq<Byte>, available: seq<Byte>)
    requires NEWLINE !in line
    ensures var at := FirstNewline(available);
            if at < |available| then EndsHere(line + available[..at + 1]) else NEWLINE !in line + available[..at]
  {
    var at := FirstNewline(available);
    if at < |available| {
      var all := line + available[..at + 1];
      assert all[..|all| - 1] == line + available[..at];
    }
  }

  lemma NewlineSettlesLength(whole: seq<Byte>, line: seq<Byte>, found: bool)
    requires line <= whole
    requires if found then EndsHere(line) else NEWLINE !in line
    ensures found ==> LineLength(whole) == |line|
    ensures !found ==> LineLength(whole) >= |line|
    ensures !found && line < whole ==> LineLength(whole) > |line|
  {
    var at := FirstNewline(whole);
    if found {
      assert whole == line[..|line| - 1] + [NEWLINE] + whole[|line|..];
      FirstNewlineOf(line[..|line| - 1], whole[|line|..]);
    } else {
      assert forall i :: 0 <= i < |line| ==> whole[i] == line[i] && line[i] in line;
    }
  }

  /** What has been submitted, and what is still to come, make up what the stream wants. */
  ghost predicate Served(whole: seq<Byte>, rest: seq<Byte>, max: nat, submitted: seq<seq<Byte>>) {
    Wanted(whole, max) == submitted + Wanted(rest, max) && (Overruns(whole, max) <==> Overruns(rest, max))
  }

  /** One answer per submission, in order. */
  ghost predicate AnsweredInOrder(submit: (nat, seq<Byte>) -> Outcome, submitted: seq<seq<Byte>>, answers: seq<Status>) {
    |submitted| <= |answers| && forall i :: 0 <= i < |submitted| ==> answers[i] == StatusOf(submit(i, submitted[i]))
  }

  /** Between two turns: served so far, and one answer for each submission. */
  ghost predicate Midway(whole: seq<Byte>, rest: seq<Byte>, max: nat, submit: (nat, seq<Byte>) -> Outcome,
                         submitted: seq<seq<Byte>>, answers: seq<Status>) {
    Served(whole, rest, max, submitted) && AnsweredInOrder(submit, submitted, answers) && |answers| == |submitted|
  }

  lemma ServedOn(whole: seq<Byte>, rest: seq<Byte>, line: seq<Byte>, after: seq<Byte>, max: nat, submitted: seq<seq<Byte>>)
    requires Served(whole, rest, max, submitted) && rest == line + after
    requires 0 < |line| <= max && LineLength(rest) == |line|
    ensures Served(whole, after, max, if Trimmed(line) == [] then submitted else submitted + [Trimmed(line)])
  {
    assert rest[..|line|] == line && rest[|line|..] == after;
    LineIsWanted(rest, max);
    Joins(submitted, if Trimmed(line) == [] then [] else [Trimmed(line)], Wanted(after, max));
  }

  lemma Joins(a: seq<seq<Byte>>, b: seq<seq<Byte>>, c: seq<seq<Byte>>)
    ensures a + (b + c) == a + b + c && a + [] == a
  {
  }

  lemma NextLine(whole: seq<Byte>, rest: seq<Byte>, line: seq<Byte>, after: seq<Byte>, max: nat,
                 submit: (nat, seq<Byte>) -> Outcome, submitted: seq<seq<Byte>>, answers: seq<Status>)
    requires Midway(whole, rest, max, submit, submitted, answers) && rest == line + after
    requires 0 < |line| <= max && LineLength(rest) == |line|
    ensures Trimmed(line) == [] ==> Midway(whole, after, max, submit, submitted, answers)
    ensures Trimmed(line) != [] ==>
              Midway(whole, after, max, submit, submitted + [Trimmed(line)],
                     answers + [StatusOf(submit(|submitted|, Trimmed(line)))])
  {
    ServedOn(whole, rest, line, after, max, submitted);
  }

  /**
   What a connection did with its stream: it submitted a beginning of what the stream wants, answered
   each submission once and in order, and answered once more, with a rejection, only for a line over the
   bound after everything before it; undisturbed, it submitted everything and so answered.
   */
  ghost predicate Conduct(whole: seq<Byte>, max: nat, submit: (nat, seq<Byte>) -> Outcome,
                          submitted: seq<seq<Byte>>, answers: seq<Status>, undisturbed: bool) {
    && submitted <= Wanted(whole, max)
    && AnsweredInOrder(submit, submitted, answers)
    && |answers| <= |submitted| + 1
    && (|answers| > |submitted| ==>
          answers[|submitted|] == RejectedStatus && Overruns(whole, max) && submitted == Wanted(whole, max))
    && (undisturbed ==> submitted == Wanted(whole, max) && (|answers| > |submitted| <==> Overruns(whole, max)))
  }

  lemma StopsEarly(whole: seq<Byte>, rest: seq<Byte>, max: nat, submit: (nat, seq<Byte>) -> Outcome,
                   submitted: seq<seq<Byte>>, answers: seq<Status>)
    requires Midway(whole, rest, max, submit, submitted, answers)
    ensures Conduct(whole, max, submit, submitted, answers, false)
  {
  }

  lemma StreamOver(whole: seq<Byte>, rest: seq<Byte>, max: nat, submit: (nat, seq<Byte>) -> Outcome,
                   submitted: seq<seq<Byte>>, answers: seq<Status>)
    requires Midway(whole, rest, max, submit, submitted, answers)
    requires rest == [] || LineLength(rest) > max
    ensures Conduct(whole, max, submit, submitted, if rest == [] then answers else answers + [RejectedStatus], true)
  {
    WantedByLines(rest, max);
    assert submitted + [] == submitted;
  }

  /**
   The loop of `serve_connection` once the peer is known to own the socket. `submit(i, line)` is the
   i-th submission's outcome; `stops(k)` says whether, at the k-th turn, shutdown or a failed read
   comes before a line; `writable(j)` whether the j-th answer can be written. `answers` are the answers
   attempted; `peak` is the longest line ever held.
   */
  method ServeConnection(reader: Reader, max: nat, submit: (nat, seq<Byte>) -> Outcome,
                         stops: nat -> bool, writable: nat -> bool)
    returns (submitted: seq<seq<Byte>>, answers: seq<Status>, peak: nat)
    requires reader.Valid()
    modifies reader
    ensures Conduct(old(reader.Rest()), max, submit, submitted, answers,
                    (forall k :: !stops(k)) && (forall j :: writable(j)))
    ensures peak <= max + 1
  {
    submitted, answers, peak := [], [], 0;
    ghost var whole := reader.Rest();
    ghost var disturbed := false;
    var turn, open := 0, true;
    while open
      invariant reader.Valid() && peak <= max + 1
      invariant if open then Midway(whole, reader.Rest(), max, submit, submitted, answers)
                else Conduct(whole, max, submit, submitted, answers, !disturbed)
      invariant disturbed ==> (exists k :: stops(k)) || (exists j :: !writable(j))
      decreases open, |reader.Rest()|
    {
      StopsEarly(whole, reader.Rest(), max, submit, submitted, answers);
      if stops(turn) {
        open, disturbed := false, true;
      } else {
        turn := turn + 1;
        ghost var rest := reader.Rest();
        var line := reader.ReadUntil(max + 1);
        peak := if |line| > peak then |line| else peak;
        if |line| == 0 || |line| > max {
          StreamOver(whole, rest, max, submit, submitted, answers);
          answers := if |line| > max then answers + [StatusOf(Rejected)] else answers;
          open := false;
        } else {
          NextLine(whole, rest, line, reader.Rest(), max, submit, submitted, answers);
          var trimmed := TrimLine(line);
          if trimmed != [] {
            answers := answers + [StatusOf(submit(|submitted|, trimmed))];
            submitted := submitted + [trimmed];
            if !writable(|answers| - 1) {
              StopsEarly(whole, reader.Rest(), max, submit, submitted, answers);
              open, disturbed := false, true;
            }
          }
        }
      }
    }
  }
}
