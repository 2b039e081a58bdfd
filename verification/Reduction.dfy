/**
 Textual reduction of a path, and where it agrees with the filesystem.
 */
module Reduction {
  import opened Wrappers
  import opened FileTree

  /** `base.join(path)`, cut into pieces. */
  function Joined(base: Path, path: RawPath): seq<Name> {
    if path.absolute then path.parts else base + path.parts
  }

  /** Pieces applied to a path without asking the filesystem anything. */
  function ReduceFrom(at: Path, parts: seq<Name>): Path
    decreases |parts|
  {
    if parts == [] then at
    else if IsIdle(parts[0]) then ReduceFrom(at, parts[1..])
    else if parts[0] == UP then ReduceFrom(Parent(at), parts[1..])
    else ReduceFrom(at + [parts[0]], parts[1..])
  }

  lemma {:induction false} ReduceSplits(at: Path, before: seq<Name>, after: seq<Name>)
    ensures ReduceFrom(at, before + after) == ReduceFrom(ReduceFrom(at, before), after)
    decreases |before|
  {
    if before == [] {
      assert before + after == after;
    } else {
      assert (before + after)[0] == before[0] && (before + after)[1..] == before[1..] + after;
      var next := if IsIdle(before[0]) then at else if before[0] == UP then Parent(at) else at + [before[0]];
      ReduceSplits(next, before[1..], after);
    }
  }

  function Reduced(base: Path, path: RawPath): Path {
    ReduceFrom([], Joined(base, path))
  }

  /** `reduced`, as the loop it is. */
  method Reduce(base: Path, path: RawPath) returns (out: Path)
    ensures out == Reduced(base, path)
  {
    var joined := if path.absolute then path.parts else base + path.parts;
    out := [];
    var i := 0;
    while i < |joined|
      invariant 0 <= i <= |joined|
      invariant ReduceFrom(out, joined[i..]) == ReduceFrom([], joined)
    {
      assert joined[i..][1..] == joined[i + 1..];
      if IsIdle(joined[i]) {
      } else if joined[i] == UP {
        out := Parent(out);
      } else {
        out := out + [joined[i]];
      }
      i := i + 1;
    }
    assert joined[i..] == [];
  }

  predicate IsPlain(path: Path) {
    HERE !in path && UP !in path && NOTHING !in path
  }

  lemma {:induction false} ReductionIsPlain(at: Path, parts: seq<Name>)
    requires IsPlain(at)
    ensures IsPlain(ReduceFrom(at, parts))
    decreases |parts|
  {
    if parts != [] {
      assert IsPlain(Parent(at));
      assert !IsIdle(parts[0]) && parts[0] != UP ==> IsPlain(at + [parts[0]]);
      ReductionIsPlain(if IsIdle(parts[0]) then at else if parts[0] == UP then Parent(at) else at + [parts[0]], parts[1..]);
    }
  }

  lemma {:induction false} PlainStays(at: Path, parts: Path)
    requires IsPlain(parts)
    ensures ReduceFrom(at, parts) == at + parts
    decreases |parts|
  {
    if parts != [] {
      assert parts == [parts[0]] + parts[1..];
      assert parts[0] in parts;
      PlainStays(at + [parts[0]], parts[1..]);
      assert at + [parts[0]] + parts[1..] == at + parts;
    }
  }

  /** Reduction leaves no `.`, no `..` and no empty piece, and reducing again changes nothing, whatever the base. */
  lemma ReductionIsIdempotent(base: Path, path: RawPath, other: Path)
    ensures IsPlain(Reduced(base, path))
    ensures Reduced(other, RawPath(true, Reduced(base, path))) == Reduced(base, path)
  {
    ReductionIsPlain([], Joined(base, path));
    PlainStays([], Reduced(base, path));
    assert [] + Reduced(base, path) == Reduced(base, path);
  }

  /** A tree without symbolic links. */
  predicate NoLinks(node: Node) {
    !node.Link? && (node.Dir? ==> forall c :: c in node.children ==> NoLinks(c.node))
  }

  lemma {:induction false} NoLinksBelow(node: Node, path: Path)
    requires NoLinks(node) && At(node, path).Some?
    ensures NoLinks(At(node, path).value)
    decreases |path|
  {
    if path != [] {
      NoLinksBelow(Lookup(node.children, path[0]).value, path[1..]);
    }
  }

  /** On a tree without links, resolution that succeeds comes to what the text says. */
  lemma {:induction false} WalkIsTextual(root: Node, at: Path, todo: seq<Name>, hops: nat, last: bool)
    requires NoLinks(root) && Walk(root, at, todo, hops, last).Place?
    ensures Walk(root, at, todo, hops, last) == Place(ReduceFrom(at, todo))
    decreases |todo|
  {
    if todo != [] {
      NoLinksBelow(root, at);
      var d := At(root, at).value;
      if IsIdle(todo[0]) {
        WalkIsTextual(root, at, todo[1..], hops, last);
      } else if todo[0] == UP {
        WalkIsTextual(root, Parent(at), todo[1..], hops, last);
      } else {
        var child := Lookup(d.children, todo[0]).value;
        assert Child(todo[0], child) in d.children;
        WalkIsTextual(root, at + [todo[0]], todo[1..], hops, last);
      }
    }
  }

  lemma {:induction false} LastMeansNothing(root: Node, at: Path, todo: seq<Name>, hops: nat)
    requires NoLinks(root)
    ensures Walk(root, at, todo, hops, false) == Walk(root, at, todo, hops, true)
    decreases |todo|
  {
    if todo != [] && At(root, at).Some? && At(root, at).value.Dir? {
      NoLinksBelow(root, at);
      var found := Lookup(At(root, at).value.children, todo[0]);
      if IsIdle(todo[0]) {
        LastMeansNothing(root, at, todo[1..], hops);
      } else if todo[0] == UP {
        LastMeansNothing(root, Parent(at), todo[1..], hops);
      } else if found.Some? {
        assert Child(todo[0], found.value) in At(root, at).value.children;
        LastMeansNothing(root, at + [todo[0]], todo[1..], hops);
      }
    }
  }

  /** How many links may still be followed where `todo` leads. */
  function HopsLeft(root: Node, at: Path, todo: seq<Name>, hops: nat): nat
    decreases hops, |todo|
  {
    if todo == [] || At(root, at).None? || !At(root, at).value.Dir? then hops
    else if IsIdle(todo[0]) then HopsLeft(root, at, todo[1..], hops)
    else if todo[0] == UP then HopsLeft(root, Parent(at), todo[1..], hops)
    else
      match Lookup(At(root, at).value.children, todo[0])
      case None => hops
      case Some(child) =>
        if child.Link? then
          if hops == 0 then 0
          else HopsLeft(root, if child.target.absolute then [] else at, child.target.parts + todo[1..], hops - 1)
        else HopsLeft(root, at + [todo[0]], todo[1..], hops)
  }

  /** Resolution goes piece by piece: to where the first ones lead, and on from there. */
  lemma {:induction false} WalkSplits(root: Node, at: Path, before: seq<Name>, after: seq<Name>, hops: nat, last: bool)
    requires last || after != []
    ensures Walk(root, at, before + after, hops, last) ==
              match Walk(root, at, before, hops, true)
              case Place(p) => Walk(root, p, after, HopsLeft(root, at, before, hops), last)
              case failure => failure
    ensures Walk(root, at, before, hops, true).Place? ==>
              HopsLeft(root, at, before + after, hops) ==
                HopsLeft(root, Walk(root, at, before, hops, true).path, after, HopsLeft(root, at, before, hops))
    decreases hops, |before|
  {
    if before == [] {
      assert before + after == after;
    } else {
      var name := before[0];
      var rest := before[1..];
      assert (before + after)[0] == name && (before + after)[1..] == rest + after;
      if At(root, at).Some? && At(root, at).value.Dir? {
        var found := Lookup(At(root, at).value.children, name);
        if IsIdle(name) {
          WalkSplits(root, at, rest, after, hops, last);
        } else if name == UP {
          WalkSplits(root, Parent(at), rest, after, hops, last);
        } else if found.Some? && found.value.Link? {
          var target := found.value.target;
          if hops > 0 {
            assert target.parts + (rest + after) == target.parts + rest + after;
            WalkSplits(root, if target.absolute then [] else at, target.parts + rest, after, hops - 1, last);
          }
        } else if found.Some? {
          WalkSplits(root, at + [name], rest, after, hops, last);
        }
      }
    }
  }

  /** Where `before` leads, `name` is no link. */
  predicate NoLinkAfter(root: Node, at: Path, before: seq<Name>, name: Name, hops: nat) {
    match Walk(root, at, before, hops, true)
    case Place(p) =>
      At(root, p).Some? && At(root, p).value.Dir? && Lookup(At(root, p).value.children, name).Some? ==>
        !Lookup(At(root, p).value.children, name).value.Link?
    case _ => true
  }

  /** No piece that a `..` takes away is a link where it stands. */
  predicate UndoesNoLink(root: Node, done: Path, rest: seq<Name>, hops: nat)
    decreases |rest|
  {
    if rest == [] then true
    else if IsIdle(rest[0]) then UndoesNoLink(root, done, rest[1..], hops)
    else if rest[0] == UP then
      && (done != [] ==> NoLinkAfter(root, [], done[..|done| - 1], done[|done| - 1], hops))
      && UndoesNoLink(root, Parent(done), rest[1..], hops)
    else UndoesNoLink(root, done + [rest[0]], rest[1..], hops)
  }

  /** Where `done` leads there is a directory, and for anything but an empty piece one to search. */
  predicate Lets(root: Node, done: Path, piece: Name, hops: nat) {
    match Walk(root, [], done, hops, true)
    case Place(p) =>
      At(root, p).Some? && At(root, p).value.Dir? && (piece == NOTHING || At(root, p).value.searchable)
    case _ => false
  }

  /** Every piece that stays or goes up does so from a directory, by what the pieces before it say. */
  predicate Clear(root: Node, done: Path, rest: seq<Name>, hops: nat)
    decreases |rest|
  {
    if rest == [] then true
    else if IsIdle(rest[0]) then Lets(root, done, rest[0], hops) && Clear(root, done, rest[1..], hops)
    else if rest[0] == UP then Lets(root, done, UP, hops) && Clear(root, Parent(done), rest[1..], hops)
    else Clear(root, done + [rest[0]], rest[1..], hops)
  }

  lemma IdleResolves(root: Node, done: Path, rest: seq<Name>, hops: nat)
    requires rest != [] && IsIdle(rest[0])
    ensures var w := Walk(root, [], done + rest, hops, true);
      if Lets(root, done, rest[0], hops) then w == Walk(root, [], done + rest[1..], hops, true) else !w.Place?
  {
    WalkSplits(root, [], done, rest, hops, true);
    WalkSplits(root, [], done, rest[1..], hops, true);
  }

  /** Down by a piece that is no link and up again is nothing, if it was a directory. */
  lemma UpResolves(root: Node, done: Path, rest: seq<Name>, hops: nat)
    requires IsPlain(done) && rest != [] && rest[0] == UP
    requires done != [] ==> NoLinkAfter(root, [], done[..|done| - 1], done[|done| - 1], hops)
    ensures var w := Walk(root, [], done + rest, hops, true);
      if Lets(root, done, UP, hops) then w == Walk(root, [], Parent(done) + rest[1..], hops, true) else !w.Place?
  {
    WalkSplits(root, [], done, rest, hops, true);
    if done == [] {
      assert Parent(done) + rest[1..] == rest[1..];
    } else if Lets(root, done, UP, hops) {
      var above, name := done[..|done| - 1], done[|done| - 1];
      assert name in done && done == above + [name];
      StepBelow(root, above, name, hops);
      WalkSplits(root, [], above, rest[1..], hops, true);
    }
  }

  lemma StepBelow(root: Node, above: Path, name: Name, hops: nat)
    requires !IsIdle(name) && name != UP && NoLinkAfter(root, [], above, name, hops)
    requires Walk(root, [], above + [name], hops, true).Place?
    ensures Walk(root, [], above, hops, true).Place?
    ensures Walk(root, [], above + [name], hops, true).path == Walk(root, [], above, hops, true).path + [name]
    ensures HopsLeft(root, [], above + [name], hops) == HopsLeft(root, [], above, hops)
  {
    WalkSplits(root, [], above, [name], hops, true);
    assert [name][1..] == [];
  }

  lemma {:induction false} PiecesResolve(root: Node, done: Path, rest: seq<Name>, hops: nat)
    requires IsPlain(done) && UndoesNoLink(root, done, rest, hops)
    ensures var w := Walk(root, [], done + rest, hops, true);
      if Clear(root, done, rest, hops) then w == Walk(root, [], ReduceFrom(done, rest), hops, true) else !w.Place?
    decreases |rest|
  {
    if rest == [] {
      assert done + rest == done;
    } else if IsIdle(rest[0]) {
      IdleResolves(root, done, rest, hops);
      PiecesResolve(root, done, rest[1..], hops);
    } else if rest[0] == UP {
      UpResolves(root, done, rest, hops);
      assert IsPlain(Parent(done));
      PiecesResolve(root, Parent(done), rest[1..], hops);
    } else {
      assert done + rest == done + [rest[0]] + rest[1..];
      PiecesResolve(root, done + [rest[0]], rest[1..], hops);
    }
  }

  /**
   On any tree, links and all, for every path that takes back no link by a `..`: as written it resolves exactly
   when its reduction does and every piece that stays or goes up does so from a directory; and then to the same
   place. So the reduction may resolve where the path as written does not, and never the other way round.
   */
  lemma ResolvesExactlyWhen(disk: Disk, base: Path, path: RawPath)
    requires UndoesNoLink(disk.root, [], Joined(base, path), disk.limit)
    ensures var written := Walk(disk.root, [], Joined(base, path), disk.limit, true);
      && (written.Place? <==>
            Clear(disk.root, [], Joined(base, path), disk.limit) && Canonical(disk, Reduced(base, path)).Place?)
      && (written.Place? ==> written == Canonical(disk, Reduced(base, path)))
  {
    assert [] + Joined(base, path) == Joined(base, path);
    PiecesResolve(disk.root, [], Joined(base, path), disk.limit);
  }

  lemma {:induction false} WithoutUpNothingIsUndone(root: Node, done: Path, rest: seq<Name>, hops: nat)
    requires UP !in rest
    ensures UndoesNoLink(root, done, rest, hops)
    decreases |rest|
  {
    if rest != [] {
      assert rest[0] in rest;
      WithoutUpNothingIsUndone(root, if IsIdle(rest[0]) then done else done + [rest[0]], rest[1..], hops);
    }
  }

  lemma {:induction false} WithoutLinksNothingIsUndone(root: Node, done: Path, rest: seq<Name>, hops: nat)
    requires NoLinks(root)
    ensures UndoesNoLink(root, done, rest, hops)
    decreases |rest|
  {
    if rest != [] {
      if rest[0] == UP && done != [] { NoLinkToUndo(root, done[..|done| - 1], done[|done| - 1], hops); }
      WithoutLinksNothingIsUndone(
        root, if IsIdle(rest[0]) then done else if rest[0] == UP then Parent(done) else done + [rest[0]], rest[1..], hops);
    }
  }

  lemma NoLinkToUndo(root: Node, before: seq<Name>, name: Name, hops: nat)
    requires NoLinks(root)
    ensures NoLinkAfter(root, [], before, name, hops)
  {
    var w := Walk(root, [], before, hops, true);
    if w.Place? && At(root, w.path).Some? {
      NoLinksBelow(root, w.path);
      var d := At(root, w.path).value;
      if d.Dir? && Lookup(d.children, name).Some? { assert Child(name, Lookup(d.children, name).value) in d.children; }
    }
  }

  /**
   On a tree without symbolic links the reduced path and the path as written are the same place: when
   resolving the pieces one by one succeeds, it ends at the reduced path, and `canonicalize` of the
   reduced path succeeds and ends there too.
   */
  lemma ReductionNamesTheSamePlace(disk: Disk, base: Path, path: RawPath, last: bool)
    requires NoLinks(disk.root)
    requires Walk(disk.root, [], Joined(base, path), disk.limit, last).Place?
    ensures Walk(disk.root, [], Joined(base, path), disk.limit, last) == Place(Reduced(base, path))
    ensures Canonical(disk, Reduced(base, path)) == Place(Reduced(base, path))
  {
    WalkIsTextual(disk.root, [], Joined(base, path), disk.limit, last);
    LastMeansNothing(disk.root, [], Joined(base, path), disk.limit);
    WithoutLinksNothingIsUndone(disk.root, [], Joined(base, path), disk.limit);
    ResolvesExactlyWhen(disk, base, path);
  }

  /** Reduction of a path without `..` keeps what the path resolves to. */
  lemma ReductionKeepsPlainPaths(disk: Disk, base: Path, path: RawPath)
    requires UP !in Joined(base, path)
    requires Walk(disk.root, [], Joined(base, path), disk.limit, true).Place?
    ensures Canonical(disk, Reduced(base, path)) == Walk(disk.root, [], Joined(base, path), disk.limit, true)
  {
    WithoutUpNothingIsUndone(disk.root, [], Joined(base, path), disk.limit);
    ResolvesExactlyWhen(disk, base, path);
  }

  /** Where `link` is a link to `/a/b`, with both directories there to search. */
  predicate LinksTwoDeep(root: Node, link: Name, a: Name, b: Name) {
    && root.Dir? && root.searchable && IsPlain([link, a, b])
    && Lookup(root.children, link) == Some(Link(RawPath(true, [a, b])))
    && At(root, [a]).Some? && At(root, [a]).value.Dir? && At(root, [a]).value.searchable
    && At(root, [a, b]).Some? && At(root, [a, b]).value.Dir? && At(root, [a, b]).value.searchable
  }

  lemma WalkUpFromTwoDeep(root: Node, link: Name, a: Name, b: Name, hops: nat)
    requires LinksTwoDeep(root, link, a, b)
    ensures Walk(root, [], [a, b, UP], hops, true) == Place([a])
  {
    assert a in [link, a, b] && b in [link, a, b];
    assert [a, b, UP][1..] == [b, UP] && [b, UP][1..] == [UP] && [UP][1..] == [];
    assert [] + [a] == [a] && [a] + [b] == [a, b];
    AtExtends(root, [], a);
    AtExtends(root, [a], b);
    assert Walk(root, [a, b], [UP], hops, true) == Walk(root, [a], [], hops, true);
    assert Walk(root, [a], [b, UP], hops, true) == Walk(root, [a, b], [UP], hops, true);
  }

  /**
   `..` after a link is where text and filesystem part: under a link to `/a/b`, `..` is `/a` on disk,
   and the directory holding the link as text.
   */
  lemma UpAfterALinkDiffers(root: Node, link: Name, a: Name, b: Name, hops: nat)
    requires LinksTwoDeep(root, link, a, b) && hops > 0
    ensures Reduced([], RawPath(true, [link, UP])) == []
    ensures Walk(root, [], [link, UP], hops, true) == Place([a])
  {
    assert link in [link, a, b];
    assert [link, UP][1..] == [UP] && [UP][1..] == [];
    assert [a, b] + [UP] == [a, b, UP] && [] + [link] == [link];
    WalkUpFromTwoDeep(root, link, a, b, hops - 1);
    assert ReduceFrom([link], [UP]) == ReduceFrom([], []);
  }
}
