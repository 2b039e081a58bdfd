/**
 How far the hardlink check reaches. The table of forbidden inodes is complete for an excluded entry exactly
 when the entry is no link and everything in it that leads to a file can be read and searched; a candidate is
 compared with it exactly when its path, as written, is the path of a regular file with several names.
 */
module GuardLimits {
  import opened Wrappers
  import opened FileTree
  import opened Reduction
  import opened Inodes
  import opened Exits
  import opened Guard
  import opened GuardExact

  /** Where the entry's own path leads. */
  function NodeOf(q: Query, entry: RawPath): Option<Node> {
    match q.Actual(entry)
    case Place(p) => At(q.disk.root, p)
    case _ => None
  }

  /** A file inside the entry, wherever the entry's path leads and whoever may read it. */
  ghost predicate FileInside(q: Query, entry: RawPath, rel: Path, id: Id) {
    NodeOf(q, entry).Some? && FileAt(NodeOf(q, entry).value, rel, id)
  }

  predicate IsLink(q: Query, entry: RawPath) {
    Lstat(q.disk, q.Said(entry)).Some? && Lstat(q.disk, q.Said(entry)).value.Link?
  }

  /** The walk from the entry comes to this file. */
  ghost predicate Walked(q: Query, entry: RawPath, rel: Path, id: Id) {
    && Lstat(q.disk, q.Said(entry)).Some?
    && FileAt(Lstat(q.disk, q.Said(entry)).value, rel, id)
    && Open(Lstat(q.disk, q.Said(entry)).value, rel)
  }

  /** Following the last piece makes a difference only where it is a link. */
  lemma {:induction false} OnlyTheLastLinkMatters(root: Node, at: Path, todo: seq<Name>, hops: nat)
    requires At(root, at).Some? && !At(root, at).value.Link?
    ensures var kept := Walk(root, at, todo, hops, false);
      || kept == Walk(root, at, todo, hops, true)
      || (kept.Place? && At(root, kept.path).Some? && At(root, kept.path).value.Link?)
    decreases hops, |todo|
  {
    if todo != [] {
      var d := At(root, at).value;
      if d.Dir? {
        if IsIdle(todo[0]) {
          OnlyTheLastLinkMatters(root, at, todo[1..], hops);
        } else if todo[0] == UP {
          if at != [] { AtSplits(root, at, |at| - 1); }
          OnlyTheLastLinkMatters(root, Parent(at), todo[1..], hops);
        } else if Lookup(d.children, todo[0]).Some? {
          var child := Lookup(d.children, todo[0]).value;
          AtExtends(root, at, todo[0]);
          if !child.Link? {
            OnlyTheLastLinkMatters(root, at + [todo[0]], todo[1..], hops);
          } else if |todo| > 1 {
            if hops > 0 {
              var from := if child.target.absolute then [] else at;
              if child.target.absolute { AtSplits(root, at, 0); }
              OnlyTheLastLinkMatters(root, from, child.target.parts + todo[1..], hops - 1);
            }
          } else {
            assert todo[1..] == [];
          }
        }
      }
    }
  }

  /** The table lists an identity exactly when the walk comes to a file that has it. */
  lemma ListedExactlyWhenWalked(q: Query, entry: RawPath, id: Id)
    requires WellFormed(q.disk.root)
    ensures HoldsAt(q.disk, q.Said(entry), id) <==> exists rel :: Walked(q, entry, rel, id)
  {
    if HoldsAt(q.disk, q.Said(entry), id) {
      LstatIsWellFormed(q.disk, q.Said(entry));
      var rel := HeldIsOpen(Lstat(q.disk, q.Said(entry)).value, id);
      assert Walked(q, entry, rel, id);
    }
    if exists rel :: Walked(q, entry, rel, id) {
      var rel :| Walked(q, entry, rel, id);
      OpenIsHeld(Lstat(q.disk, q.Said(entry)).value, rel, id);
    }
  }

  lemma UnlinkedIsInside(q: Query, entry: RawPath)
    requires q.disk.root.Dir? && !IsLink(q, entry)
    ensures NodeOf(q, entry) == Lstat(q.disk, q.Said(entry))
  {
    OnlyTheLastLinkMatters(q.disk.root, [], q.Said(entry), q.disk.limit);
  }

  /**
   The walk comes to every file inside an excluded entry exactly when there is none, or the entry is no link
   and every directory in it that leads to a file can be read and searched.
   */
  lemma WalkIsCompleteExactlyWhen(q: Query, entry: RawPath)
    requires q.disk.root.Dir? && WellFormed(q.disk.root)
    ensures (forall rel, id :: FileInside(q, entry, rel, id) ==> Walked(q, entry, rel, id))
        <==> (NodeOf(q, entry).Some? && LeadsToFile(NodeOf(q, entry).value) ==>
                !IsLink(q, entry) && OpenWhereItMatters(NodeOf(q, entry).value))
  {
    if NodeOf(q, entry).Some? {
      var node := NodeOf(q, entry).value;
      WellFormedBelow(q.disk.root, q.Actual(entry).path);
      NothingIsHiddenExactlyWhen(node);
      if !LeadsToFile(node) {
        forall rel, id ensures !FileAt(node, rel, id) { if FileAt(node, rel, id) { FileLeads(node, rel, id); } }
      } else if IsLink(q, entry) {
        var rel, id := LeadsSomewhere(node);
        assert FileInside(q, entry, rel, id);
        LinkHoldsNothing(q, entry, rel, id);
      } else {
        UnlinkedIsInside(q, entry);
        if !OpenWhereItMatters(node) {
          var rel, id := ClosedTreesHideSomething(node);
          assert FileInside(q, entry, rel, id) && !Walked(q, entry, rel, id);
        }
      }
    }
  }

  lemma LinkHoldsNothing(q: Query, entry: RawPath, rel: Path, id: Id)
    requires IsLink(q, entry)
    ensures !Walked(q, entry, rel, id)
  {
  }

  /** The same path with a slash behind it. */
  function Slashed(p: RawPath): RawPath {
    RawPath(p.absolute, p.parts + [NOTHING])
  }

  lemma {:induction false} SlashAsksForADirectory(root: Node, at: Path, todo: seq<Name>, hops: nat)
    ensures var w := Walk(root, at, todo + [NOTHING], hops, false);
      w.Place? ==> At(root, w.path).Some? && At(root, w.path).value.Dir?
    decreases hops, |todo|
  {
    if todo == [] {
      assert [] + [NOTHING] == [NOTHING] && [NOTHING][1..] == [];
    } else {
      assert (todo + [NOTHING])[0] == todo[0] && (todo + [NOTHING])[1..] == todo[1..] + [NOTHING];
      if At(root, at).Some? && At(root, at).value.Dir? {
        var d := At(root, at).value;
        if IsIdle(todo[0]) {
          SlashAsksForADirectory(root, at, todo[1..], hops);
        } else if todo[0] == UP {
          SlashAsksForADirectory(root, Parent(at), todo[1..], hops);
        } else if Lookup(d.children, todo[0]).Some? {
          var child := Lookup(d.children, todo[0]).value;
          if child.Link? {
            if hops > 0 {
              assert child.target.parts + (todo[1..] + [NOTHING]) == child.target.parts + todo[1..] + [NOTHING];
              var from := if child.target.absolute then [] else at;
              SlashAsksForADirectory(root, from, child.target.parts + todo[1..], hops - 1);
            }
          } else {
            SlashAsksForADirectory(root, at + [todo[0]], todo[1..], hops);
          }
        }
      }
    }
  }

  /** What the manifest makes of a candidate depends on what its path says, not on how it is written. */
  lemma SayingTheSameIsLetThroughAlike(q: Query, a: RawPath, b: RawPath)
    requires q.Said(a) == q.Said(b)
    ensures LetThrough(q, a) <==> LetThrough(q, b)
  {
    assert forall i :: 0 <= i < |q.excluded| ==> (Inside(q, a, q.excluded[i].0) <==> Inside(q, b, q.excluded[i].0));
    assert InsideExcluded(q, a) <==> InsideExcluded(q, b);
    if BelowRoot(q, a) { assert TopName(q, a) == TopName(q, b); }
  }

  /**
   A slash behind a candidate changes nothing of what it says and where it leads, and takes it out of the
   hardlink check: such a candidate is safe exactly when the manifest lets it through by name.
   */
  lemma SlashedIsSafeExactlyWhenLetThrough(q: Query, p: RawPath)
    ensures q.Said(Slashed(p)) == q.Said(p) && !SharesAnInode(q, Slashed(p))
    ensures Safe(q, Slashed(p)) <==> LetThrough(q, p)
  {
    var joined := Joined(q.base, p);
    assert Joined(q.base, Slashed(p)) == joined + [NOTHING];
    ReduceSplits([], joined, [NOTHING]);
    assert [NOTHING][1..] == [];
    SlashAsksForADirectory(q.disk.root, [], joined, q.disk.limit);
    SayingTheSameIsLetThroughAlike(q, Slashed(p), p);
  }

  /** The path as written is a link's own. */
  predicate NamesALink(q: Query, p: RawPath) {
    Lstat(q.disk, Joined(q.base, p)).Some? && Lstat(q.disk, Joined(q.base, p)).value.Link?
  }

  /** The path leads to a file with several names, one of which the walk came to inside an excluded entry. */
  ghost predicate LeadsToAWalkedFile(q: Query, p: RawPath) {
    && q.Actual(p).Place? && At(q.disk.root, q.Actual(p).path).Some?
    && var node := At(q.disk.root, q.Actual(p).path).value;
      && node.File? && node.links > 1
      && exists i :: 0 <= i < |q.excluded| && HoldsAt(q.disk, q.Said(q.excluded[i].0), node.id)
  }

  lemma LstatIsWhereItLeads(q: Query, p: RawPath)
    requires q.disk.root.Dir? && !NamesALink(q, p)
    ensures var joined := Joined(q.base, p);
      Walk(q.disk.root, [], joined, q.disk.limit, false) == Walk(q.disk.root, [], joined, q.disk.limit, true)
  {
    OnlyTheLastLinkMatters(q.disk.root, [], Joined(q.base, p), q.disk.limit);
  }

  /**
   The hardlink check, exactly: a path that leads to a walked file with several names, and takes back no link,
   is safe if and only if the manifest lets it through by name and its written form is not the file's: either it
   is a link's own, or some piece of it that stays or goes up does so from what is no directory to search.
   */
  lemma WalkedFileIsSafeExactlyWhen(q: Query, p: RawPath)
    requires q.disk.root.Dir? && LeadsToAWalkedFile(q, p)
    requires UndoesNoLink(q.disk.root, [], Joined(q.base, p), q.disk.limit)
    ensures Safe(q, p) <==>
              LetThrough(q, p) && (NamesALink(q, p) || !Clear(q.disk.root, [], Joined(q.base, p), q.disk.limit))
  {
    ResolvesExactlyWhen(q.disk, q.base, p);
    if !NamesALink(q, p) { LstatIsWhereItLeads(q, p); }
  }

  /** Clear means that every piece that stays or goes up does so from a directory: nothing of the kind follows a file. */
  lemma {:induction false} ClearMeansDirectories(root: Node, done: Path, rest: seq<Name>, hops: nat, k: nat)
    requires Clear(root, done, rest, hops) && k < |rest| && (IsIdle(rest[k]) || rest[k] == UP)
    ensures Lets(root, ReduceFrom(done, rest[..k]), rest[k], hops)
    decreases |rest|
  {
    if k == 0 {
      assert rest[..0] == [];
    } else {
      assert rest[..k][0] == rest[0] && rest[..k][1..] == rest[1..][..k - 1];
      var next := if IsIdle(rest[0]) then done else if rest[0] == UP then Parent(done) else done + [rest[0]];
      ClearMeansDirectories(root, next, rest[1..], hops, k - 1);
    }
  }

  /** So wherever a piece that stays or goes up follows the file's own name, the manifest decides alone. */
  lemma PieceBehindTheFileEscapes(q: Query, p: RawPath, k: nat)
    requires q.disk.root.Dir? && LeadsToAWalkedFile(q, p)
    requires UndoesNoLink(q.disk.root, [], Joined(q.base, p), q.disk.limit)
    requires k < |Joined(q.base, p)| && ReduceFrom([], Joined(q.base, p)[..k]) == q.Said(p)
    requires IsIdle(Joined(q.base, p)[k]) || Joined(q.base, p)[k] == UP
    ensures Safe(q, p) <==> LetThrough(q, p)
  {
    WalkedFileIsSafeExactlyWhen(q, p);
    if Clear(q.disk.root, [], Joined(q.base, p), q.disk.limit) {
      ClearMeansDirectories(q.disk.root, [], Joined(q.base, p), q.disk.limit, k);
    }
  }

  /** Every file says it has several names if it does. */
  ghost predicate HonestCounts(root: Node) {
    forall a: Path, b: Path, id: Id :: a != b && FileAt(root, a, id) && FileAt(root, b, id) ==> At(root, a).value.links > 1
  }

  lemma {:induction false} AtJoins(node: Node, a: Path, b: Path)
    requires At(node, a).Some?
    ensures At(node, a + b) == At(At(node, a).value, b)
    decreases |a|
  {
    if a == [] {
      assert a + b == b;
    } else {
      assert (a + b)[0] == a[0] && (a + b)[1..] == a[1..] + b;
      AtJoins(Lookup(node.children, a[0]).value, a[1..], b);
    }
  }

  /** Where the walk finds this identity, as a real path below where the entry leads. */
  lemma WalkedPath(q: Query, i: nat, id: Id) returns (found: Path)
    requires WellFormed(q.disk.root) && q.disk.root.Dir? && i < |q.excluded|
    requires HoldsAt(q.disk, q.Said(q.excluded[i].0), id)
    ensures FileAt(q.disk.root, found, id)
    ensures q.Actual(q.excluded[i].0).Place? && q.Actual(q.excluded[i].0).path <= found
  {
    var entry := q.excluded[i].0;
    var node := Lstat(q.disk, q.Said(entry)).value;
    assert !node.Link?;
    OnlyTheLastLinkMatters(q.disk.root, [], q.Said(entry), q.disk.limit);
    LstatIsWellFormed(q.disk, q.Said(entry));
    var rel := HeldIsOpen(node, id);
    AtJoins(q.disk.root, q.Actual(entry).path, rel);
    found := q.Actual(entry).path + rel;
  }

  /**
   With honest link counts, a candidate that is the same file as one the walk came to is never safe, whether
   it is that very path or another name of the file; it is denied, unless the manifest knows no name for it.
   The candidate's path has to resolve as its reduction does: it takes back no link by a `..`.
   */
  lemma SameFileIsNeverSafe(q: Query, p: RawPath, i: nat)
    requires WellFormed(q.disk.root) && q.disk.root.Dir? && HonestCounts(q.disk.root) && i < |q.excluded|
    requires UndoesNoLink(q.disk.root, [], Joined(q.base, p), q.disk.limit)
    requires Lstat(q.disk, Joined(q.base, p)).Some?
    requires Lstat(q.disk, Joined(q.base, p)).value.File?
    requires HoldsAt(q.disk, q.Said(q.excluded[i].0), Lstat(q.disk, Joined(q.base, p)).value.id)
    ensures !Safe(q, p) && (Denied(q, p) || Unclassed(q, p))
  {
    var joined := Joined(q.base, p);
    var id := Lstat(q.disk, joined).value.id;
    var own := Walk(q.disk.root, [], joined, q.disk.limit, false).path;
    OnlyTheLastLinkMatters(q.disk.root, [], joined, q.disk.limit);
    ResolvesExactlyWhen(q.disk, q.base, p);
    assert q.Actual(p) == Place(own);
    var found := WalkedPath(q, i, id);
    if found == own {
      assert Inside(q, p, q.excluded[i].0);
      assert InsideExcluded(q, p);
    } else {
      assert FileAt(q.disk.root, own, id) && SharesAnInode(q, p);
    }
    FourWays(q, p);
  }

  /** A path that leads somewhere is safe, unclassed or denied. */
  lemma FourWays(q: Query, p: RawPath)
    requires q.Actual(p).Place?
    ensures Safe(q, p) || Unclassed(q, p) || Denied(q, p)
  {
    if BelowRoot(q, p) { ManifestDecides(q.manifest, TopName(q, p)); }
  }

  const RECORD_NODE := File((1, 7), 2)
  const RECORDS := Dir(true, true, [Child("a", RECORD_NODE)])
  const VAULT := Dir(true, true, [Child("k", RECORD_NODE)])
  const RECORD := RawPath(true, ["store", "records", "a"])
  const KEYS := RawPath(true, ["store", "keys"])

  function RootWith(keys: Node): Node {
    var store := Dir(true, true, [Child("records", RECORDS), Child("keys", keys)]);
    Dir(true, true, [Child("store", store), Child("vault", VAULT)])
  }

  /** A store with these keys and one record, which is a hardlink to a key. */
  function StoreWith(keys: Node): Query {
    Query(Disk(RootWith(keys), 40), [Entry("records", true), Entry("keys", false)], [],
      RawPath(true, ["store"]), [(KEYS, Entry("keys", false))], None)
  }

  /** Keys behind a link, keys in a directory that cannot be listed, and keys as they should be. */
  const LINKED := Link(RawPath(true, ["vault"]))
  const SHUT := Dir(false, true, [Child("k", RECORD_NODE)])
  const PROPER := Dir(true, true, [Child("k", RECORD_NODE)])

  lemma {:induction false} StepDown(root: Node, at: Path, todo: seq<Name>, hops: nat, last: bool)
    requires todo != [] && !IsIdle(todo[0]) && todo[0] != UP
    requires At(root, at).Some? && At(root, at).value.Dir? && At(root, at).value.searchable
    requires var c := Lookup(At(root, at).value.children, todo[0]); c.Some? && !c.value.Link?
    ensures At(root, at + [todo[0]]) == Lookup(At(root, at).value.children, todo[0])
    ensures Walk(root, at, todo, hops, last) == Walk(root, at + [todo[0]], todo[1..], hops, last)
  {
    AtExtends(root, at, todo[0]);
  }

  lemma RecordIsThere(keys: Node, last: bool)
    ensures Walk(RootWith(keys), [], ["store", "records", "a"], 40, last) == Place(["store", "records", "a"])
    ensures At(RootWith(keys), ["store", "records", "a"]) == Some(RECORD_NODE)
    ensures Walk(RootWith(keys), [], ["store"], 40, last) == Place(["store"])
  {
    var root := RootWith(keys);
    StepDown(root, [], ["store"], 40, last);
    StepDown(root, [], ["store", "records", "a"], 40, last);
    StepDown(root, ["store"], ["records", "a"], 40, last);
    StepDown(root, ["store", "records"], ["a"], 40, last);
  }

  lemma KeysAreThere(keys: Node, last: bool)
    requires !keys.Link? || !last
    ensures Walk(RootWith(keys), [], ["store", "keys"], 40, last) == Place(["store", "keys"])
    ensures At(RootWith(keys), ["store", "keys"]) == Some(keys)
  {
    var root := RootWith(keys);
    StepDown(root, [], ["store", "keys"], 40, last);
    AtExtends(root, ["store"], "keys");
  }

  lemma LinkedKeysLeadToTheVault()
    ensures Walk(RootWith(LINKED), [], ["store", "keys"], 40, true) == Place(["vault"])
    ensures At(RootWith(LINKED), ["vault"]) == Some(VAULT)
  {
    var root := RootWith(LINKED);
    StepDown(root, [], ["store", "keys"], 40, true);
    assert LINKED.target.parts + ["keys"][1..] == ["vault"];
    assert Lookup(At(root, ["store"]).value.children, "keys") == Some(LINKED);
    StepDown(root, [], ["vault"], 39, true);
  }

  lemma PlainPathsStay(q: Query, parts: Path)
    requires IsPlain(parts)
    ensures q.Said(RawPath(true, parts)) == parts
  {
    PlainStays([], parts);
    assert [] + parts == parts;
  }

  lemma PlacesOf(keys: Node)
    requires keys in {LINKED, SHUT, PROPER}
    ensures var q := StoreWith(keys);
      && q.Said(RECORD) == ["store", "records", "a"] && q.Said(KEYS) == ["store", "keys"] && q.Said(q.root) == ["store"]
      && q.Actual(RECORD) == Place(["store", "records", "a"]) && q.Actual(q.root) == Place(["store"])
      && q.Actual(KEYS) == Place(if keys == LINKED then ["vault"] else ["store", "keys"])
  {
    var q := StoreWith(keys);
    PlainPathsStay(q, ["store", "records", "a"]);
    PlainPathsStay(q, ["store", "keys"]);
    PlainPathsStay(q, ["store"]);
    RecordIsThere(keys, true);
    if keys == LINKED { LinkedKeysLeadToTheVault(); } else { KeysAreThere(keys, true); }
  }

  lemma RecordIsLetThrough(keys: Node)
    requires keys in {LINKED, SHUT, PROPER}
    ensures LetThrough(StoreWith(keys), RECORD) && Grounded(StoreWith(keys)) && !Exposed(StoreWith(keys))
  {
    var q := StoreWith(keys);
    PlacesOf(keys);
    assert BelowRoot(q, RECORD) && TopName(q, RECORD) == "records";
    assert Governs(q.manifest, "records", q.manifest[0]);
    assert !Inside(q, RECORD, KEYS);
  }

  lemma KeysAreRead(keys: Node)
    requires keys in {LINKED, SHUT, PROPER}
    ensures Lstat(StoreWith(keys).disk, StoreWith(keys).Said(KEYS)) == Some(keys)
    ensures Lstat(StoreWith(keys).disk, Joined([], RECORD)) == Some(RECORD_NODE)
  {
    PlacesOf(keys);
    KeysAreThere(keys, false);
    RecordIsThere(keys, false);
  }

  lemma KeysHoldTheRecord(keys: Node)
    requires keys in {LINKED, SHUT, PROPER}
    ensures FileInside(StoreWith(keys), KEYS, ["k"], (1, 7))
  {
    PlacesOf(keys);
    if keys == LINKED { LinkedKeysLeadToTheVault(); } else { KeysAreThere(keys, true); }
    assert ["k"][1..] == [];
  }

  /** A record that is a hardlink to a key passes when the keys are behind a link, or cannot be listed. */
  lemma UnwalkedHardlinkPasses(keys: Node)
    requires keys == LINKED || keys == SHUT
    ensures FileInside(StoreWith(keys), KEYS, ["k"], (1, 7))
    ensures Lstat(StoreWith(keys).disk, Joined([], RECORD)) == Some(File((1, 7), 2))
    ensures Answer(StoreWith(keys), [RECORD]) == ExitOk
  {
    KeysAreRead(keys);
    KeysHoldTheRecord(keys);
    RecordIsLetThrough(keys);
    RecordSharesNothing(keys);
    ExitIsExact(StoreWith(keys), [RECORD]);
  }

  lemma RecordSharesNothing(keys: Node)
    requires keys == LINKED || keys == SHUT
    ensures !SharesAnInode(StoreWith(keys), RECORD)
  {
    KeysAreRead(keys);
    forall i | 0 <= i < |StoreWith(keys).excluded|
      ensures !HoldsAt(StoreWith(keys).disk, StoreWith(keys).Said(StoreWith(keys).excluded[i].0), (1, 7))
    {
      assert StoreWith(keys).excluded[i].0 == KEYS;
    }
  }

  /** The record under another spelling. */
  function Respelled(tail: seq<Name>): RawPath {
    RawPath(true, ["store", "records", "a"] + tail)
  }

  const TAILS := {[NOTHING], [HERE], [UP, "a"]}

  lemma RespelledSaysTheSame(q: Query, tail: seq<Name>)
    requires tail in TAILS
    ensures q.Said(Respelled(tail)) == ["store", "records", "a"]
  {
    var own := ["store", "records", "a"];
    PlainStays([], own);
    ReduceSplits([], own, tail);
    assert [] + own == own && Parent(own) + ["a"] == own;
    assert tail[1..] == if tail == [UP, "a"] then ["a"] else [];
    assert ["a"][1..] == [];
  }

  lemma NothingIsBehindTheRecord(tail: seq<Name>)
    requires tail in TAILS
    ensures Lstat(StoreWith(PROPER).disk, Joined([], Respelled(tail))).None?
  {
    var own := ["store", "records", "a"];
    RecordIsThere(PROPER, true);
    WalkSplits(RootWith(PROPER), [], own, tail, 40, false);
  }

  /**
   With the keys as they should be, the record is refused, and passes with a slash, with `/.` or with `/../a`
   behind its name.
   */
  lemma RespelledRecordPasses(tail: seq<Name>)
    requires tail in TAILS
    ensures Answer(StoreWith(PROPER), [RECORD]) == ExitRejected
    ensures Answer(StoreWith(PROPER), [Respelled(tail)]) == ExitOk
  {
    var q := StoreWith(PROPER);
    KeysAreRead(PROPER);
    RecordIsLetThrough(PROPER);
    PlacesOf(PROPER);
    RespelledSaysTheSame(q, tail);
    SayingTheSameIsLetThroughAlike(q, Respelled(tail), RECORD);
    NothingIsBehindTheRecord(tail);
    ExitIsExact(q, [Respelled(tail)]);
    RecordIsRejected();
  }

  lemma RecordIsRejected()
    ensures Answer(StoreWith(PROPER), [RECORD]) == ExitRejected
  {
    var q := StoreWith(PROPER);
    KeysAreRead(PROPER);
    RecordIsLetThrough(PROPER);
    assert Child("k", RECORD_NODE) in PROPER.children;
    assert HoldsAt(q.disk, q.Said(q.excluded[0].0), (1, 7));
    assert Denied(q, RECORD) && RECORD in [RECORD];
    ExitIsExact(q, [RECORD]);
  }
}
