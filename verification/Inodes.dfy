/**
 The worklist walk over excluded entries: which files, by inode identity, a copy may not contain.
 */
module Inodes {
  import opened Wrappers
  import opened FileTree

  /** `id` is a regular file under `node`, by real entries of directories that can be read and searched. */
  ghost predicate Holds(node: Node, id: Id) {
    match node
    case File(own, _) => own == id
    case Dir(readable, searchable, children) =>
      readable && searchable && exists c :: c in children && Holds(c.node, id)
    case _ => false
  }

  ghost predicate HoldsAt(disk: Disk, path: Path, id: Id) {
    Lstat(disk, path).Some? && Holds(Lstat(disk, path).value, id)
  }

  /** One more piece after a path that resolves to a directory is one more entry looked up in it. */
  lemma {:induction false} WalkOnward(root: Node, at: Path, todo: seq<Name>, hops: nat, name: Name)
    requires !IsIdle(name) && name != UP
    requires Walk(root, at, todo, hops, false).Place?
    requires var p := Walk(root, at, todo, hops, false).path; At(root, p).Some? && At(root, p).value.Dir?
    ensures var p := Walk(root, at, todo, hops, false).path;
      var d := At(root, p).value;
      Walk(root, at, todo + [name], hops, false) ==
        if !d.searchable then Refused
        else if Lookup(d.children, name).None? then Absent
        else Place(p + [name])
    decreases hops, |todo|
  {
    if todo == [] {
      assert todo + [name] == [name];
      assert [name][1..] == [];
    } else {
      assert (todo + [name])[0] == todo[0] && (todo + [name])[1..] == todo[1..] + [name];
      var d := At(root, at).value;
      if IsIdle(todo[0]) {
        WalkOnward(root, at, todo[1..], hops, name);
      } else if todo[0] == UP {
        WalkOnward(root, Parent(at), todo[1..], hops, name);
      } else {
        var child := Lookup(d.children, todo[0]).value;
        if child.Link? && |todo| > 1 {
          var from := if child.target.absolute then [] else at;
          assert child.target.parts + (todo[1..] + [name]) == child.target.parts + todo[1..] + [name];
          WalkOnward(root, from, child.target.parts + todo[1..], hops - 1, name);
        } else {
          AtExtends(root, at, todo[0]);
          WalkOnward(root, at + [todo[0]], todo[1..], hops, name);
        }
      }
    }
  }

  /** What `symlink_metadata` says of a directory's entry. */
  lemma LstatOfChild(disk: Disk, path: Path, name: Name)
    requires !IsIdle(name) && name != UP
    requires Lstat(disk, path).Some? && Lstat(disk, path).value.Dir?
    ensures var d := Lstat(disk, path).value;
      Lstat(disk, path + [name]) == if d.searchable then Lookup(d.children, name) else None
  {
    WalkOnward(disk.root, [], path, disk.limit, name);
    var p := Walk(disk.root, [], path, disk.limit, false).path;
    AtExtends(disk.root, p, name);
  }

  function ChildPaths(path: Path, children: seq<Child>): (paths: seq<Path>)
    ensures |paths| == |children| && forall i :: 0 <= i < |children| ==> paths[i] == path + [children[i].name]
  {
    seq(|children|, i requires 0 <= i < |children| => path + [children[i].name])
  }

  lemma {:induction false} LookupFinds(children: seq<Child>, i: nat)
    requires i < |children|
    requires forall j, k :: 0 <= j < k < |children| ==> children[j].name != children[k].name
    ensures Lookup(children, children[i].name) == Some(children[i].node)
    decreases |children|
  {
    if i > 0 {
      assert children[0].name != children[i].name;
      LookupFinds(children[1..], i - 1);
    }
  }

  lemma {:induction false} WellFormedBelow(node: Node, path: Path)
    requires WellFormed(node) && At(node, path).Some?
    ensures WellFormed(At(node, path).value)
    decreases |path|
  {
    if path != [] {
      WellFormedBelow(Lookup(node.children, path[0]).value, path[1..]);
    }
  }

  lemma LstatIsWellFormed(disk: Disk, path: Path)
    requires WellFormed(disk.root) && Lstat(disk, path).Some?
    ensures WellFormed(Lstat(disk, path).value)
  {
    WellFormedBelow(disk.root, Walk(disk.root, [], path, disk.limit, false).path);
  }

  /** Opening a directory trades it for its entries without gaining or losing a file. */
  lemma OpeningKeepsFiles(disk: Disk, path: Path, id: Id)
    requires WellFormed(disk.root) && Lstat(disk, path).Some? && Lstat(disk, path).value.Dir?
    requires Lstat(disk, path).value.readable
    ensures HoldsAt(disk, path, id) <==>
              exists p :: p in ChildPaths(path, Lstat(disk, path).value.children) && HoldsAt(disk, p, id)
  {
    var d := Lstat(disk, path).value;
    LstatIsWellFormed(disk, path);
    var paths := ChildPaths(path, d.children);
    forall i | 0 <= i < |d.children|
      ensures HoldsAt(disk, paths[i], id) <==> d.searchable && Holds(d.children[i].node, id)
    {
      assert d.children[i] in d.children;
      LookupFinds(d.children, i);
      LstatOfChild(disk, path, d.children[i].name);
    }
    if HoldsAt(disk, path, id) {
      var c :| c in d.children && Holds(c.node, id);
      var i :| 0 <= i < |d.children| && d.children[i] == c;
      assert paths[i] in paths && HoldsAt(disk, paths[i], id);
    }
    if exists p :: p in paths && HoldsAt(disk, p, id) {
      var p :| p in paths && HoldsAt(disk, p, id);
      var i :| 0 <= i < |paths| && paths[i] == p;
      assert d.children[i] in d.children;
    }
  }

  function Size(node: Node): (n: nat)
    ensures n > 0
  {
    match node
    case Dir(_, _, children) => 1 + Sizes(children)
    case _ => 1
  }

  function Sizes(children: seq<Child>): nat {
    if children == [] then 0 else Size(children[0].node) + Sizes(children[1..])
  }

  /** How much of the tree a path still stands for. */
  function Weight(disk: Disk, path: Path): nat {
    match Lstat(disk, path)
    case None => 1
    case Some(node) => Size(node)
  }

  function TotalWeight(disk: Disk, pending: seq<Path>): nat {
    if pending == [] then 0 else Weight(disk, pending[0]) + TotalWeight(disk, pending[1..])
  }

  lemma {:induction false} WeightAdds(disk: Disk, a: seq<Path>, b: seq<Path>)
    ensures TotalWeight(disk, a + b) == TotalWeight(disk, a) + TotalWeight(disk, b)
    decreases |a|
  {
    if a == [] {
      assert a + b == b;
    } else {
      assert (a + b)[1..] == a[1..] + b;
      WeightAdds(disk, a[1..], b);
    }
  }

  lemma {:induction false} EntriesWeighLess(disk: Disk, path: Path, children: seq<Child>)
    requires forall i :: 0 <= i < |children| ==>
               var l := Lstat(disk, path + [children[i].name]); l.None? || l == Some(children[i].node)
    ensures TotalWeight(disk, ChildPaths(path, children)) <= Sizes(children)
    decreases |children|
  {
    if children != [] {
      EntriesWeighLess(disk, path, children[1..]);
      assert ChildPaths(path, children)[1..] == ChildPaths(path, children[1..]);
    }
  }

  lemma OpeningLightens(disk: Disk, path: Path)
    requires WellFormed(disk.root) && Lstat(disk, path).Some? && Lstat(disk, path).value.Dir?
    ensures TotalWeight(disk, ChildPaths(path, Lstat(disk, path).value.children)) < Weight(disk, path)
  {
    var d := Lstat(disk, path).value;
    LstatIsWellFormed(disk, path);
    forall i | 0 <= i < |d.children|
      ensures var l := Lstat(disk, path + [d.children[i].name]); l.None? || l == Some(d.children[i].node)
    {
      assert d.children[i] in d.children;
      LookupFinds(d.children, i);
      LstatOfChild(disk, path, d.children[i].name);
    }
    EntriesWeighLess(disk, path, d.children);
  }

  ghost predicate SomeHolds(disk: Disk, pending: seq<Path>, id: Id) {
    exists p :: p in pending && HoldsAt(disk, p, id)
  }

  lemma HoldsSplits(disk: Disk, a: seq<Path>, b: seq<Path>, id: Id)
    ensures SomeHolds(disk, a + b, id) <==> SomeHolds(disk, a, id) || SomeHolds(disk, b, id)
  {
    assert forall p :: p in a + b <==> p in a || p in b;
  }

  lemma OneHolds(disk: Disk, path: Path, id: Id)
    ensures SomeHolds(disk, [path], id) <==> HoldsAt(disk, path, id)
  {
    assert path in [path];
  }

  /** The walk from one excluded path. It ends on every tree, and finds exactly the files held there. */
  method FilesUnder(disk: Disk, start: Path) returns (found: seq<Id>)
    requires WellFormed(disk.root)
    ensures forall id :: id in found <==> HoldsAt(disk, start, id)
  {
    found := [];
    var pending := [start];
    forall id ensures SomeHolds(disk, pending, id) <==> HoldsAt(disk, start, id) { OneHolds(disk, start, id); }
    while pending != []
      invariant forall id :: HoldsAt(disk, start, id) <==> id in found || SomeHolds(disk, pending, id)
      decreases TotalWeight(disk, pending)
    {
      var path := pending[|pending| - 1];
      ghost var before := pending;
      pending := pending[..|pending| - 1];
      assert before == pending + [path];
      WeightAdds(disk, pending, [path]);
      ghost var foundBefore := found;
      var more: seq<Path> := [];
      match Lstat(disk, path) {
        case None =>
        case Some(node) =>
          if node.Dir? {
            if node.readable {
              more := ChildPaths(path, node.children);
              OpeningLightens(disk, path);
            }
          } else if node.File? {
            found := found + [node.id];
          }
      }
      forall id ensures HoldsAt(disk, start, id) <==> id in found || SomeHolds(disk, pending + more, id) {
        HoldsSplits(disk, pending, [path], id);
        HoldsSplits(disk, pending, more, id);
        OneHolds(disk, path, id);
        if more != [] { OpeningKeepsFiles(disk, path, id); }
      }
      WeightAdds(disk, pending, more);
      pending := pending + more;
    }
  }

  /** There is a regular file at this path under `node`, with this identity, whatever may be read. */
  ghost predicate FileAt(node: Node, rel: Path, id: Id) {
    At(node, rel).Some? && At(node, rel).value.File? && At(node, rel).value.id == id
  }

  /** Every directory on the way down can be read and searched. */
  predicate Open(node: Node, rel: Path)
    decreases |rel|
  {
    rel == [] ||
    (&& node.Dir? && node.readable && node.searchable
     && (Lookup(node.children, rel[0]).Some? ==> Open(Lookup(node.children, rel[0]).value, rel[1..])))
  }

  predicate LeadsToFile(node: Node) {
    node.File? || (node.Dir? && exists c :: c in node.children && LeadsToFile(c.node))
  }

  /** Every directory that leads to a file can be read and searched. */
  predicate OpenWhereItMatters(node: Node) {
    node.Dir? && LeadsToFile(node) ==>
      node.readable && node.searchable && forall c :: c in node.children ==> OpenWhereItMatters(c.node)
  }

  lemma {:induction false} ChildIsLookedUp(node: Node, c: Child)
    requires WellFormed(node) && node.Dir? && c in node.children
    ensures Lookup(node.children, c.name) == Some(c.node)
  {
    var i :| 0 <= i < |node.children| && node.children[i] == c;
    LookupFinds(node.children, i);
  }

  lemma DownOne(node: Node, c: Child, rel: Path)
    requires WellFormed(node) && node.Dir? && c in node.children
    ensures At(node, [c.name] + rel) == At(c.node, rel)
    ensures Open(node, [c.name] + rel) <==> node.readable && node.searchable && Open(c.node, rel)
  {
    ChildIsLookedUp(node, c);
    assert ([c.name] + rel)[0] == c.name && ([c.name] + rel)[1..] == rel;
  }

  /** What is held is what lies at an open path. */
  lemma {:induction false} HeldIsOpen(node: Node, id: Id) returns (rel: Path)
    requires WellFormed(node) && Holds(node, id)
    ensures FileAt(node, rel, id) && Open(node, rel)
    decreases node
  {
    rel := [];
    if node.Dir? {
      var c :| c in node.children && Holds(c.node, id);
      rel := HeldIsOpen(c.node, id);
      DownOne(node, c, rel);
      rel := [c.name] + rel;
    }
  }

  lemma {:induction false} OpenIsHeld(node: Node, rel: Path, id: Id)
    requires FileAt(node, rel, id) && Open(node, rel)
    ensures Holds(node, id)
    decreases |rel|
  {
    if rel != [] {
      var child := Lookup(node.children, rel[0]).value;
      assert Child(rel[0], child) in node.children;
      OpenIsHeld(child, rel[1..], id);
    }
  }

  lemma {:induction false} FileLeads(node: Node, rel: Path, id: Id)
    requires FileAt(node, rel, id)
    ensures LeadsToFile(node)
    decreases |rel|
  {
    if rel != [] {
      var child := Lookup(node.children, rel[0]).value;
      assert Child(rel[0], child) in node.children;
      FileLeads(child, rel[1..], id);
    }
  }

  lemma {:induction false} LeadsSomewhere(node: Node) returns (rel: Path, id: Id)
    requires WellFormed(node) && LeadsToFile(node)
    ensures FileAt(node, rel, id)
    decreases node
  {
    if node.File? {
      rel, id := [], node.id;
    } else {
      var c :| c in node.children && LeadsToFile(c.node);
      rel, id := LeadsSomewhere(c.node);
      DownOne(node, c, rel);
      rel := [c.name] + rel;
    }
  }

  lemma {:induction false} OpenTreesHideNothing(node: Node, rel: Path, id: Id)
    requires OpenWhereItMatters(node) && FileAt(node, rel, id)
    ensures Open(node, rel)
    decreases |rel|
  {
    if rel != [] {
      FileLeads(node, rel, id);
      var child := Lookup(node.children, rel[0]).value;
      assert Child(rel[0], child) in node.children;
      OpenTreesHideNothing(child, rel[1..], id);
    }
  }

  lemma {:induction false} ClosedTreesHideSomething(node: Node) returns (rel: Path, id: Id)
    requires WellFormed(node) && !OpenWhereItMatters(node)
    ensures FileAt(node, rel, id) && !Open(node, rel)
    decreases node
  {
    if !node.readable || !node.searchable {
      rel, id := LeadsSomewhere(node);
    } else {
      var c :| c in node.children && !OpenWhereItMatters(c.node);
      rel, id := ClosedTreesHideSomething(c.node);
      DownOne(node, c, rel);
      rel := [c.name] + rel;
    }
  }

  /** Every file lies at an open path exactly when every directory that leads to one is open. */
  lemma NothingIsHiddenExactlyWhen(node: Node)
    requires WellFormed(node)
    ensures (forall rel, id :: FileAt(node, rel, id) ==> Open(node, rel)) <==> OpenWhereItMatters(node)
  {
    if OpenWhereItMatters(node) {
      forall rel, id | FileAt(node, rel, id) ensures Open(node, rel) { OpenTreesHideNothing(node, rel, id); }
    } else {
      var rel, id := ClosedTreesHideSomething(node);
    }
  }
}
