/**
 A filesystem as the guard sees it: one tree of directories whose leaves are files with an inode
 identity, symbolic links and everything else; and path resolution, component by component, as section
 4.13 of POSIX.1-2017 Base Definitions has it.
 */
module FileTree {
  import opened Wrappers

  type Name = string

  /** An absolute path with nothing to reduce. */
  type Path = seq<Name>

  const HERE: Name := "."
  const UP: Name := ".."
  const NOTHING: Name := ""

  /** Pieces that stay where they are. */
  predicate IsIdle(name: Name) {
    name == HERE || name == NOTHING
  }

  /** A path as written: its pieces between slashes, so that a slash at the end leaves an empty last piece. */
  datatype RawPath = RawPath(absolute: bool, parts: seq<Name>)

  /** Device and inode number. */
  type Id = (nat, nat)

  datatype Child = Child(name: Name, node: Node)

  datatype Node =
    | Dir(readable: bool, searchable: bool, children: seq<Child>)
    | File(id: Id, links: nat)
    | Link(target: RawPath)
    | Special

  /** The entry of a directory under a name. */
  function Lookup(children: seq<Child>, name: Name): (r: Option<Node>)
    ensures r.Some? ==> Child(name, r.value) in children
  {
    if children == [] then None
    else if children[0].name == name then Some(children[0].node)
    else Lookup(children[1..], name)
  }

  /** No directory lists one name twice, or lists `.`, `..` or the empty name. */
  predicate WellFormed(node: Node) {
    node.Dir? ==>
      && (forall c :: c in node.children ==> c.name != HERE && c.name != UP && c.name != NOTHING)
      && (forall i, j :: 0 <= i < j < |node.children| ==> node.children[i].name != node.children[j].name)
      && (forall c :: c in node.children ==> WellFormed(c.node))
  }

  /** The node at a path of real directory entries, nothing followed. */
  function At(node: Node, path: Path): Option<Node> {
    if path == [] then Some(node)
    else if !node.Dir? then None
    else
      match Lookup(node.children, path[0])
      case None => None
      case Some(child) => At(child, path[1..])
  }

  function Parent(path: Path): Path {
    if path == [] then [] else path[..|path| - 1]
  }

  /** What resolution comes to. Anything but absence is the filesystem declining to answer. */
  datatype Found =
    | Place(path: Path)   // the real path: every link followed
    | Absent
    | Refused             // not a directory, not searchable, or too many links

  /**
   Resolves `todo` from the directory at the real path `at`. A link in the middle is followed, one at
   the end when `last` says so; at most `hops` of them. An empty piece asks for a directory and no more.
   */
  function Walk(root: Node, at: Path, todo: seq<Name>, hops: nat, last: bool): Found
    decreases hops, |todo|
  {
    if todo == [] then Place(at)
    else
      match At(root, at)
      case None => Absent
      case Some(node) =>
        if !node.Dir? then Refused
        else if todo[0] == NOTHING then Walk(root, at, todo[1..], hops, last)
        else if !node.searchable then Refused
        else if todo[0] == HERE then Walk(root, at, todo[1..], hops, last)
        else if todo[0] == UP then Walk(root, Parent(at), todo[1..], hops, last)
        else
          match Lookup(node.children, todo[0])
          case None => Absent
          case Some(child) =>
            if child.Link? && (last || |todo| > 1) then
              if hops == 0 then Refused
              else Walk(root, if child.target.absolute then [] else at, child.target.parts + todo[1..], hops - 1, last)
            else Walk(root, at + [todo[0]], todo[1..], hops, last)
  }

  /** A filesystem, with how many links it follows before giving up. */
  datatype Disk = Disk(root: Node, limit: nat)

  /** `canonicalize` of an absolute, reduced path. */
  function Canonical(disk: Disk, path: Path): Found {
    Walk(disk.root, [], path, disk.limit, true)
  }

  /** `symlink_metadata` of an absolute path as written. */
  function Lstat(disk: Disk, parts: seq<Name>): Option<Node> {
    match Walk(disk.root, [], parts, disk.limit, false)
    case Place(path) => At(disk.root, path)
    case _ => None
  }

  lemma {:induction false} AtExtends(node: Node, path: Path, name: Name)
    requires At(node, path).Some?
    ensures At(node, path + [name]) ==
            (var d := At(node, path).value; if d.Dir? then Lookup(d.children, name) else None)
    decreases |path|
  {
    if path == [] {
      assert (path + [name])[0] == name && (path + [name])[1..] == [];
    } else {
      assert (path + [name])[1..] == path[1..] + [name];
      AtExtends(Lookup(node.children, path[0]).value, path[1..], name);
    }
  }

  lemma {:induction false} AtSplits(node: Node, path: Path, n: nat)
    requires At(node, path).Some? && n <= |path|
    ensures At(node, path[..n]).Some? && (n < |path| ==> At(node, path[..n]).value.Dir?)
    decreases n
  {
    if n > 0 {
      AtSplits(Lookup(node.children, path[0]).value, path[1..], n - 1);
      assert path[..n][1..] == path[1..][..n - 1];
    }
  }
}
