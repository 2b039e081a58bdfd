/**
 The commit guard: may these paths be committed beside a store whose manifest excludes some of its
 entries? The list of candidates, the manifest and the excluded paths are inputs; running `git` is not
 modelled.
 */
module Guard {
  import opened Wrappers
  import opened FileTree
  import opened Reduction
  import opened Inodes
  import opened Exits

  /** One manifest line: an entry under the memory root, and whether a copy may contain it. */
  datatype Entry = Entry(name: Name, included: bool)

  /** A path in both readings: what it says, and what the filesystem makes of it. */
  datatype Spot = Spot(said: Path, actual: Option<Path>)

  datatype Reach = Spelling | Identity | Inode

  datatype Verdict =
    | Outside
    | Included(entry: Entry)
    | Excluded(entry: Entry, reach: Reach)
    | Unclassified(name: Name)
    | Opaque

  /** `Place::of`: absence is a fact, anything else the filesystem declines is not knowing. */
  function SpotOf(disk: Disk, base: Path, path: RawPath): Option<Spot> {
    var said := Reduced(base, path);
    match Canonical(disk, said)
    case Place(actual) => Some(Spot(said, Some(actual)))
    case Absent => Some(Spot(said, None))
    case Refused => None
  }

  function Within(spot: Spot, outer: Spot): Option<Reach> {
    if outer.said <= spot.said then Some(Spelling)
    else if spot.actual.Some? && outer.actual.Some? && outer.actual.value <= spot.actual.value then Some(Identity)
    else None
  }

  function FirstUnder(root: Path, path: Path): Option<Name> {
    if root <= path && |root| < |path| then Some(path[|root|]) else None
  }

  function Under(spot: Spot, outer: Spot): Option<Name> {
    if spot.actual.Some? && outer.actual.Some? && FirstUnder(outer.actual.value, spot.actual.value).Some?
    then FirstUnder(outer.actual.value, spot.actual.value)
    else FirstUnder(outer.said, spot.said)
  }

  datatype Ground = Ground(base: Path, root: Spot, forbidden: seq<(Spot, Entry)>)

  function Spots(disk: Disk, base: Path, excluded: seq<(RawPath, Entry)>): Option<seq<(Spot, Entry)>> {
    if excluded == [] then Some([])
    else
      match SpotOf(disk, base, excluded[0].0)
      case None => None
      case Some(spot) =>
        match Spots(disk, base, excluded[1..])
        case None => None
        case Some(rest) => Some([(spot, excluded[0].1)] + rest)
  }

  /** `Ground::new`: a store the filesystem will not resolve is a configuration failure. */
  function GroundOf(disk: Disk, base: Path, root: RawPath, excluded: seq<(RawPath, Entry)>): Option<Ground> {
    match SpotOf(disk, base, root)
    case None => None
    case Some(spot) =>
      match Spots(disk, base, excluded)
      case None => None
      case Some(forbidden) => Some(Ground(base, spot, forbidden))
  }

  function ManifestEntry(manifest: seq<Entry>, name: Name): Option<Entry> {
    if manifest == [] then None
    else if manifest[0].name == name then Some(manifest[0])
    else ManifestEntry(manifest[1..], name)
  }

  /** The first excluded entry this place is at or inside. */
  function FirstMatch(spot: Spot, forbidden: seq<(Spot, Entry)>): Option<Verdict> {
    if forbidden == [] then None
    else
      match Within(spot, forbidden[0].0)
      case Some(reach) => Some(Excluded(forbidden[0].1, reach))
      case None => FirstMatch(spot, forbidden[1..])
  }

  function Classify(disk: Disk, manifest: seq<Entry>, ground: Ground, candidate: RawPath): Verdict {
    match SpotOf(disk, ground.base, candidate)
    case None => Opaque
    case Some(spot) =>
      match FirstMatch(spot, ground.forbidden)
      case Some(verdict) => verdict
      case None =>
        match Under(spot, ground.root)
        case None => Outside
        case Some(name) =>
          if spot.actual.None? then Opaque
          else
            match ManifestEntry(manifest, name)
            case Some(entry) => if entry.included then Included(entry) else Excluded(entry, Spelling)
            case None => Unclassified(name)
  }

  function Severity(verdict: Verdict): nat {
    match verdict
    case Outside => 0
    case Included(_) => 0
    case Unclassified(_) => 1
    case Opaque => 2
    case Excluded(_, _) => 3
  }

  function ExitOf(verdict: Verdict): Exit {
    match verdict
    case Outside => ExitOk
    case Included(_) => ExitOk
    case Excluded(_, _) => ExitRejected
    case Unclassified(_) => Degraded
    case Opaque => Failed
  }

  function Exists(disk: Disk, path: Path): bool {
    Lstat(disk, path).Some?
  }

  /** Excluded entries that exist inside the work tree. */
  function Standing(disk: Disk, forbidden: seq<(Spot, Entry)>, tree: Spot): seq<(Path, Entry)> {
    if forbidden == [] then []
    else
      var (spot, entry) := forbidden[0];
      (if Exists(disk, spot.said) && Within(spot, tree).Some? then [(spot.said, entry)] else [])
      + Standing(disk, forbidden[1..], tree)
  }

  /** What the guard reads of a candidate to compare inodes: its own metadata, links not followed. */
  function OwnNode(disk: Disk, ground: Ground, candidate: RawPath): Option<Node> {
    Lstat(disk, Joined(ground.base, candidate))
  }

  function MultiplyLinked(disk: Disk, ground: Ground, candidate: RawPath): bool {
    match OwnNode(disk, ground, candidate)
    case Some(File(_, links)) => links > 1
    case _ => false
  }

  ghost predicate HeldBy(disk: Disk, forbidden: seq<(Spot, Entry)>, i: nat, id: Id) {
    i < |forbidden| && HoldsAt(disk, forbidden[i].0.said, id)
  }

  /** The first excluded entry that holds the file with this identity, or the number of entries. */
  ghost function FirstHolder(disk: Disk, forbidden: seq<(Spot, Entry)>, id: Id): (i: nat)
    ensures i <= |forbidden|
    ensures i < |forbidden| ==> HeldBy(disk, forbidden, i, id)
    ensures forall j :: 0 <= j < i ==> !HeldBy(disk, forbidden, j, id)
  {
    if forbidden == [] then 0
    else if HoldsAt(disk, forbidden[0].0.said, id) then 0
    else
      var i := FirstHolder(disk, forbidden[1..], id);
      assert forall j :: 0 < j < |forbidden| ==> (HeldBy(disk, forbidden, j, id) <==> HeldBy(disk, forbidden[1..], j - 1, id));
      1 + i
  }

  /** A verdict after the hardlink check. */
  ghost function Relinked(disk: Disk, ground: Ground, candidate: RawPath, verdict: Verdict): Verdict {
    if Severity(verdict) == 0 && MultiplyLinked(disk, ground, candidate) then
      var i := FirstHolder(disk, ground.forbidden, OwnNode(disk, ground, candidate).value.id);
      if i < |ground.forbidden| then Excluded(ground.forbidden[i].1, Inode) else verdict
    else verdict
  }

  ghost function FinalVerdict(disk: Disk, manifest: seq<Entry>, ground: Ground, candidate: RawPath): Verdict {
    Relinked(disk, ground, candidate, Classify(disk, manifest, ground, candidate))
  }

  type Finding = (RawPath, Verdict)

  function VerdictsOf(findings: seq<Finding>): (verdicts: seq<Verdict>)
    ensures |verdicts| == |findings|
    ensures forall i :: 0 <= i < |findings| ==> verdicts[i] == findings[i].1
  {
    seq(|findings|, i requires 0 <= i < |findings| => findings[i].1)
  }

  /** The worst of some verdicts. */
  function Worst(verdicts: seq<Verdict>): nat {
    if verdicts == [] then 0
    else
      var rest := Worst(verdicts[1..]);
      if Severity(verdicts[0]) > rest then Severity(verdicts[0]) else rest
  }

  lemma {:induction false} WorstIsReached(verdicts: seq<Verdict>, best: nat)
    requires best < |verdicts|
    requires forall j :: 0 <= j < |verdicts| ==> Severity(verdicts[j]) <= Severity(verdicts[best])
    ensures Worst(verdicts) == Severity(verdicts[best])
    decreases |verdicts|
  {
    WorstBounds(verdicts);
    assert verdicts[best] in verdicts;
  }

  /** The worst severity is an upper bound that some verdict has, or nothing when there is none. */
  lemma {:induction false} WorstBounds(verdicts: seq<Verdict>)
    ensures forall v :: v in verdicts ==> Severity(v) <= Worst(verdicts)
    ensures Worst(verdicts) > 0 ==> exists v :: v in verdicts && Severity(v) == Worst(verdicts)
    decreases |verdicts|
  {
    if verdicts != [] {
      WorstBounds(verdicts[1..]);
      assert verdicts == [verdicts[0]] + verdicts[1..];
      if Worst(verdicts) > 0 {
        if Severity(verdicts[0]) == Worst(verdicts) {
          assert verdicts[0] in verdicts;
        } else {
          var v :| v in verdicts[1..] && Severity(v) == Worst(verdicts);
          assert v in verdicts;
        }
      }
    }
  }

  function ExitAt(severity: nat): Exit {
    if severity == 0 then ExitOk
    else if severity == 1 then Degraded
    else if severity == 2 then Failed
    else ExitRejected
  }

  ghost function FinalVerdicts(disk: Disk, manifest: seq<Entry>, ground: Ground, candidates: seq<RawPath>): (v: seq<Verdict>)
    ensures |v| == |candidates|
    ensures forall i :: 0 <= i < |candidates| ==> v[i] == FinalVerdict(disk, manifest, ground, candidates[i])
  {
    seq(|candidates|, i requires 0 <= i < |candidates| => FinalVerdict(disk, manifest, ground, candidates[i]))
  }

  /** What `guard_commit` decides. */
  ghost function Decision(disk: Disk, manifest: seq<Entry>, base: Path, root: RawPath, excluded: seq<(RawPath, Entry)>,
                          tree: Option<Spot>, candidates: seq<RawPath>): Exit {
    match GroundOf(disk, base, root, excluded)
    case None => Config
    case Some(ground) =>
      if tree.Some? && Standing(disk, ground.forbidden, tree.value) != [] then ExitRejected
      else ExitAt(Worst(FinalVerdicts(disk, manifest, ground, candidates)))
  }
}
