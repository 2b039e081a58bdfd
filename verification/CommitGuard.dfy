/**
 The guard at work: the report it fills, the inode table it builds when a candidate needs one, and the
 whole command, each proved against the functions of module Guard.
 */
module CommitGuard {
  import opened Wrappers
  import opened FileTree
  import opened Inodes
  import opened Exits
  import opened Guard

  /** The table lists exactly the files inside excluded entries, each with an entry that holds it. */
  ghost predicate Lists(disk: Disk, forbidden: seq<(Spot, Entry)>, upTo: nat, found: seq<(Id, nat)>) {
    forall id: Id, i: nat :: (id, i) in found <==> i < upTo && HeldBy(disk, forbidden, i, id)
  }

  predicate InEntryOrder(found: seq<(Id, nat)>) {
    forall a, b :: 0 <= a < b < |found| ==> found[a].1 <= found[b].1
  }

  function Tagged(ids: seq<Id>, n: nat): (tagged: seq<(Id, nat)>)
    ensures |tagged| == |ids| && forall k :: 0 <= k < |ids| ==> tagged[k] == (ids[k], n)
  {
    seq(|ids|, k requires 0 <= k < |ids| => (ids[k], n))
  }

  lemma TaggingOneMore(disk: Disk, forbidden: seq<(Spot, Entry)>, n: nat, found: seq<(Id, nat)>, ids: seq<Id>)
    requires n < |forbidden| && Lists(disk, forbidden, n, found)
    requires forall id :: id in ids <==> HoldsAt(disk, forbidden[n].0.said, id)
    ensures Lists(disk, forbidden, n + 1, found + Tagged(ids, n))
  {
    var tagged := Tagged(ids, n);
    forall id: Id, i: nat ensures (id, i) in found + tagged <==> i < n + 1 && HeldBy(disk, forbidden, i, id) {
      if i == n && id in ids {
        var k :| 0 <= k < |ids| && ids[k] == id;
        assert tagged[k] == (id, i);
      }
      assert (id, i) in found + tagged <==> (id, i) in found || (id, i) in tagged;
    }
  }

  /** Every file inside an excluded entry, by inode identity. */
  method ForbiddenInodes(disk: Disk, forbidden: seq<(Spot, Entry)>) returns (found: seq<(Id, nat)>)
    requires WellFormed(disk.root)
    ensures Lists(disk, forbidden, |forbidden|, found)
    ensures InEntryOrder(found)
  {
    found := [];
    var n: nat := 0;
    while n < |forbidden|
      invariant n <= |forbidden|
      invariant Lists(disk, forbidden, n, found)
      invariant InEntryOrder(found) && forall e :: e in found ==> e.1 < n
    {
      var ids := FilesUnder(disk, forbidden[n].0.said);
      TaggingOneMore(disk, forbidden, n, found, ids);
      found := found + Tagged(ids, n);
      n := n + 1;
    }
  }

  /** The first pair about `id` in the table, by a scan. */
  method FindInode(found: seq<(Id, nat)>, id: Id) returns (at: Option<nat>)
    ensures at.None? ==> forall i: nat :: (id, i) !in found
    ensures at.Some? ==> (id, at.value) in found
    ensures at.Some? && InEntryOrder(found) ==> forall i: nat :: (id, i) in found ==> at.value <= i
  {
    var k := 0;
    while k < |found|
      invariant k <= |found| && forall j :: 0 <= j < k ==> found[j].0 != id
    {
      if found[k].0 == id { return Some(found[k].1); }
      k := k + 1;
    }
    at := None;
  }

  lemma FoundIsFirstHolder(disk: Disk, forbidden: seq<(Spot, Entry)>, found: seq<(Id, nat)>, id: Id, at: Option<nat>)
    requires Lists(disk, forbidden, |forbidden|, found)
    requires at.None? ==> forall i: nat :: (id, i) !in found
    requires at.Some? ==> (id, at.value) in found && forall i: nat :: (id, i) in found ==> at.value <= i
    ensures FirstHolder(disk, forbidden, id) == if at.Some? then at.value else |forbidden|
  {
    var i := FirstHolder(disk, forbidden, id);
    if at.Some? { assert HeldBy(disk, forbidden, at.value, id); }
    if i < |forbidden| { assert (id, i) in found; }
  }

  predicate Suspect(disk: Disk, ground: Ground, finding: Finding) {
    Severity(finding.1) == 0 && MultiplyLinked(disk, ground, finding.0)
  }

  ghost function After(disk: Disk, ground: Ground, finding: Finding): Finding {
    (finding.0, Relinked(disk, ground, finding.0, finding.1))
  }

  function Flags(disk: Disk, ground: Ground, findings: seq<Finding>): (flags: seq<bool>)
    ensures |flags| == |findings|
    ensures forall i :: 0 <= i < |findings| ==> flags[i] == Suspect(disk, ground, findings[i])
  {
    seq(|findings|, i requires 0 <= i < |findings| => Suspect(disk, ground, findings[i]))
  }

  /** The flagged positions, in order. */
  method Positions(flags: seq<bool>) returns (at: seq<nat>)
    ensures forall j :: 0 <= j < |at| ==> at[j] < |flags| && flags[at[j]]
    ensures forall a, b :: 0 <= a < b < |at| ==> at[a] < at[b]
    ensures forall i: nat :: i < |flags| && flags[i] ==> i in at
  {
    at := [];
    var k: nat := 0;
    while k < |flags|
      invariant k <= |flags|
      invariant forall j :: 0 <= j < |at| ==> at[j] < k && flags[at[j]]
      invariant forall a, b :: 0 <= a < b < |at| ==> at[a] < at[b]
      invariant forall i: nat :: i < k && flags[i] ==> i in at
    {
      if flags[k] { at := at + [k]; }
      k := k + 1;
    }
  }

  /** One suspect looked up in the table. */
  method Recheck(disk: Disk, ground: Ground, inodes: seq<(Id, nat)>, finding: Finding) returns (checked: Finding)
    requires Suspect(disk, ground, finding)
    requires Lists(disk, ground.forbidden, |ground.forbidden|, inodes) && InEntryOrder(inodes)
    ensures checked == After(disk, ground, finding)
  {
    var id := OwnNode(disk, ground, finding.0).value.id;
    var at := FindInode(inodes, id);
    FoundIsFirstHolder(disk, ground.forbidden, inodes, id, at);
    checked := if at.Some? then (finding.0, Excluded(ground.forbidden[at.value].1, Inode)) else finding;
  }

  class GuardReport {
    var findings: seq<Finding>
    var standing: seq<(Path, Entry)>

    constructor ()
      ensures findings == [] && standing == []
    {
      findings, standing := [], [];
    }

    /** The exit of the worst finding, the last of the equally bad ones. */
    method Exit() returns (exit: Exit)
      ensures exit == if standing != [] then ExitRejected else ExitAt(Worst(VerdictsOf(findings)))
    {
      if standing != [] { return ExitRejected; }
      if findings == [] { return ExitOk; }
      var best := 0;
      var i := 1;
      while i < |findings|
        invariant 0 <= best < i <= |findings|
        invariant forall j :: 0 <= j < i ==> Severity(findings[j].1) <= Severity(findings[best].1)
      {
        if Severity(findings[i].1) >= Severity(findings[best].1) { best := i; }
        i := i + 1;
      }
      WorstIsReached(VerdictsOf(findings), best);
      exit := ExitOf(findings[best].1);
    }

    /** One finding per candidate, in the order given. */
    method Examine(disk: Disk, manifest: seq<Entry>, ground: Ground, candidates: seq<RawPath>)
      requires findings == []
      modifies this`findings
      ensures |findings| == |candidates|
      ensures forall i :: 0 <= i < |candidates| ==>
                findings[i] == (candidates[i], Classify(disk, manifest, ground, candidates[i]))
    {
      var k := 0;
      while k < |candidates|
        invariant k <= |candidates| && |findings| == k
        invariant forall i :: 0 <= i < k ==>
          findings[i] == (candidates[i], Classify(disk, manifest, ground, candidates[i]))
      {
        findings := findings + [(candidates[k], Classify(disk, manifest, ground, candidates[k]))];
        k := k + 1;
      }
    }

    /** Refuses hardlinks to files inside excluded entries, walking those only when a candidate needs it. */
    method RefuseHardlinks(disk: Disk, ground: Ground)
      requires WellFormed(disk.root)
      modifies this`findings
      ensures |findings| == |old(findings)|
      ensures forall i :: 0 <= i < |findings| ==> findings[i] == After(disk, ground, old(findings)[i])
    {
      ghost var before := findings;
      var suspect := Positions(Flags(disk, ground, findings));
      if suspect == [] { return; }
      var inodes := ForbiddenInodes(disk, ground.forbidden);
      var n := 0;
      while n < |suspect|
        invariant n <= |suspect| && |findings| == |before|
        invariant forall i :: 0 <= i < |before| && !Suspect(disk, ground, before[i]) ==> findings[i] == before[i]
        invariant forall j :: 0 <= j < n ==> findings[suspect[j]] == After(disk, ground, before[suspect[j]])
        invariant forall j :: n <= j < |suspect| ==> findings[suspect[j]] == before[suspect[j]]
      {
        var checked := Recheck(disk, ground, inodes, findings[suspect[n]]);
        findings := findings[suspect[n] := checked];
        n := n + 1;
      }
    }
  }

  /** `guard_commit`, from the ground it stands on to its exit. */
  method GuardCommit(disk: Disk, manifest: seq<Entry>, base: Path, root: RawPath, excluded: seq<(RawPath, Entry)>,
                     tree: Option<Spot>, candidates: seq<RawPath>) returns (exit: Exit)
    requires WellFormed(disk.root)
    ensures exit == Decision(disk, manifest, base, root, excluded, tree, candidates)
  {
    var on := GroundOf(disk, base, root, excluded);
    if on.None? { return Config; }
    var ground := on.value;
    var report := new GuardReport();
    if tree.Some? { report.standing := Standing(disk, ground.forbidden, tree.value); }
    report.Examine(disk, manifest, ground, candidates);
    report.RefuseHardlinks(disk, ground);
    assert VerdictsOf(report.findings) == FinalVerdicts(disk, manifest, ground, candidates);
    exit := report.Exit();
  }
}
