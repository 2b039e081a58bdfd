/**
 What the guard's exit means, said without the guard's own steps: which inputs give which exit, and how the
 exit depends on the candidates.
 */
module GuardExact {
  import opened Wrappers
  import opened FileTree
  import opened Reduction
  import opened Inodes
  import opened Exits
  import opened Guard

  /** The question: a store, its manifest, what it excludes, the work tree if there is one, and the paths. */
  datatype Query = Query(disk: Disk, manifest: seq<Entry>, base: Path, root: RawPath,
                         excluded: seq<(RawPath, Entry)>, tree: Option<Spot>)
  {
    function Said(p: RawPath): Path {
      Reduced(base, p)
    }

    function Actual(p: RawPath): Found {
      Canonical(disk, Said(p))
    }
  }

  ghost function Answer(q: Query, candidates: seq<RawPath>): Exit {
    Decision(q.disk, q.manifest, q.base, q.root, q.excluded, q.tree, candidates)
  }

  /** The store and everything it excludes can be resolved, or is not there. */
  ghost predicate Grounded(q: Query) {
    !q.Actual(q.root).Refused? && forall i :: 0 <= i < |q.excluded| ==> !q.Actual(q.excluded[i].0).Refused?
  }

  /** At or inside, by what the paths say or by where they lead. */
  ghost predicate Inside(q: Query, p: RawPath, outer: RawPath) {
    || q.Said(outer) <= q.Said(p)
    || (q.Actual(p).Place? && q.Actual(outer).Place? && q.Actual(outer).path <= q.Actual(p).path)
  }

  ghost predicate InsideExcluded(q: Query, p: RawPath) {
    exists i :: 0 <= i < |q.excluded| && Inside(q, p, q.excluded[i].0)
  }

  /** An excluded entry exists, and lies in the work tree. */
  ghost predicate ExposedAt(q: Query, i: nat) {
    && i < |q.excluded|
    && q.tree.Some?
    && Lstat(q.disk, q.Said(q.excluded[i].0)).Some?
    && (|| q.tree.value.said <= q.Said(q.excluded[i].0)
        || (&& q.Actual(q.excluded[i].0).Place? && q.tree.value.actual.Some?
            && q.tree.value.actual.value <= q.Actual(q.excluded[i].0).path))
  }

  ghost predicate Exposed(q: Query) {
    exists i: nat :: ExposedAt(q, i)
  }

  ghost predicate LeadsBelowRoot(q: Query, p: RawPath) {
    q.Actual(p).Place? && q.Actual(q.root).Place? && q.Actual(q.root).path < q.Actual(p).path
  }

  ghost predicate BelowRoot(q: Query, p: RawPath) {
    LeadsBelowRoot(q, p) || q.Said(q.root) < q.Said(p)
  }

  /** The name in the root a path falls under: by where it leads when that is below the root. */
  ghost function TopName(q: Query, p: RawPath): Name
    requires BelowRoot(q, p)
  {
    if LeadsBelowRoot(q, p) then q.Actual(p).path[|q.Actual(q.root).path|] else q.Said(p)[|q.Said(q.root)|]
  }

  /** `e` is what the manifest says about a name: its first entry of that name. */
  ghost predicate Governs(manifest: seq<Entry>, name: Name, e: Entry) {
    exists i :: 0 <= i < |manifest| && manifest[i] == e && e.name == name &&
      forall j :: 0 <= j < i ==> manifest[j].name != name
  }

  /** A path the manifest lets through by name: beside the root, or there and under an included entry. */
  ghost predicate LetThrough(q: Query, p: RawPath) {
    && !q.Actual(p).Refused?
    && !InsideExcluded(q, p)
    && (BelowRoot(q, p) ==>
          q.Actual(p).Place? && exists e :: Governs(q.manifest, TopName(q, p), e) && e.included)
  }

  /** A file with several names, one of them inside an excluded entry. */
  ghost predicate SharesAnInode(q: Query, p: RawPath) {
    match Lstat(q.disk, Joined(q.base, p))
    case Some(File(id, links)) =>
      links > 1 && exists i :: 0 <= i < |q.excluded| && HoldsAt(q.disk, q.Said(q.excluded[i].0), id)
    case _ => false
  }

  ghost predicate Safe(q: Query, p: RawPath) {
    LetThrough(q, p) && !SharesAnInode(q, p)
  }

  ghost predicate Unclassed(q: Query, p: RawPath) {
    && !q.Actual(p).Refused? && !InsideExcluded(q, p)
    && BelowRoot(q, p) && q.Actual(p).Place? && forall e :: !Governs(q.manifest, TopName(q, p), e)
  }

  ghost predicate Unknowable(q: Query, p: RawPath) {
    q.Actual(p).Refused? || (!InsideExcluded(q, p) && BelowRoot(q, p) && q.Actual(p).Absent?)
  }

  ghost predicate Denied(q: Query, p: RawPath) {
    && !q.Actual(p).Refused?
    && (|| InsideExcluded(q, p)
        || (BelowRoot(q, p) && q.Actual(p).Place? && exists e :: Governs(q.manifest, TopName(q, p), e) && !e.included)
        || (LetThrough(q, p) && SharesAnInode(q, p)))
  }

  lemma {:induction false} SpotsAreThereWhenAllRead(disk: Disk, base: Path, excluded: seq<(RawPath, Entry)>)
    ensures Spots(disk, base, excluded).Some? <==>
              forall i :: 0 <= i < |excluded| ==> SpotOf(disk, base, excluded[i].0).Some?
    decreases |excluded|
  {
    if excluded != [] {
      SpotsAreThereWhenAllRead(disk, base, excluded[1..]);
      assert forall i :: 0 < i < |excluded| ==> excluded[i] == excluded[1..][i - 1];
      assert (forall i :: 0 < i < |excluded| ==> SpotOf(disk, base, excluded[i].0).Some?)
        <==> (forall i :: 0 <= i < |excluded[1..]| ==> SpotOf(disk, base, excluded[1..][i].0).Some?);
    }
  }

  lemma {:induction false} SpotsAreRead(disk: Disk, base: Path, excluded: seq<(RawPath, Entry)>)
    requires Spots(disk, base, excluded).Some?
    ensures var spots := Spots(disk, base, excluded).value;
      && |spots| == |excluded|
      && forall i :: 0 <= i < |excluded| ==>
           SpotOf(disk, base, excluded[i].0) == Some(spots[i].0) && spots[i].1 == excluded[i].1
    decreases |excluded|
  {
    if excluded != [] {
      SpotsAreRead(disk, base, excluded[1..]);
      assert forall i :: 0 < i < |excluded| ==> excluded[i] == excluded[1..][i - 1];
    }
  }

  lemma {:induction false} FirstEntryGoverns(manifest: seq<Entry>, name: Name)
    ensures ManifestEntry(manifest, name).Some? ==> Governs(manifest, name, ManifestEntry(manifest, name).value)
    ensures forall e :: Governs(manifest, name, e) ==> ManifestEntry(manifest, name) == Some(e)
    decreases |manifest|
  {
    if manifest != [] && manifest[0].name != name {
      FirstEntryGoverns(manifest[1..], name);
      forall e ensures Governs(manifest, name, e) <==> Governs(manifest[1..], name, e) {
        if Governs(manifest, name, e) {
          var i :| 0 <= i < |manifest| && manifest[i] == e && forall j :: 0 <= j < i ==> manifest[j].name != name;
          assert manifest[1..][i - 1] == e;
        }
        if Governs(manifest[1..], name, e) {
          var i :| 0 <= i < |manifest[1..]| && manifest[1..][i] == e &&
            forall j :: 0 <= j < i ==> manifest[1..][j].name != name;
          assert manifest[i + 1] == e;
          assert forall j :: 0 < j < i + 1 ==> manifest[j] == manifest[1..][j - 1];
        }
      }
    }
  }

  lemma ManifestDecides(manifest: seq<Entry>, name: Name)
    ensures var found := ManifestEntry(manifest, name);
      && ((exists e :: Governs(manifest, name, e) && e.included) <==> found.Some? && found.value.included)
      && ((exists e :: Governs(manifest, name, e) && !e.included) <==> found.Some? && !found.value.included)
      && ((exists e :: Governs(manifest, name, e)) <==> found.Some?)
  {
    FirstEntryGoverns(manifest, name);
  }

  lemma {:induction false} MatchIsInside(spot: Spot, forbidden: seq<(Spot, Entry)>)
    ensures FirstMatch(spot, forbidden).Some? <==>
              exists i :: 0 <= i < |forbidden| && Within(spot, forbidden[i].0).Some?
    ensures FirstMatch(spot, forbidden).Some? ==> FirstMatch(spot, forbidden).value.Excluded?
    decreases |forbidden|
  {
    if forbidden != [] && Within(spot, forbidden[0].0).None? {
      MatchIsInside(spot, forbidden[1..]);
      assert forall i :: 0 < i < |forbidden| ==> forbidden[i] == forbidden[1..][i - 1];
    }
  }

  /** The ground, when there is one, holds each excluded path as it reads. */
  ghost predicate Stands(q: Query, ground: Ground) {
    && ground.base == q.base
    && SpotOf(q.disk, q.base, q.root) == Some(ground.root)
    && |ground.forbidden| == |q.excluded|
    && forall i :: 0 <= i < |q.excluded| ==>
         SpotOf(q.disk, q.base, q.excluded[i].0) == Some(ground.forbidden[i].0)
         && ground.forbidden[i].1 == q.excluded[i].1
  }

  lemma GroundStands(q: Query)
    ensures GroundOf(q.disk, q.base, q.root, q.excluded).Some? <==> Grounded(q)
    ensures Grounded(q) ==> Stands(q, GroundOf(q.disk, q.base, q.root, q.excluded).value)
  {
    SpotsAreThereWhenAllRead(q.disk, q.base, q.excluded);
    if Grounded(q) { SpotsAreRead(q.disk, q.base, q.excluded); }
  }

  lemma MatchMeansInsideExcluded(q: Query, ground: Ground, p: RawPath)
    requires Stands(q, ground) && SpotOf(q.disk, q.base, p).Some?
    ensures FirstMatch(SpotOf(q.disk, q.base, p).value, ground.forbidden).Some? <==> InsideExcluded(q, p)
  {
    var spot := SpotOf(q.disk, q.base, p).value;
    MatchIsInside(spot, ground.forbidden);
    forall i | 0 <= i < |q.excluded|
      ensures Within(spot, ground.forbidden[i].0).Some? <==> Inside(q, p, q.excluded[i].0)
    {
      assert SpotOf(q.disk, q.base, q.excluded[i].0) == Some(ground.forbidden[i].0);
    }
  }

  lemma UnderMeansBelowRoot(q: Query, ground: Ground, p: RawPath)
    requires Stands(q, ground) && SpotOf(q.disk, q.base, p).Some?
    ensures var name := Under(SpotOf(q.disk, q.base, p).value, ground.root);
      (name.Some? <==> BelowRoot(q, p)) && (name.Some? ==> name.value == TopName(q, p))
  {
  }

  lemma InodeMeansHeld(q: Query, ground: Ground, p: RawPath)
    requires Stands(q, ground)
    ensures SharesAnInode(q, p) <==>
              MultiplyLinked(q.disk, ground, p)
              && FirstHolder(q.disk, ground.forbidden, OwnNode(q.disk, ground, p).value.id) < |ground.forbidden|
  {
    if MultiplyLinked(q.disk, ground, p) {
      var id := OwnNode(q.disk, ground, p).value.id;
      forall i: nat | i < |q.excluded|
        ensures HeldBy(q.disk, ground.forbidden, i, id) <==> HoldsAt(q.disk, q.Said(q.excluded[i].0), id)
      {
        assert SpotOf(q.disk, q.base, q.excluded[i].0) == Some(ground.forbidden[i].0);
      }
      var first := FirstHolder(q.disk, ground.forbidden, id);
    }
  }

  /** Before inodes: what each verdict of `classify` says about the path. */
  lemma ClassifyIsExact(q: Query, ground: Ground, p: RawPath)
    requires Stands(q, ground)
    ensures var s := Severity(Classify(q.disk, q.manifest, ground, p));
      && (s == 0 <==> LetThrough(q, p))
      && (s == 1 <==> Unclassed(q, p))
      && (s == 2 <==> Unknowable(q, p))
  {
    if SpotOf(q.disk, q.base, p).Some? {
      MatchMeansInsideExcluded(q, ground, p);
      UnderMeansBelowRoot(q, ground, p);
      MatchIsInside(SpotOf(q.disk, q.base, p).value, ground.forbidden);
      if BelowRoot(q, p) { ManifestDecides(q.manifest, TopName(q, p)); }
    }
  }

  lemma VerdictIsExact(q: Query, ground: Ground, p: RawPath)
    requires Stands(q, ground)
    ensures var s := Severity(FinalVerdict(q.disk, q.manifest, ground, p));
      && (s == 0 <==> Safe(q, p))
      && (s == 1 <==> Unclassed(q, p))
      && (s == 2 <==> Unknowable(q, p))
      && (s == 3 <==> Denied(q, p))
  {
    ClassifyIsExact(q, ground, p);
    InodeMeansHeld(q, ground, p);
    if BelowRoot(q, p) { ManifestDecides(q.manifest, TopName(q, p)); }
  }

  lemma {:induction false} StandingIsExposed(q: Query, ground: Ground, from: nat)
    requires Stands(q, ground) && q.tree.Some? && from <= |ground.forbidden|
    ensures Standing(q.disk, ground.forbidden[from..], q.tree.value) != [] <==>
              exists i: nat :: from <= i && ExposedAt(q, i)
    decreases |ground.forbidden| - from
  {
    if from < |ground.forbidden| {
      StandingIsExposed(q, ground, from + 1);
      assert ground.forbidden[from..][0] == ground.forbidden[from];
      assert ground.forbidden[from..][1..] == ground.forbidden[from + 1..];
      assert SpotOf(q.disk, q.base, q.excluded[from].0) == Some(ground.forbidden[from].0);
      assert Exists(q.disk, ground.forbidden[from].0.said) && Within(ground.forbidden[from].0, q.tree.value).Some?
        <==> ExposedAt(q, from);
    }
  }

  /** The worst verdict over the candidates, by the set of candidates alone. */
  lemma WorstIsExact(q: Query, ground: Ground, candidates: seq<RawPath>)
    requires Stands(q, ground)
    ensures var w := Worst(FinalVerdicts(q.disk, q.manifest, ground, candidates));
      && (w == 0 <==> forall p :: p in candidates ==> Safe(q, p))
      && (w >= 2 <==> exists p :: p in candidates && (Unknowable(q, p) || Denied(q, p)))
      && (w >= 3 <==> exists p :: p in candidates && Denied(q, p))
      && w <= 3
  {
    var verdicts := FinalVerdicts(q.disk, q.manifest, ground, candidates);
    WorstBounds(verdicts);
    forall p | p in candidates ensures FinalVerdict(q.disk, q.manifest, ground, p) in verdicts {
      var i :| 0 <= i < |candidates| && candidates[i] == p;
      assert verdicts[i] == FinalVerdict(q.disk, q.manifest, ground, p);
    }
    forall v | v in verdicts ensures exists p :: p in candidates && v == FinalVerdict(q.disk, q.manifest, ground, p) {
      var i :| 0 <= i < |verdicts| && verdicts[i] == v;
      assert candidates[i] in candidates;
    }
    forall p ensures
      var s := Severity(FinalVerdict(q.disk, q.manifest, ground, p));
      (s == 0 <==> Safe(q, p)) && (s == 2 <==> Unknowable(q, p)) && (s == 3 <==> Denied(q, p))
    {
      VerdictIsExact(q, ground, p);
    }
  }

  /**
   The exit, exactly. Ok: the store reads, nothing excluded stands in the work tree, every candidate is
   safe. Each refusal has its own cause, and the worst one wins.
   */
  lemma ExitIsExact(q: Query, candidates: seq<RawPath>)
    ensures Answer(q, candidates) == Config <==> !Grounded(q)
    ensures Answer(q, candidates) == ExitOk <==>
              Grounded(q) && !Exposed(q) && forall p :: p in candidates ==> Safe(q, p)
    ensures Answer(q, candidates) == ExitRejected <==>
              Grounded(q) && (Exposed(q) || exists p :: p in candidates && Denied(q, p))
    ensures Answer(q, candidates) == Failed <==>
              && Grounded(q) && !Exposed(q)
              && (forall p :: p in candidates ==> !Denied(q, p))
              && exists p :: p in candidates && Unknowable(q, p)
    ensures Answer(q, candidates) in {Config, ExitOk, ExitRejected, Failed, Degraded}
  {
    GroundStands(q);
    if Grounded(q) {
      var ground := GroundOf(q.disk, q.base, q.root, q.excluded).value;
      if q.tree.Some? {
        StandingIsExposed(q, ground, 0);
        assert ground.forbidden[0..] == ground.forbidden;
      }
      WorstIsExact(q, ground, candidates);
    }
  }

  /** How bad an exit is, for a given store. */
  function Badness(exit: Exit): nat {
    match exit
    case ExitOk => 0
    case Degraded => 1
    case Failed => 2
    case _ => 3
  }

  /** More candidates never make the exit better: a refusal stays one, and gets no milder. */
  lemma MoreCandidatesOnlyWorse(q: Query, fewer: seq<RawPath>, more: seq<RawPath>)
    requires forall p :: p in fewer ==> p in more
    ensures Badness(Answer(q, fewer)) <= Badness(Answer(q, more))
    ensures Answer(q, fewer) != ExitOk ==> Answer(q, more) != ExitOk
  {
    ExitIsExact(q, fewer);
    ExitIsExact(q, more);
  }

  /** Neither the order of the candidates nor how often one is named matters. */
  lemma OnlyTheSetOfCandidatesMatters(q: Query, a: seq<RawPath>, b: seq<RawPath>)
    requires forall p :: p in a <==> p in b
    ensures Answer(q, a) == Answer(q, b)
  {
    ExitIsExact(q, a);
    ExitIsExact(q, b);
  }
}
