/**
 The entity references of a record: the stated ones, the erasure unit, and those inferred from its text,
 over any canonicaliser and any list of inferred references.
 */
module References {
  import opened Wrappers

  datatype Role = Primary | Related

  datatype Ref = Ref(kind: string, id: string, role: Role)

  datatype Usage =
    | Malformed(spec: string)
    | Contradicts(existing: Ref)

  datatype Result<T> = Ok(value: T) | Err(error: Usage)

  /** The registry's canonical form of an identifier, if it knows one, and what the extractor found. */
  datatype Extractor = Extractor(canonicalise: (string, string) -> Result<string>, found: seq<Ref>)

  /** Where the first `:` is, or the length. */
  function FirstColon(spec: string): (i: nat)
    ensures i <= |spec| && ':' !in spec[..i]
    ensures i < |spec| ==> spec[i] == ':'
  {
    if spec == [] || spec[0] == ':' then 0
    else
      var i := 1 + FirstColon(spec[1..]);
      assert spec[..i] == [spec[0]] + spec[1..][..i - 1];
      i
  }

  /** `entity_ref`. */
  function ParseRef(spec: string): Result<Ref> {
    var i := FirstColon(spec);
    if i == |spec| || i == 0 || i + 1 == |spec| then Err(Malformed(spec))
    else Ok(Ref(spec[..i], spec[i + 1..], Primary))
  }

  /** A spec reads as a reference exactly when it is that reference written out. */
  lemma ParsedExactlyWhenWritten(spec: string, kind: string, id: string)
    ensures ParseRef(spec) == Ok(Ref(kind, id, Primary)) <==>
              spec == kind + ":" + id && ':' !in kind && kind != "" && id != ""
  {
    var i := FirstColon(spec);
    if i < |spec| { assert spec == spec[..i] + ":" + spec[i + 1..]; }
    if spec == kind + ":" + id && ':' !in kind {
      assert spec[|kind|] == ':';
      assert spec[..|kind|] == kind && spec[|kind| + 1..] == id;
    }
  }

  function FirstOfKind(stated: seq<Ref>, kind: string): (i: nat)
    ensures i <= |stated| && forall j :: 0 <= j < i ==> stated[j].kind != kind
    ensures i < |stated| ==> stated[i].kind == kind
  {
    if stated == [] || stated[0].kind == kind then 0 else 1 + FirstOfKind(stated[1..], kind)
  }

  /** What merging comes to: the first stated reference of the unit's kind decides. */
  function Merged(stated: seq<Ref>, unit: string): Result<seq<Ref>> {
    match ParseRef(unit)
    case Err(e) => Err(e)
    case Ok(reference) =>
      var i := FirstOfKind(stated, reference.kind);
      if i == |stated| then Ok(stated + [reference])
      else if stated[i].id == reference.id then Ok(stated)
      else Err(Contradicts(stated[i]))
  }

  /** `merge_erasure_unit`. */
  method MergeErasureUnit(stated: seq<Ref>, unit: string) returns (merged: Result<seq<Ref>>)
    ensures merged == Merged(stated, unit)
  {
    match ParseRef(unit) {
      case Err(e) => merged := Err(e);
      case Ok(reference) =>
        var n := 0;
        while n < |stated|
          invariant n <= |stated| && forall j :: 0 <= j < n ==> stated[j].kind != reference.kind
        {
          if stated[n].kind == reference.kind {
            return if stated[n].id == reference.id then Ok(stated) else Err(Contradicts(stated[n]));
          }
          n := n + 1;
        }
        merged := Ok(stated + [reference]);
    }
  }

  /** No reference of this kind names anything else. */
  predicate NoSecondId(refs: seq<Ref>, kind: string, id: string) {
    forall i :: 0 <= i < |refs| && refs[i].kind == kind ==> refs[i].id == id
  }

  /**
   When merging lets a record through, it names the unit; and it names nothing else of that kind exactly
   when no stated reference did.
   */
  lemma NoSecondIdExactlyWhen(stated: seq<Ref>, unit: string)
    requires Merged(stated, unit).Ok?
    ensures var reference := ParseRef(unit).value;
      var refs := Merged(stated, unit).value;
      && (exists i :: 0 <= i < |refs| && refs[i].kind == reference.kind && refs[i].id == reference.id)
      && stated <= refs && |refs| <= |stated| + 1
      && (NoSecondId(refs, reference.kind, reference.id) <==> NoSecondId(stated, reference.kind, reference.id))
  {
    var reference := ParseRef(unit).value;
    var refs := Merged(stated, unit).value;
    var i := FirstOfKind(stated, reference.kind);
    assert refs[i].kind == reference.kind && refs[i].id == reference.id;
    assert forall j :: 0 <= j < |stated| ==> refs[j] == stated[j];
  }

  /** A list that names the unit and something else of its kind. */
  predicate Mixed(stated: seq<Ref>, kind: string, id: string) {
    && (exists i :: 0 <= i < |stated| && stated[i].kind == kind && stated[i].id == id)
    && !NoSecondId(stated, kind, id)
  }

  ghost predicate SameRefs(a: seq<Ref>, b: seq<Ref>) {
    multiset(a) == multiset(b)
  }

  lemma MovedToFront(s: seq<Ref>, i: nat)
    requires i < |s|
    ensures SameRefs([s[i]] + s[..i] + s[i + 1..], s)
  {
    assert s == s[..i] + [s[i]] + s[i + 1..];
  }

  lemma SameMembers(a: seq<Ref>, b: seq<Ref>)
    requires SameRefs(a, b)
    ensures forall r :: r in a <==> r in b
  {
    forall r ensures r in a <==> r in b {
      assert r in a <==> r in multiset(a);
      assert r in b <==> r in multiset(b);
    }
  }

  /**
   Whether a record passes does not depend on the order its references are stated in, exactly when they
   do not both name the unit and contradict it.
   */
  lemma OrderDecidesOnlyMixedLists(stated: seq<Ref>, unit: string)
    requires ParseRef(unit).Ok?
    ensures (forall other :: SameRefs(other, stated) ==> (Merged(other, unit).Ok? <==> Merged(stated, unit).Ok?))
        <==> !Mixed(stated, ParseRef(unit).value.kind, ParseRef(unit).value.id)
  {
    var reference := ParseRef(unit).value;
    if Mixed(stated, reference.kind, reference.id) {
      var a :| 0 <= a < |stated| && stated[a].kind == reference.kind && stated[a].id == reference.id;
      var b :| 0 <= b < |stated| && stated[b].kind == reference.kind && stated[b].id != reference.id;
      MovedToFront(stated, a);
      MovedToFront(stated, b);
      var passes := [stated[a]] + stated[..a] + stated[a + 1..];
      var refused := [stated[b]] + stated[..b] + stated[b + 1..];
      assert passes[0] == stated[a] && refused[0] == stated[b];
      assert Merged(passes, unit).Ok? && !Merged(refused, unit).Ok?;
    } else {
      forall other | SameRefs(other, stated) ensures Merged(other, unit).Ok? <==> Merged(stated, unit).Ok? {
        SameMembers(other, stated);
        DecidedByMembers(stated, other, unit);
      }
    }
  }

  lemma DecidedByMembers(stated: seq<Ref>, other: seq<Ref>, unit: string)
    requires ParseRef(unit).Ok? && !Mixed(stated, ParseRef(unit).value.kind, ParseRef(unit).value.id)
    requires forall r :: r in other <==> r in stated
    ensures Merged(other, unit).Ok? <==> Merged(stated, unit).Ok?
  {
    var reference := ParseRef(unit).value;
    var i := FirstOfKind(stated, reference.kind);
    var j := FirstOfKind(other, reference.kind);
    if j < |other| { assert other[j] in stated; }
    if i < |stated| { assert stated[i] in other; }
  }

  /** Stated X then Y with unit X passes, though the record then names two; Y then X is refused. */
  lemma OneOrderPassesTheOtherIsRefused(kind: string, x: string, y: string)
    requires ':' !in kind && kind != "" && x != "" && x != y
    ensures var X, Y, unit := Ref(kind, x, Primary), Ref(kind, y, Primary), kind + ":" + x;
      && Merged([X, Y], unit) == Ok([X, Y]) && !NoSecondId([X, Y], kind, x)
      && Merged([Y, X], unit) == Err(Contradicts(Y))
  {
    var X, Y, unit := Ref(kind, x, Primary), Ref(kind, y, Primary), kind + ":" + x;
    ParsedExactlyWhenWritten(unit, kind, x);
    assert FirstOfKind([X, Y], kind) == 0 && FirstOfKind([Y, X], kind) == 0;
    assert [X, Y][1].kind == kind && [X, Y][1].id == y;
  }

  /** An identifier as the store will hold it, or as typed when the registry cannot say. */
  function CanonicalId(x: Extractor, r: Ref): string {
    match x.canonicalise(r.kind, r.id)
    case Ok(id) => id
    case Err(_) => r.id
  }

  type Key = (string, string)

  function Claimed(x: Extractor, stated: seq<Ref>): (keys: seq<Key>)
    ensures |keys| == |stated|
    ensures forall i :: 0 <= i < |stated| ==> keys[i] == (stated[i].kind, CanonicalId(x, stated[i]))
  {
    seq(|stated|, i requires 0 <= i < |stated| => (stated[i].kind, CanonicalId(x, stated[i])))
  }

  /** The inferred references no stated one already makes, in the order found. */
  function Unclaimed(found: seq<Ref>, claimed: seq<Key>): seq<Ref> {
    if found == [] then []
    else
      var last := found[|found| - 1];
      Unclaimed(found[..|found| - 1], claimed) + if IsClaimed(last, claimed) then [] else [last]
  }

  function ParseAll(specs: seq<string>): Result<seq<Ref>> {
    if specs == [] then Ok([])
    else
      match ParseRef(specs[0])
      case Err(e) => Err(e)
      case Ok(r) =>
        match ParseAll(specs[1..])
        case Err(e) => Err(e)
        case Ok(rest) => Ok([r] + rest)
  }

  /** `entities`, for an emission with or without an erasure unit and with or without inference. */
  function Entities(specs: seq<string>, unit: Option<string>, extractor: Option<Extractor>): Result<seq<Ref>> {
    match ParseAll(specs)
    case Err(e) => Err(e)
    case Ok(stated) =>
      var merged := if unit.Some? then Merged(stated, unit.value) else Ok(stated);
      match merged
      case Err(e) => Err(e)
      case Ok(refs) =>
        if extractor.None? then Ok(refs)
        else Ok(refs + Unclaimed(extractor.value.found, Claimed(extractor.value, refs)))
  }

  lemma {:induction false} ParsedInOrder(specs: seq<string>)
    requires ParseAll(specs).Ok?
    ensures |ParseAll(specs).value| == |specs|
    ensures forall i :: 0 <= i < |specs| ==> ParseRef(specs[i]) == Ok(ParseAll(specs).value[i])
  {
    if specs != [] {
      ParsedInOrder(specs[1..]);
      assert forall i :: 0 < i < |specs| ==> specs[i] == specs[1..][i - 1];
    }
  }

  predicate IsClaimed(r: Ref, claimed: seq<Key>) {
    (r.kind, r.id) in claimed
  }

  /** `kept` is `found` at these positions, in order. */
  ghost predicate IsAt(found: seq<Ref>, kept: seq<Ref>, at: seq<nat>) {
    && |at| == |kept|
    && (forall k :: 0 <= k < |at| ==> at[k] < |found| && kept[k] == found[at[k]])
    && (forall j, k :: 0 <= j < k < |at| ==> at[j] < at[k])
  }

  /** The positions are exactly those whose key is not claimed. */
  ghost predicate Picks(found: seq<Ref>, claimed: seq<Key>, at: seq<nat>) {
    forall i: nat :: i < |found| ==> (i in at <==> !IsClaimed(found[i], claimed))
  }

  lemma PicksOneMore(found: seq<Ref>, last: Ref, claimed: seq<Key>, kept: seq<Ref>, at: seq<nat>)
    requires IsAt(found, kept, at) && Picks(found, claimed, at) && !IsClaimed(last, claimed)
    ensures IsAt(found + [last], kept + [last], at + [|found|]) && Picks(found + [last], claimed, at + [|found|])
  {
    var n: nat := |found|;
    assert (at + [n])[|at|] == n;
    forall i: nat | i < |found + [last]| ensures i in at + [n] <==> !IsClaimed((found + [last])[i], claimed) {
      assert i in at + [n] <==> i in at || i == n;
    }
  }

  lemma PicksNoMore(found: seq<Ref>, last: Ref, claimed: seq<Key>, kept: seq<Ref>, at: seq<nat>)
    requires IsAt(found, kept, at) && Picks(found, claimed, at) && IsClaimed(last, claimed)
    ensures IsAt(found + [last], kept, at) && Picks(found + [last], claimed, at)
  {
  }

  lemma {:induction false} UnclaimedPicks(found: seq<Ref>, claimed: seq<Key>) returns (at: seq<nat>)
    ensures IsAt(found, Unclaimed(found, claimed), at) && Picks(found, claimed, at)
    decreases |found|
  {
    if found == [] {
      at := [];
    } else {
      var n := |found| - 1;
      at := UnclaimedPicks(found[..n], claimed);
      assert found == found[..n] + [found[n]];
      if IsClaimed(found[n], claimed) {
        PicksNoMore(found[..n], found[n], claimed, Unclaimed(found[..n], claimed), at);
      } else {
        PicksOneMore(found[..n], found[n], claimed, Unclaimed(found[..n], claimed), at);
        at := at + [n];
      }
    }
  }

  /**
   On success: what was stated, in order; then the erasure unit, if no stated reference has its kind;
   then, in the order found, exactly the inferred references that share no canonical key with those.
   */
  lemma EntitiesAreStatedThenInferred(specs: seq<string>, unit: Option<string>, extractor: Option<Extractor>)
      returns (stated: seq<Ref>, inferred: seq<Ref>, at: seq<nat>)
    requires Entities(specs, unit, extractor).Ok?
    ensures Entities(specs, unit, extractor) == Ok(stated + inferred)
    ensures |specs| <= |stated| <= |specs| + 1
    ensures forall i :: 0 <= i < |specs| ==> ParseRef(specs[i]) == Ok(stated[i])
    ensures |stated| == |specs| + 1 <==>
              unit.Some? && forall i :: 0 <= i < |specs| ==> stated[i].kind != ParseRef(unit.value).value.kind
    ensures |stated| == |specs| + 1 ==> ParseRef(unit.value) == Ok(stated[|specs|])
    ensures extractor.None? ==> inferred == []
    ensures extractor.Some? ==>
              && IsAt(extractor.value.found, inferred, at)
              && Picks(extractor.value.found, Claimed(extractor.value, stated), at)
  {
    ParsedInOrder(specs);
    var parsed := ParseAll(specs).value;
    stated := if unit.Some? then Merged(parsed, unit.value).value else parsed;
    inferred, at := [], [];
    if extractor.Some? {
      inferred := Unclaimed(extractor.value.found, Claimed(extractor.value, stated));
      at := UnclaimedPicks(extractor.value.found, Claimed(extractor.value, stated));
    } else {
      assert stated + [] == stated;
    }
  }

  lemma {:induction false} ParsingFailsAtASpec(specs: seq<string>)
    ensures ParseAll(specs).Err? <==> exists i :: 0 <= i < |specs| && ParseRef(specs[i]).Err?
    decreases |specs|
  {
    if specs != [] {
      ParsingFailsAtASpec(specs[1..]);
      assert forall i :: 0 < i < |specs| ==> specs[i] == specs[1..][i - 1];
    }
  }

  ghost predicate FirstDiffers(stated: seq<Ref>, unit: Ref) {
    exists i :: 0 <= i < |stated| && stated[i].kind == unit.kind && stated[i].id != unit.id &&
      forall j :: 0 <= j < i ==> stated[j].kind != unit.kind
  }

  /** The merge refuses exactly a unit whose kind is first stated with another identifier. */
  lemma MergeRefusesExactlyWhen(stated: seq<Ref>, unit: string)
    requires ParseRef(unit).Ok?
    ensures Merged(stated, unit).Err? <==> FirstDiffers(stated, ParseRef(unit).value)
  {
    var first := FirstOfKind(stated, ParseRef(unit).value.kind);
  }

  /** A record is refused exactly for an unreadable reference, or a first one of the unit's kind that differs. */
  lemma RefusedExactlyWhen(specs: seq<string>, unit: Option<string>, extractor: Option<Extractor>)
    ensures ParseAll(specs).Err? <==> exists i :: 0 <= i < |specs| && ParseRef(specs[i]).Err?
    ensures Entities(specs, unit, extractor).Err? <==>
              || ParseAll(specs).Err?
              || (unit.Some? && ParseRef(unit.value).Err?)
              || (unit.Some? && FirstDiffers(ParseAll(specs).value, ParseRef(unit.value).value))
  {
    ParsingFailsAtASpec(specs);
    if ParseAll(specs).Ok? && unit.Some? && ParseRef(unit.value).Ok? {
      MergeRefusesExactlyWhen(ParseAll(specs).value, unit.value);
    }
  }

  /** The key the store joins on, for a reference at this position of the list. */
  function KeyAt(x: Extractor, stated: seq<Ref>, inferred: seq<Ref>, i: nat): Key
    requires i < |stated| + |inferred|
  {
    if i < |stated| then (stated[i].kind, CanonicalId(x, stated[i]))
    else (inferred[i - |stated|].kind, inferred[i - |stated|].id)
  }

  predicate Distinct(keys: seq<Key>) {
    forall i, j :: 0 <= i < j < |keys| ==> keys[i] != keys[j]
  }

  function Keys(found: seq<Ref>): (keys: seq<Key>)
    ensures |keys| == |found| && forall i :: 0 <= i < |found| ==> keys[i] == (found[i].kind, found[i].id)
  {
    seq(|found|, i requires 0 <= i < |found| => (found[i].kind, found[i].id))
  }

  /**
   Merging never puts a key in the record both as a fact and as a guess; a key comes twice only if it was
   stated twice or found twice.
   */
  lemma NoKeyIsBothStatedAndInferred(x: Extractor, stated: seq<Ref>)
    ensures var inferred := Unclaimed(x.found, Claimed(x, stated));
      && (forall i, j :: 0 <= i < |stated| <= j < |stated| + |inferred| ==>
            KeyAt(x, stated, inferred, i) != KeyAt(x, stated, inferred, j))
      && (Distinct(Claimed(x, stated)) && Distinct(Keys(x.found)) ==>
            forall i, j :: 0 <= i < j < |stated| + |inferred| ==>
              KeyAt(x, stated, inferred, i) != KeyAt(x, stated, inferred, j))
  {
    var claimed := Claimed(x, stated);
    var inferred := Unclaimed(x.found, claimed);
    var at := UnclaimedPicks(x.found, claimed);
    forall i, j | 0 <= i < |stated| <= j < |stated| + |inferred|
      ensures KeyAt(x, stated, inferred, i) != KeyAt(x, stated, inferred, j)
    {
      var k := j - |stated|;
      assert at[k] in at;
      assert claimed[i] in claimed;
    }
    if Distinct(claimed) && Distinct(Keys(x.found)) {
      forall i, j | 0 <= i < j < |stated| + |inferred|
        ensures KeyAt(x, stated, inferred, i) != KeyAt(x, stated, inferred, j)
      {
        if j < |stated| {
          assert claimed[i] != claimed[j];
        } else if i >= |stated| {
          assert at[i - |stated|] < at[j - |stated|];
          assert Keys(x.found)[at[i - |stated|]] != Keys(x.found)[at[j - |stated|]];
        }
      }
    }
  }
}
