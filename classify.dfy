/** `compare` of Scripts/classify-model-changes.py: the differences between
    two snapshots read by `parse_models`, and the semantic-version bump they
    call for. The method follows the script's loops; its results are tied to
    set-valued specification functions, about which the lemmas below prove
    what the classification promises. */
module Classify {
  import opened Text
  import opened Patterns
  import opened Snapshot

  /** One entry of `added_members` or `removed_members`, kept structured;
      `Render` gives the text the script writes. */
  datatype MemberEntry =
    | Prop(owner: string, name: string)
    | Retyped(owner: string, name: string, typeText: string)
    | Case(owner: string, name: string)

  function Render(e: MemberEntry): string
  {
    match e
    case Prop(t, p) => t + "." + p
    case Retyped(t, k, typeText) => t + "." + k + ":" + typeText
    case Case(t, c) => t + ".case." + c
  }

  datatype Semver = Major | Minor | Patch

  /** The descriptor `compare` returns. */
  datatype Report = Report(
    addedTypes: seq<string>,
    removedTypes: seq<string>,
    changedTypeKind: seq<string>,
    addedMembers: seq<MemberEntry>,
    removedMembers: seq<MemberEntry>,
    semver: Semver)

  // ---------------------------------------------------------------------------
  // Specification
  // ---------------------------------------------------------------------------

  predicate SameKind(a: TypeInfo, b: TypeInfo)
  {
    a.StructInfo? == b.StructInfo?
  }

  /** The property names present in both maps whose type text differs. */
  function ChangedKeys(o: map<string, string>, n: map<string, string>): set<string>
  {
    set k | k in o && k in n && o[k] != n[k]
  }

  /** What one type present in both snapshots adds: new properties, the new
      type text of each retyped property, after cases. A kind change adds
      nothing here. */
  function AddedOf(t: string, o: TypeInfo, n: TypeInfo): set<MemberEntry>
  {
    if !SameKind(o, n) then {}
    else if o.StructInfo? then
      (set p | p in n.properties.Keys - o.properties.Keys :: Prop(t, p))
      + (set k | k in ChangedKeys(o.properties, n.properties) :: Retyped(t, k, n.properties[k]))
    else
      set c | c in Elems(n.cases) - Elems(o.cases) :: Case(t, c)
  }

  /** What one type present in both snapshots removes: dropped properties,
      the old type text of each retyped property, dropped cases. */
  function RemovedOf(t: string, o: TypeInfo, n: TypeInfo): set<MemberEntry>
  {
    if !SameKind(o, n) then {}
    else if o.StructInfo? then
      (set p | p in o.properties.Keys - n.properties.Keys :: Prop(t, p))
      + (set k | k in ChangedKeys(o.properties, n.properties) :: Retyped(t, k, o.properties[k]))
    else
      set c | c in Elems(o.cases) - Elems(n.cases) :: Case(t, c)
  }

  function AddedTypes(before: Types, after: Types): set<string> { after.Keys - before.Keys }

  function RemovedTypes(before: Types, after: Types): set<string> { before.Keys - after.Keys }

  function KindChanged(before: Types, after: Types): set<string>
  {
    set t | t in before && t in after && !SameKind(before[t], after[t])
  }

  /** The added entries contributed by the types of `ts` present in both. */
  function AddedIn(before: Types, after: Types, ts: set<string>): set<MemberEntry>
  {
    set t, e | t in ts && t in before && t in after && e in AddedOf(t, before[t], after[t]) :: e
  }

  function RemovedIn(before: Types, after: Types, ts: set<string>): set<MemberEntry>
  {
    set t, e | t in ts && t in before && t in after && e in RemovedOf(t, before[t], after[t]) :: e
  }

  function AddedMembers(before: Types, after: Types): set<MemberEntry>
  {
    AddedIn(before, after, before.Keys * after.Keys)
  }

  function RemovedMembers(before: Types, after: Types): set<MemberEntry>
  {
    RemovedIn(before, after, before.Keys * after.Keys)
  }

  /** The bump the differences call for: major on any removal or kind change,
      otherwise minor on any addition, otherwise patch. */
  function ExpectedSemver(before: Types, after: Types): Semver
  {
    if RemovedTypes(before, after) != {} || RemovedMembers(before, after) != {} || KindChanged(before, after) != {} then Major
    else if AddedTypes(before, after) != {} || AddedMembers(before, after) != {} then Minor
    else Patch
  }

  /** `n` keeps every member of `o`: each property with its type text, or
      each case. */
  predicate KeepsMembers(o: TypeInfo, n: TypeInfo)
  {
    match (o, n)
    case (StructInfo(op), StructInfo(np)) =>
      forall p :: p in op ==> p in np && np[p] == op[p]
    case (EnumInfo(oc), EnumInfo(nc)) =>
      forall c :: c in oc ==> c in nc
    case _ => false
  }

  /** The new snapshot keeps everything of the old one: every type with its
      kind and its members. */
  predicate Extends(before: Types, after: Types)
  {
    forall t :: t in before ==> t in after && KeepsMembers(before[t], after[t])
  }

  /** Membership in the set of added or removed entries, type by type: an
      entry belongs to its owner's contribution and to no other. */
  lemma OwnerOf(t: string, o: TypeInfo, n: TypeInfo, e: MemberEntry)
    requires e in AddedOf(t, o, n) || e in RemovedOf(t, o, n)
    ensures e.owner == t
  {
  }

  lemma InAddedIn(before: Types, after: Types, ts: set<string>, e: MemberEntry)
    ensures e in AddedIn(before, after, ts) <==>
              e.owner in ts && e.owner in before && e.owner in after && e in AddedOf(e.owner, before[e.owner], after[e.owner])
  {
    if e in AddedIn(before, after, ts) {
      var t :| t in ts && t in before && t in after && e in AddedOf(t, before[t], after[t]);
      OwnerOf(t, before[t], after[t], e);
    }
  }

  lemma InRemovedIn(before: Types, after: Types, ts: set<string>, e: MemberEntry)
    ensures e in RemovedIn(before, after, ts) <==>
              e.owner in ts && e.owner in before && e.owner in after && e in RemovedOf(e.owner, before[e.owner], after[e.owner])
  {
    if e in RemovedIn(before, after, ts) {
      var t :| t in ts && t in before && t in after && e in RemovedOf(t, before[t], after[t]);
      OwnerOf(t, before[t], after[t], e);
    }
  }

  // ---------------------------------------------------------------------------
  // `compare`
  // ---------------------------------------------------------------------------

  /** A property present on both sides whose type text differs, with both texts. */
  datatype Retype = Retype(key: string, oldType: string, newType: string)

  /** The loop over `o_keys & n_keys` collecting the retyped properties, in
      the order Python enumerates the set. */
  method RetypedPairs(o: map<string, string>, n: map<string, string>) returns (pairs: seq<Retype>)
    ensures forall x :: x in pairs <==>
              x.key in o && x.key in n && o[x.key] != n[x.key] && x.oldType == o[x.key] && x.newType == n[x.key]
    ensures DistinctKeys(pairs)
  {
    var keys := ListOfSet(o.Keys * n.Keys);
    pairs := [];
    for i := 0 to |keys|
      invariant forall x :: x in pairs <==>
                  x.key in keys[..i] && x.key in o && x.key in n && o[x.key] != n[x.key]
                  && x.oldType == o[x.key] && x.newType == n[x.key]
      invariant DistinctKeys(pairs)
    {
      var k := keys[i];
      assert k in keys;
      assert keys[..i + 1] == keys[..i] + [k];
      assert k !in keys[..i] by {
        forall j | 0 <= j < i ensures keys[..i][j] != k { assert keys[..i][j] == keys[j]; }
      }
      if o[k] != n[k] {
        pairs := pairs + [Retype(k, o[k], n[k])];
      }
    }
    assert keys[..|keys|] == keys;
  }

  /** No two retyped pairs are about the same property. */
  predicate DistinctKeys(pairs: seq<Retype>)
  {
    forall i, j :: 0 <= i < j < |pairs| ==> pairs[i].key != pairs[j].key
  }

  /** The entry for member `name` of type `t`: a case of an enum or a property
      of a struct. */
  function Named(t: string, name: string, asCase: bool): MemberEntry
  {
    if asCase then Case(t, name) else Prop(t, name)
  }

  /** `for p in names: members.append(...)`, on an empty list. */
  method NamedEntries(t: string, names: seq<string>, asCase: bool) returns (r: seq<MemberEntry>)
    ensures |r| == |names| && forall j :: 0 <= j < |names| ==> r[j] == Named(t, names[j], asCase)
    ensures Elems(r) == set p | p in names :: Named(t, p, asCase)
    ensures NoDuplicates(names) ==> NoDuplicates(r)
  {
    r := [];
    for i := 0 to |names|
      invariant |r| == i && forall j :: 0 <= j < i ==> r[j] == Named(t, names[j], asCase)
    {
      r := r + [Named(t, names[i], asCase)];
    }
    forall e | e in r ensures e in set p | p in names :: Named(t, p, asCase) {
      var j :| 0 <= j < |r| && r[j] == e;
      assert names[j] in names;
    }
    forall p | p in names ensures Named(t, p, asCase) in r {
      var j :| 0 <= j < |names| && names[j] == p;
      assert r[j] == Named(t, p, asCase);
    }
  }

  /** The loop over the retyped pairs: each adds its new type text to the
      added entries and its old type text to the removed entries. */
  method RetypedEntries(t: string, pairs: seq<Retype>) returns (added: seq<MemberEntry>, removed: seq<MemberEntry>)
    ensures |added| == |removed| == |pairs|
    ensures forall j :: 0 <= j < |pairs| ==>
              added[j] == Retyped(t, pairs[j].key, pairs[j].newType)
              && removed[j] == Retyped(t, pairs[j].key, pairs[j].oldType)
    ensures Elems(added) == set x | x in pairs :: Retyped(t, x.key, x.newType)
    ensures Elems(removed) == set x | x in pairs :: Retyped(t, x.key, x.oldType)
    ensures DistinctKeys(pairs) ==> NoDuplicates(added) && NoDuplicates(removed)
  {
    added := [];
    removed := [];
    for i := 0 to |pairs|
      invariant |added| == |removed| == i
      invariant forall j :: 0 <= j < i ==>
                  added[j] == Retyped(t, pairs[j].key, pairs[j].newType)
                  && removed[j] == Retyped(t, pairs[j].key, pairs[j].oldType)
    {
      removed := removed + [Retyped(t, pairs[i].key, pairs[i].oldType)];
      added := added + [Retyped(t, pairs[i].key, pairs[i].newType)];
    }
    RetypedElems(t, pairs, added, true);
    RetypedElems(t, pairs, removed, false);
  }

  /** The type text a retyped pair carries on the new or the old side. */
  function SideType(x: Retype, newSide: bool): string
  {
    if newSide then x.newType else x.oldType
  }

  lemma RetypedElems(t: string, pairs: seq<Retype>, r: seq<MemberEntry>, newSide: bool)
    requires |r| == |pairs|
    requires forall j :: 0 <= j < |pairs| ==> r[j] == Retyped(t, pairs[j].key, SideType(pairs[j], newSide))
    ensures Elems(r) == set x | x in pairs :: Retyped(t, x.key, SideType(x, newSide))
  {
    forall e | e in r ensures e in set x | x in pairs :: Retyped(t, x.key, SideType(x, newSide)) {
      var j :| 0 <= j < |r| && r[j] == e;
      assert pairs[j] in pairs;
    }
    forall x | x in pairs ensures Retyped(t, x.key, SideType(x, newSide)) in r {
      var j :| 0 <= j < |pairs| && pairs[j] == x;
      assert r[j] == Retyped(t, x.key, SideType(x, newSide));
    }
  }

  /** The struct branch of the loop body: the entries type `t` adds and
      removes, in the script's order (sorted new properties, then the new
      type texts; sorted dropped properties, then the old type texts). */
  method StructDelta(t: string, o: map<string, string>, n: map<string, string>)
    returns (added: seq<MemberEntry>, removed: seq<MemberEntry>)
    ensures Elems(added) == AddedOf(t, StructInfo(o), StructInfo(n))
    ensures Elems(removed) == RemovedOf(t, StructInfo(o), StructInfo(n))
    ensures NoDuplicates(added) && NoDuplicates(removed)
  {
    var addedP := SortedList(n.Keys - o.Keys);
    var removedP := SortedList(o.Keys - n.Keys);
    var pairs := RetypedPairs(o, n);
    var newProps := NamedEntries(t, addedP, false);
    var oldProps := NamedEntries(t, removedP, false);
    var newTypes, oldTypes := RetypedEntries(t, pairs);
    added := newProps + newTypes;
    removed := oldProps + oldTypes;
    RetypedSets(t, o, n, pairs);
    NamedSet(t, addedP, n.Keys - o.Keys, false);
    NamedSet(t, removedP, o.Keys - n.Keys, false);
    ElemsAppend(newProps, newTypes);
    ElemsAppend(oldProps, oldTypes);
    PropsNotRetyped(newProps, newTypes);
    PropsNotRetyped(oldProps, oldTypes);
  }

  /** Plain property entries and retyped entries are never the same, so two
      lists of them without duplicates concatenate without duplicates. */
  lemma PropsNotRetyped(props: seq<MemberEntry>, retyped: seq<MemberEntry>)
    requires forall e :: e in props ==> e.Prop?
    requires forall e :: e in retyped ==> e.Retyped?
    requires NoDuplicates(props) && NoDuplicates(retyped)
    ensures NoDuplicates(props + retyped)
  {
    NoDuplicatesAppend(props, retyped);
  }

  lemma RetypedSets(t: string, o: map<string, string>, n: map<string, string>, pairs: seq<Retype>)
    requires forall x :: x in pairs <==>
               x.key in o && x.key in n && o[x.key] != n[x.key] && x.oldType == o[x.key] && x.newType == n[x.key]
    ensures (set x | x in pairs :: Retyped(t, x.key, x.newType)) == (set k | k in ChangedKeys(o, n) :: Retyped(t, k, n[k]))
    ensures (set x | x in pairs :: Retyped(t, x.key, x.oldType)) == (set k | k in ChangedKeys(o, n) :: Retyped(t, k, o[k]))
  {
    forall k | k in ChangedKeys(o, n) ensures Retype(k, o[k], n[k]) in pairs {
    }
  }

  /** The entries named by a sorted list are those named by its set. */
  lemma NamedSet(t: string, names: seq<string>, s: set<string>, asCase: bool)
    requires forall x :: x in names <==> x in s
    ensures (set p | p in names :: Named(t, p, asCase)) == (set p | p in s :: Named(t, p, asCase))
  {
  }

  lemma ElemsAppend<T>(a: seq<T>, b: seq<T>)
    ensures Elems(a + b) == Elems(a) + Elems(b)
  {
  }

  /** The enum branch of the loop body: sorted new cases and sorted dropped
      cases of type `t`. */
  method EnumDelta(t: string, o: seq<string>, n: seq<string>)
    returns (added: seq<MemberEntry>, removed: seq<MemberEntry>)
    ensures Elems(added) == AddedOf(t, EnumInfo(o), EnumInfo(n))
    ensures Elems(removed) == RemovedOf(t, EnumInfo(o), EnumInfo(n))
    ensures NoDuplicates(added) && NoDuplicates(removed)
  {
    var addedC := SortedList(Elems(n) - Elems(o));
    var removedC := SortedList(Elems(o) - Elems(n));
    added := NamedEntries(t, addedC, true);
    removed := NamedEntries(t, removedC, true);
    NamedSet(t, addedC, Elems(n) - Elems(o), true);
    NamedSet(t, removedC, Elems(o) - Elems(n), true);
  }

  /** The body of the loop over the common types: a kind change, reported
      as such and contributing no members, or the struct or enum deltas. */
  method TypeDelta(t: string, o: TypeInfo, n: TypeInfo)
    returns (kindChanged: bool, added: seq<MemberEntry>, removed: seq<MemberEntry>)
    ensures kindChanged == !SameKind(o, n)
    ensures Elems(added) == AddedOf(t, o, n)
    ensures Elems(removed) == RemovedOf(t, o, n)
    ensures NoDuplicates(added) && NoDuplicates(removed)
  {
    if !SameKind(o, n) {
      return true, [], [];
    }
    kindChanged := false;
    if o.StructInfo? {
      added, removed := StructDelta(t, o.properties, n.properties);
    } else {
      added, removed := EnumDelta(t, o.cases, n.cases);
    }
  }

  /** The loop over `sorted(old_names & new_names)`: the kind changes in
      sorted order and the member entries of every common type. */
  method CommonTypes(before: Types, after: Types, common: seq<string>)
    returns (typeChanges: seq<string>, addedMembers: seq<MemberEntry>, removedMembers: seq<MemberEntry>)
    requires StrictlySorted(common)
    requires forall x :: x in common <==> x in before && x in after
    ensures StrictlySorted(typeChanges) && Elems(typeChanges) == KindChanged(before, after)
    ensures Elems(addedMembers) == AddedMembers(before, after)
    ensures Elems(removedMembers) == RemovedMembers(before, after)
    ensures NoDuplicates(addedMembers) && NoDuplicates(removedMembers)
  {
    SortedNoDuplicates(common);
    addedMembers := [];
    removedMembers := [];
    typeChanges := [];
    for i := 0 to |common|
      invariant StrictlySorted(typeChanges)
      invariant forall x :: x in typeChanges <==> x in common[..i] && x in before && x in after && !SameKind(before[x], after[x])
      invariant Elems(addedMembers) == AddedIn(before, after, Elems(common[..i]))
      invariant Elems(removedMembers) == RemovedIn(before, after, Elems(common[..i]))
      invariant NoDuplicates(addedMembers) && NoDuplicates(removedMembers)
    {
      var t := common[i];
      assert t in common;
      assert t !in Elems(common[..i]) by {
        forall j | 0 <= j < i ensures common[..i][j] != t { assert common[..i][j] == common[j]; }
      }
      PrefixStep(common, i);
      DeltaStep(before, after, Elems(common[..i]), t);
      var kindChanged, added, removed := TypeDelta(t, before[t], after[t]);
      if kindChanged {
        SortedSnoc(typeChanges, common, i);
        typeChanges := typeChanges + [t];
        continue;
      }
      ElemsAppend(addedMembers, added);
      ElemsAppend(removedMembers, removed);
      FreshOwner(before, after, Elems(common[..i]), t);
      NoDuplicatesAppend(addedMembers, added);
      NoDuplicatesAppend(removedMembers, removed);
      addedMembers := addedMembers + added;
      removedMembers := removedMembers + removed;
    }
    assert common[..|common|] == common;
    assert Elems(common) == before.Keys * after.Keys;
  }

  /** `compare(old, new)`. Type names come out sorted; the member lists hold
      exactly the entries of the specification, each once, type by type in
      sorted order; the bump is `ExpectedSemver`. */
  method Compare(before: Types, after: Types) returns (r: Report)
    ensures r.addedTypes == Sorted(AddedTypes(before, after))
    ensures r.removedTypes == Sorted(RemovedTypes(before, after))
    ensures r.changedTypeKind == Sorted(KindChanged(before, after))
    ensures Elems(r.addedMembers) == AddedMembers(before, after)
    ensures Elems(r.removedMembers) == RemovedMembers(before, after)
    ensures NoDuplicates(r.addedMembers) && |r.addedMembers| == |AddedMembers(before, after)|
    ensures NoDuplicates(r.removedMembers) && |r.removedMembers| == |RemovedMembers(before, after)|
    ensures r.semver == ExpectedSemver(before, after)
  {
    var addedTypes := SortedList(after.Keys - before.Keys);
    var removedTypes := SortedList(before.Keys - after.Keys);
    var common := SortedList(before.Keys * after.Keys);
    var typeChanges, addedMembers, removedMembers := CommonTypes(before, after, common);
    SortedUnique(typeChanges, Sorted(KindChanged(before, after)));
    EmptyElems(addedTypes);
    EmptyElems(removedTypes);
    EmptyElems(typeChanges);
    EmptyElems(addedMembers);
    EmptyElems(removedMembers);
    NoDuplicatesCard(addedMembers);
    NoDuplicatesCard(removedMembers);
    var semver :=
      if removedTypes != [] || removedMembers != [] || typeChanges != [] then Major
      else if addedTypes != [] || addedMembers != [] then Minor
      else Patch;
    r := Report(addedTypes, removedTypes, typeChanges, addedMembers, removedMembers, semver);
  }

  /** The entries of a type not yet visited are new to the lists. */
  lemma FreshOwner(before: Types, after: Types, ts: set<string>, t: string)
    requires t in before && t in after && t !in ts
    ensures AddedIn(before, after, ts) !! AddedOf(t, before[t], after[t])
    ensures RemovedIn(before, after, ts) !! RemovedOf(t, before[t], after[t])
  {
    forall e | e in AddedOf(t, before[t], after[t]) ensures e !in AddedIn(before, after, ts) {
      OwnerOf(t, before[t], after[t], e);
      InAddedIn(before, after, ts, e);
    }
    forall e | e in RemovedOf(t, before[t], after[t]) ensures e !in RemovedIn(before, after, ts) {
      OwnerOf(t, before[t], after[t], e);
      InRemovedIn(before, after, ts, e);
    }
  }

  lemma PrefixStep(s: seq<string>, i: nat)
    requires i < |s|
    ensures Elems(s[..i + 1]) == Elems(s[..i]) + {s[i]}
    ensures forall x :: x in s[..i + 1] <==> x in s[..i] || x == s[i]
  {
    assert s[..i + 1] == s[..i] + [s[i]];
  }

  /** Appending the next name of a sorted list to a list drawn from the names
      before it keeps that list sorted. */
  lemma SortedSnoc(s: seq<string>, common: seq<string>, i: nat)
    requires StrictlySorted(common) && i < |common|
    requires StrictlySorted(s) && forall x :: x in s ==> x in common[..i]
    ensures StrictlySorted(s + [common[i]])
  {
    forall x | x in s ensures Less(x, common[i]) {
      var j :| 0 <= j < i && common[..i][j] == x;
      assert common[j] == x;
    }
    var r := s + [common[i]];
    forall a, b | 0 <= a < b < |r| ensures Less(r[a], r[b]) {
      if b == |s| { assert r[a] in s; } else { assert r[a] == s[a] && r[b] == s[b]; }
    }
  }

  /** Taking one more common type into account adds its own contribution. */
  lemma DeltaStep(before: Types, after: Types, ts: set<string>, t: string)
    requires t in before && t in after
    ensures AddedIn(before, after, ts + {t}) == AddedIn(before, after, ts) + AddedOf(t, before[t], after[t])
    ensures RemovedIn(before, after, ts + {t}) == RemovedIn(before, after, ts) + RemovedOf(t, before[t], after[t])
  {
    forall e ensures e in AddedIn(before, after, ts + {t}) <==> e in AddedIn(before, after, ts) || e in AddedOf(t, before[t], after[t]) {
      InAddedIn(before, after, ts + {t}, e);
      InAddedIn(before, after, ts, e);
      if e in AddedOf(t, before[t], after[t]) { OwnerOf(t, before[t], after[t], e); }
    }
    forall e ensures e in RemovedIn(before, after, ts + {t}) <==> e in RemovedIn(before, after, ts) || e in RemovedOf(t, before[t], after[t]) {
      InRemovedIn(before, after, ts + {t}, e);
      InRemovedIn(before, after, ts, e);
      if e in RemovedOf(t, before[t], after[t]) { OwnerOf(t, before[t], after[t], e); }
    }
  }

  // ---------------------------------------------------------------------------
  // What the classification promises
  // ---------------------------------------------------------------------------

  /** What a type removes is what it would add if the snapshots were swapped. */
  lemma RemovedIsAddedSwapped(t: string, o: TypeInfo, n: TypeInfo)
    ensures RemovedOf(t, o, n) == AddedOf(t, n, o)
  {
    if SameKind(o, n) && o.StructInfo? {
      assert ChangedKeys(o.properties, n.properties) == ChangedKeys(n.properties, o.properties);
    }
  }

  /** Comparing in the other direction swaps added and removed, and finds
      the same kind changes. */
  lemma SwapSnapshots(before: Types, after: Types)
    ensures RemovedTypes(before, after) == AddedTypes(after, before)
    ensures RemovedMembers(before, after) == AddedMembers(after, before)
    ensures KindChanged(before, after) == KindChanged(after, before)
  {
    forall e ensures e in RemovedMembers(before, after) <==> e in AddedMembers(after, before) {
      InRemovedIn(before, after, before.Keys * after.Keys, e);
      InAddedIn(after, before, after.Keys * before.Keys, e);
      if e.owner in before && e.owner in after {
        RemovedIsAddedSwapped(e.owner, before[e.owner], after[e.owner]);
      }
    }
  }

  /** No entry of one type is both added and removed. */
  lemma OwnDisjoint(t: string, o: TypeInfo, n: TypeInfo)
    ensures AddedOf(t, o, n) !! RemovedOf(t, o, n)
  {
    if SameKind(o, n) && o.StructInfo? {
      forall e | e in AddedOf(t, o, n) && e in RemovedOf(t, o, n) ensures false {
      }
    }
  }

  /** Nothing is reported both as added and as removed. */
  lemma AddedRemovedDisjoint(before: Types, after: Types)
    ensures AddedTypes(before, after) !! RemovedTypes(before, after)
    ensures AddedMembers(before, after) !! RemovedMembers(before, after)
  {
    forall e | e in AddedMembers(before, after) && e in RemovedMembers(before, after) ensures false {
      InAddedIn(before, after, before.Keys * after.Keys, e);
      InRemovedIn(before, after, before.Keys * after.Keys, e);
      OwnDisjoint(e.owner, before[e.owner], after[e.owner]);
    }
  }

  /** A type compared with itself contributes nothing. */
  lemma NoDeltaOfSelf(t: string, x: TypeInfo)
    ensures AddedOf(t, x, x) == {} && RemovedOf(t, x, x) == {}
  {
    if x.StructInfo? {
      assert ChangedKeys(x.properties, x.properties) == {};
    }
  }

  /** A snapshot compared with itself is a patch. */
  lemma SameSnapshotIsPatch(x: Types)
    ensures AddedMembers(x, x) == {} && RemovedMembers(x, x) == {}
    ensures ExpectedSemver(x, x) == Patch
  {
    forall e ensures e !in AddedMembers(x, x) && e !in RemovedMembers(x, x) {
      InAddedIn(x, x, x.Keys * x.Keys, e);
      InRemovedIn(x, x, x.Keys * x.Keys, e);
      if e.owner in x { NoDeltaOfSelf(e.owner, x[e.owner]); }
    }
  }

  /** Two descriptions of one type of the same kind that neither add nor
      remove anything are equal, when enum cases are kept sorted. */
  lemma NoDeltaSame(t: string, o: TypeInfo, n: TypeInfo)
    requires SameKind(o, n) && AddedOf(t, o, n) == {} && RemovedOf(t, o, n) == {}
    requires o.EnumInfo? ==> StrictlySorted(o.cases) && StrictlySorted(n.cases)
    ensures o == n
  {
    if o.StructInfo? {
      var op, np := o.properties, n.properties;
      forall p | p in np ensures p in op {
        assert Prop(t, p) !in AddedOf(t, o, n);
      }
      forall p | p in op ensures p in np && np[p] == op[p] {
        assert Prop(t, p) !in RemovedOf(t, o, n);
        assert Retyped(t, p, np[p]) !in AddedOf(t, o, n);
      }
      assert op == np;
    } else {
      forall c | c in n.cases ensures c in Elems(o.cases) {
        assert Case(t, c) !in AddedOf(t, o, n);
      }
      forall c | c in o.cases ensures c in Elems(n.cases) {
        assert Case(t, c) !in RemovedOf(t, o, n);
      }
      SortedUnique(o.cases, n.cases);
    }
  }

  /** The bump is patch exactly when the two snapshots are the same. */
  lemma PatchIffEqual(before: Types, after: Types)
    requires WellFormed(before) && WellFormed(after)
    ensures ExpectedSemver(before, after) == Patch <==> before == after
  {
    if before == after {
      SameSnapshotIsPatch(before);
    }
    if ExpectedSemver(before, after) == Patch {
      assert before.Keys == after.Keys;
      forall t | t in before ensures before[t] == after[t] {
        assert t !in KindChanged(before, after);
        forall e | e in AddedOf(t, before[t], after[t]) ensures false {
          OwnerOf(t, before[t], after[t], e);
          InAddedIn(before, after, before.Keys * after.Keys, e);
        }
        forall e | e in RemovedOf(t, before[t], after[t]) ensures false {
          OwnerOf(t, before[t], after[t], e);
          InRemovedIn(before, after, before.Keys * after.Keys, e);
        }
        NoDeltaSame(t, before[t], after[t]);
      }
    }
  }

  /** A type of the same kind removes nothing exactly when the new
      description keeps all its members. */
  lemma NoRemovalKeeps(t: string, o: TypeInfo, n: TypeInfo)
    requires SameKind(o, n)
    ensures RemovedOf(t, o, n) == {} <==> KeepsMembers(o, n)
  {
    if o.StructInfo? {
      var op, np := o.properties, n.properties;
      if RemovedOf(t, o, n) == {} {
        forall p | p in op ensures p in np && np[p] == op[p] {
          assert Prop(t, p) !in RemovedOf(t, o, n);
          assert Retyped(t, p, op[p]) !in RemovedOf(t, o, n);
        }
      }
      if KeepsMembers(o, n) {
        assert ChangedKeys(op, np) == {};
        assert op.Keys - np.Keys == {};
      }
    } else {
      if RemovedOf(t, o, n) == {} {
        forall c | c in o.cases ensures c in n.cases {
          assert Case(t, c) !in RemovedOf(t, o, n);
        }
      }
      if KeepsMembers(o, n) {
        assert Elems(o.cases) - Elems(n.cases) == {};
      }
    }
  }

  /** The bump is not major exactly when the new snapshot keeps every type,
      its kind and every member of the old one: additions alone never make
      a major change. */
  lemma NotMajorIffExtends(before: Types, after: Types)
    ensures ExpectedSemver(before, after) != Major <==> Extends(before, after)
  {
    if ExpectedSemver(before, after) != Major {
      forall t | t in before ensures t in after && KeepsMembers(before[t], after[t]) {
        assert t !in RemovedTypes(before, after);
        assert t !in KindChanged(before, after);
        forall e | e in RemovedOf(t, before[t], after[t]) ensures false {
          OwnerOf(t, before[t], after[t], e);
          InRemovedIn(before, after, before.Keys * after.Keys, e);
        }
        NoRemovalKeeps(t, before[t], after[t]);
      }
    }
    if Extends(before, after) {
      assert RemovedTypes(before, after) == {};
      assert KindChanged(before, after) == {};
      forall e | e in RemovedMembers(before, after) ensures false {
        InRemovedIn(before, after, before.Keys * after.Keys, e);
        NoRemovalKeeps(e.owner, before[e.owner], after[e.owner]);
      }
    }
  }

  /** The bump is minor exactly when the new snapshot keeps the old one and
      adds something. */
  lemma MinorIffGrows(before: Types, after: Types)
    requires WellFormed(before) && WellFormed(after)
    ensures ExpectedSemver(before, after) == Minor <==> Extends(before, after) && before != after
  {
    NotMajorIffExtends(before, after);
    PatchIffEqual(before, after);
  }

  /** A property whose type text changes is reported once on each side, with
      the new and the old text, and never as added or removed itself; the
      bump is major. */
  lemma RetypedProperty(before: Types, after: Types, t: string, k: string)
    requires t in before && t in after && before[t].StructInfo? && after[t].StructInfo?
    requires k in before[t].properties && k in after[t].properties
    requires before[t].properties[k] != after[t].properties[k]
    ensures Retyped(t, k, after[t].properties[k]) in AddedMembers(before, after)
    ensures Retyped(t, k, before[t].properties[k]) in RemovedMembers(before, after)
    ensures forall x :: Retyped(t, k, x) in AddedMembers(before, after) ==> x == after[t].properties[k]
    ensures forall x :: Retyped(t, k, x) in RemovedMembers(before, after) ==> x == before[t].properties[k]
    ensures Prop(t, k) !in AddedMembers(before, after) && Prop(t, k) !in RemovedMembers(before, after)
    ensures ExpectedSemver(before, after) == Major
  {
    var o, n := before[t], after[t];
    assert k in ChangedKeys(o.properties, n.properties);
    InAddedIn(before, after, before.Keys * after.Keys, Retyped(t, k, n.properties[k]));
    InRemovedIn(before, after, before.Keys * after.Keys, Retyped(t, k, o.properties[k]));
    forall x | Retyped(t, k, x) in AddedMembers(before, after) ensures x == n.properties[k] {
      InAddedIn(before, after, before.Keys * after.Keys, Retyped(t, k, x));
    }
    forall x | Retyped(t, k, x) in RemovedMembers(before, after) ensures x == o.properties[k] {
      InRemovedIn(before, after, before.Keys * after.Keys, Retyped(t, k, x));
    }
    InAddedIn(before, after, before.Keys * after.Keys, Prop(t, k));
    InRemovedIn(before, after, before.Keys * after.Keys, Prop(t, k));
  }

  /** A type whose kind changes is reported only as a kind change: none of
      its members is listed. The bump is major. */
  lemma KindChangeOnly(before: Types, after: Types, t: string)
    requires t in before && t in after && !SameKind(before[t], after[t])
    ensures forall e: MemberEntry :: e.owner == t ==> e !in AddedMembers(before, after) && e !in RemovedMembers(before, after)
    ensures ExpectedSemver(before, after) == Major
  {
    assert t in KindChanged(before, after);
    forall e: MemberEntry | e.owner == t ensures e !in AddedMembers(before, after) && e !in RemovedMembers(before, after) {
      InAddedIn(before, after, before.Keys * after.Keys, e);
      InRemovedIn(before, after, before.Keys * after.Keys, e);
    }
  }

  // ---------------------------------------------------------------------------
  // The rendered entries
  // ---------------------------------------------------------------------------

  /** Owner and member name are identifiers, as in every snapshot
      `parse_models` produces. */
  predicate WordEntry(e: MemberEntry)
  {
    IsWord(e.owner) && IsWord(e.name)
  }

  /** Every entry the comparison of two well-formed snapshots reports names
      identifiers. */
  lemma EntriesAreWords(before: Types, after: Types, e: MemberEntry)
    requires WellFormed(before) && WellFormed(after)
    requires e in AddedMembers(before, after) || e in RemovedMembers(before, after)
    ensures WordEntry(e)
  {
    InAddedIn(before, after, before.Keys * after.Keys, e);
    InRemovedIn(before, after, before.Keys * after.Keys, e);
  }

  /** A string cut at the first occurrence of a separator absent from both
      heads determines head and tail. */
  lemma FirstSeparator(a: string, x: string, b: string, y: string, sep: char)
    requires sep !in a && sep !in b && a + [sep] + x == b + [sep] + y
    ensures a == b && x == y
  {
    SplitAt(a, x, sep);
    SplitAt(b, y, sep);
    assert Split(a + [sep] + x, sep)[0] == a;
    assert (a + [sep] + x)[|a| + 1..] == x;
    assert (b + [sep] + y)[|b| + 1..] == y;
  }

  lemma WordNoPunctuation(w: string, c: char)
    requires IsWord(w) && !IsWordChar(c)
    ensures c !in w
  {
  }

  /** Distinct entries with identifier names render to distinct strings, so
      the script's text lists lose nothing the entries say. */
  lemma RenderInjective(e1: MemberEntry, e2: MemberEntry)
    requires WordEntry(e1) && WordEntry(e2) && Render(e1) == Render(e2)
    ensures e1 == e2
  {
    var t1, t2 := e1.owner, e2.owner;
    WordNoPunctuation(t1, '.');
    WordNoPunctuation(t2, '.');
    WordNoPunctuation(e1.name, ':');
    WordNoPunctuation(e2.name, ':');
    WordNoPunctuation(e1.name, '.');
    WordNoPunctuation(e2.name, '.');
    var rest1, rest2 := Tail(e1), Tail(e2);
    assert Render(e1) == t1 + ['.'] + rest1;
    assert Render(e2) == t2 + ['.'] + rest2;
    FirstSeparator(t1, rest1, t2, rest2, '.');
    TailInjective(e1, e2);
  }

  /** What `Render` writes after the owner and its dot. */
  function Tail(e: MemberEntry): string
  {
    match e
    case Prop(_, p) => p
    case Retyped(_, k, typeText) => k + [':'] + typeText
    case Case(_, c) => "case." + c
  }

  lemma TailInjective(e1: MemberEntry, e2: MemberEntry)
    requires WordEntry(e1) && WordEntry(e2) && e1.owner == e2.owner && Tail(e1) == Tail(e2)
    ensures e1 == e2
  {
    WordNoPunctuation(e1.name, ':');
    WordNoPunctuation(e2.name, ':');
    TailMarks(e1);
    TailMarks(e2);
    if e1.Retyped? && e2.Retyped? {
      FirstSeparator(e1.name, e1.typeText, e2.name, e2.typeText, ':');
    } else if e1.Case? && e2.Case? {
      assert e1.name == Tail(e1)[5..] && e2.name == Tail(e2)[5..];
    }
  }

  /** Where the punctuation of a rendered tail sits. */
  lemma TailMarks(e: MemberEntry)
    requires WordEntry(e)
    ensures e.Prop? ==> forall i :: 0 <= i < |Tail(e)| ==> IsWordChar(Tail(e)[i])
    ensures e.Retyped? ==> |e.name| < |Tail(e)| && Tail(e)[|e.name|] == ':'
                           && forall i :: 0 <= i < |e.name| ==> IsWordChar(Tail(e)[i])
    ensures e.Case? ==> 5 < |Tail(e)| && Tail(e)[4] == '.'
                        && forall i :: 0 <= i < 4 ==> IsWordChar(Tail(e)[i])
  {
  }

  /** For well-formed snapshots the script's text entries are faithful: no two
      reported entries share a text, and no text is both added and removed. */
  lemma RenderedReport(before: Types, after: Types, e1: MemberEntry, e2: MemberEntry)
    requires WellFormed(before) && WellFormed(after)
    requires e1 in AddedMembers(before, after) || e1 in RemovedMembers(before, after)
    requires e2 in AddedMembers(before, after) || e2 in RemovedMembers(before, after)
    ensures Render(e1) == Render(e2) ==> e1 == e2
    ensures e1 in AddedMembers(before, after) && e2 in RemovedMembers(before, after) ==> Render(e1) != Render(e2)
  {
    EntriesAreWords(before, after, e1);
    EntriesAreWords(before, after, e2);
    if Render(e1) == Render(e2) {
      RenderInjective(e1, e2);
    }
    AddedRemovedDisjoint(before, after);
  }
}
