/** The reachability pruner of Scripts/prune-openapi-spec.py: keep the
    allow-listed paths of an OpenAPI 3.0 document and the component schemas
    reachable from them through local `#/components/schemas/<name>` references
    (the Reference Object of section 4.7.23 of the OpenAPI Specification 3.0.3). */
module Pruner {
  import opened Text
  import opened JsonValue

  const SchemaRefPrefix: string := "#/components/schemas/"

  /** `get_required_endpoints()`. */
  const RequiredEndpoints: set<string> := {"/responses", "/embeddings", "/files", "/files/{file_id}"}

  // ---------------------------------------------------------------------------
  // References inside one JSON value
  // ---------------------------------------------------------------------------

  /** The schema name one `$ref` value contributes: the prefix is removed as
      text by `str.replace`, with no RFC 6901 `~0`/`~1` unescaping. */
  function RefTarget(ref: Json): set<string>
  {
    if ref.Str? && StartsWith(ref.s, SchemaRefPrefix) then {ReplaceAll(ref.s, SchemaRefPrefix, "")} else {}
  }

  /** The names `extract_refs_from_obj` adds for `j`: a dict with a `$ref` key
      contributes only that reference; any other dict, and any list, is searched
      value by value. */
  function RefsOf(j: Json): set<string>
  {
    match j
    case Obj(ms) =>
      var ref := Lookup(ms, "$ref");
      if ref.Some? then RefTarget(ref.value) else RefsOfMembers(ms)
    case Arr(items) => RefsOfItems(items)
    case _ => {}
  }

  function RefsOfItems(items: seq<Json>): set<string>
  {
    if items == [] then {} else RefsOfItems(items[..|items| - 1]) + RefsOf(items[|items| - 1])
  }

  function RefsOfMembers(ms: seq<Member>): set<string>
  {
    if ms == [] then {} else RefsOfMembers(ms[..|ms| - 1]) + RefsOf(ms[|ms| - 1].value)
  }

  /** `extract_refs_from_obj(obj)`, which adds to the set it closes over: here
      the set is passed in and the grown set returned. */
  method ExtractRefs(obj: Json, found: set<string>) returns (grown: set<string>)
    ensures grown == found + RefsOf(obj)
  {
    grown := found;
    match obj {
      case Obj(ms) =>
        var ref := Lookup(ms, "$ref");
        if ref.Some? {
          if ref.value.Str? && StartsWith(ref.value.s, SchemaRefPrefix) {
            grown := grown + {ReplaceAll(ref.value.s, SchemaRefPrefix, "")};
          }
        } else {
          for i := 0 to |ms|
            invariant grown == found + RefsOfMembers(ms[..i])
          {
            assert ms[..i + 1][..i] == ms[..i];
            grown := ExtractRefs(ms[i].value, grown);
          }
          assert ms[..|ms|] == ms;
        }
      case Arr(items) =>
        for i := 0 to |items|
          invariant grown == found + RefsOfItems(items[..i])
        {
          assert items[..i + 1][..i] == items[..i];
          grown := ExtractRefs(items[i], grown);
        }
        assert items[..|items|] == items;
      case _ =>
    }
  }

  /** A `$ref` whose text is the prefix followed by a name that does not itself
      contain the prefix yields exactly that name, whatever else the dict holds. */
  lemma RefYieldsSuffix(ms: seq<Member>, name: string)
    requires Lookup(ms, "$ref") == Some(Str(SchemaRefPrefix + name))
    requires !Contains(name, SchemaRefPrefix)
    ensures RefsOf(Obj(ms)) == {name}
  {
    StripRefPrefix(name);
    assert RefTarget(Str(SchemaRefPrefix + name)) == {name};
  }

  /** Removing the prefix from the prefix followed by a name that does not
      contain it gives back the name. */
  lemma StripRefPrefix(name: string)
    requires !Contains(name, SchemaRefPrefix)
    ensures ReplaceAll(SchemaRefPrefix + name, SchemaRefPrefix, "") == name
  {
    var s := SchemaRefPrefix + name;
    assert s[..|SchemaRefPrefix|] == SchemaRefPrefix;
    assert s[|SchemaRefPrefix|..] == name;
    assert ReplaceAll(s, SchemaRefPrefix, "") == "" + ReplaceAll(name, SchemaRefPrefix, "");
    ReplaceAllAbsent(name, SchemaRefPrefix, "");
    assert "" + name == name;
  }

  /** A `$ref` that is not a local schema reference contributes nothing, and the
      other members of its dict are not searched. */
  lemma ForeignRefIgnored(ms: seq<Member>, ref: string)
    requires Lookup(ms, "$ref") == Some(Str(ref))
    requires !StartsWith(ref, SchemaRefPrefix)
    ensures RefsOf(Obj(ms)) == {}
  {
  }

  /** A dict holding a `$ref` contributes the same names whatever members
      follow it: the search does not descend into its other values. */
  lemma RefShadowsSiblings(ms: seq<Member>, others: seq<Member>)
    requires Lookup(ms, "$ref").Some?
    ensures RefsOf(Obj(ms + others)) == RefsOf(Obj(ms))
  {
    LookupConcat(ms, others, "$ref");
  }

  // ---------------------------------------------------------------------------
  // The reference graph of a document
  // ---------------------------------------------------------------------------

  /** `spec.get("paths", {})`. */
  function PathsOf(spec: Json): Json
  {
    GetOr(spec, "paths", Obj([]))
  }

  /** `spec.get("components", {}).get("schemas", {})`. */
  function SchemasOf(spec: Json): Json
  {
    GetOr(GetOr(spec, "components", Obj([])), "schemas", Obj([]))
  }

  /** The names referenced from the path items whose path is kept. */
  function KeptRefs(paths: seq<Member>, keep: set<string>): set<string>
  {
    if paths == [] then {}
    else
      var last := paths[|paths| - 1];
      KeptRefs(paths[..|paths| - 1], keep) + (if last.key in keep then RefsOf(last.value) else {})
  }

  function Seeds(spec: Json, keep: set<string>): set<string>
  {
    KeptRefs(MembersOf(PathsOf(spec)), keep)
  }

  /** The names the definition of schema `name` refers to; none if the document
      has no such schema (a dangling name). */
  function Successors(spec: Json, name: string): set<string>
  {
    var entry := Lookup(MembersOf(SchemasOf(spec)), name);
    if entry.Some? then RefsOf(entry.value) else {}
  }

  /** Every name any schema definition refers to. */
  function AllSchemaRefs(ms: seq<Member>): set<string>
  {
    if ms == [] then {} else AllSchemaRefs(ms[..|ms| - 1]) + RefsOf(ms[|ms| - 1].value)
  }

  /** The seeds are exactly the names referenced from a path item that is in
      the document and whose path is kept; a kept path the document lacks
      contributes nothing. */
  lemma {:induction false} KeptRefsFrom(paths: seq<Member>, keep: set<string>, name: string)
    ensures name in KeptRefs(paths, keep) <==>
      exists m :: m in paths && m.key in keep && name in RefsOf(m.value)
  {
    if paths != [] {
      var n := |paths| - 1;
      KeptRefsFrom(paths[..n], keep, name);
      assert paths == paths[..n] + [paths[n]];
      if exists m :: m in paths && m.key in keep && name in RefsOf(m.value) {
        var m :| m in paths && m.key in keep && name in RefsOf(m.value);
        if m != paths[n] {
          assert m in paths[..n];
        }
      }
    }
  }

  /** A finite set holding every name the pruner can ever collect. */
  function Universe(spec: Json, keep: set<string>): set<string>
  {
    Seeds(spec, keep) + AllSchemaRefs(MembersOf(SchemasOf(spec)))
  }

  lemma {:induction false} AllSchemaRefsHas(ms: seq<Member>, m: Member)
    requires m in ms
    ensures RefsOf(m.value) <= AllSchemaRefs(ms)
  {
    var n := |ms| - 1;
    if ms[n] != m {
      assert m in ms[..n] by {
        var i :| 0 <= i < |ms| && ms[i] == m;
        assert i < n;
        assert ms[..n][i] == m;
      }
      AllSchemaRefsHas(ms[..n], m);
    }
  }

  lemma SuccessorsInUniverse(spec: Json, keep: set<string>, name: string)
    ensures Successors(spec, name) <= Universe(spec, keep)
  {
    var entry := Lookup(MembersOf(SchemasOf(spec)), name);
    if entry.Some? {
      LookupSound(MembersOf(SchemasOf(spec)), name);
      AllSchemaRefsHas(MembersOf(SchemasOf(spec)), Member(name, entry.value));
    }
  }

  /** A reference path: it starts at a name referenced from a kept path, and
      each next name is referenced by the definition of the one before. */
  ghost predicate IsChain(spec: Json, keep: set<string>, c: seq<string>)
  {
    && |c| > 0
    && c[0] in Seeds(spec, keep)
    && forall i :: 0 <= i < |c| - 1 ==> c[i + 1] in Successors(spec, c[i])
  }

  /** `name` is reachable from the kept paths in zero or more reference hops. */
  ghost predicate Reachable(spec: Json, keep: set<string>, name: string)
  {
    exists c :: IsChain(spec, keep, c) && c[|c| - 1] == name
  }

  ghost predicate Closed(spec: Json, names: set<string>)
  {
    forall n :: n in names ==> Successors(spec, n) <= names
  }

  lemma ChainExtend(spec: Json, keep: set<string>, c: seq<string>, next: string)
    requires IsChain(spec, keep, c) && next in Successors(spec, c[|c| - 1])
    ensures IsChain(spec, keep, c + [next])
  {
    var d := c + [next];
    forall i | 0 <= i < |d| - 1 ensures d[i + 1] in Successors(spec, d[i]) {
      if i < |c| - 1 { assert d[i] == c[i] && d[i + 1] == c[i + 1]; }
    }
  }

  lemma {:induction false} ChainEndsIn(spec: Json, keep: set<string>, c: seq<string>, names: set<string>)
    requires IsChain(spec, keep, c)
    requires Seeds(spec, keep) <= names && Closed(spec, names)
    ensures c[|c| - 1] in names
    decreases |c|
  {
    if |c| > 1 {
      var p := c[..|c| - 1];
      assert IsChain(spec, keep, p) by {
        forall i | 0 <= i < |p| - 1 ensures p[i + 1] in Successors(spec, p[i]) {
          assert p[i] == c[i] && p[i + 1] == c[i + 1];
        }
      }
      ChainEndsIn(spec, keep, p, names);
    }
  }

  /** The reachable names form the least set that holds every name referenced
      from a kept path and is closed under references. */
  lemma ReachableIsLeastClosed(spec: Json, keep: set<string>, names: set<string>)
    requires Seeds(spec, keep) <= names && Closed(spec, names)
    ensures forall n :: Reachable(spec, keep, n) ==> n in names
  {
    forall n | Reachable(spec, keep, n) ensures n in names {
      var c :| IsChain(spec, keep, c) && c[|c| - 1] == n;
      ChainEndsIn(spec, keep, c, names);
    }
  }

  lemma ReachableInUniverse(spec: Json, keep: set<string>, name: string)
    requires Reachable(spec, keep, name)
    ensures name in Universe(spec, keep)
  {
    var c :| IsChain(spec, keep, c) && c[|c| - 1] == name;
    if |c| > 1 {
      SuccessorsInUniverse(spec, keep, c[|c| - 2]);
      assert c[|c| - 2 + 1] in Successors(spec, c[|c| - 2]);
    }
  }

  /** The set `collect_referenced_schemas` returns, stated declaratively. */
  ghost function ReferencedSchemas(spec: Json, keep: set<string>): set<string>
  {
    set n | n in Universe(spec, keep) && Reachable(spec, keep, n)
  }

  lemma SizeOfGrowth(a: set<string>, b: set<string>)
    requires a <= b
    ensures |b| == |a| + |b - a|
  {
    assert b == a + (b - a);
    assert a * (b - a) == {};
  }

  /** A set that grew inside a fixed universe leaves fewer names outside it;
      one that did not grow in size did not change. */
  lemma GrowthMeasure(universe: set<string>, before: set<string>, after: set<string>)
    requires before <= after <= universe
    ensures |after| > |before| ==> |universe - after| < |universe - before|
    ensures |after| <= |before| ==> after == before
  {
    SizeOfGrowth(before, after);
    SizeOfGrowth(universe - after, universe - before);
    assert (universe - before) - (universe - after) == after - before;
    if |after| <= |before| {
      assert after - before == {};
    }
  }

  /** Adding the successors of a reachable name keeps every collected name reachable. */
  lemma SuccessorsReachable(spec: Json, keep: set<string>, before: set<string>, name: string)
    requires AllReachable(spec, keep, before)
    requires name in before
    ensures AllReachable(spec, keep, before + Successors(spec, name))
  {
    forall n | n in Successors(spec, name) ensures Reachable(spec, keep, n) {
      var c :| IsChain(spec, keep, c) && c[|c| - 1] == name;
      ChainExtend(spec, keep, c, n);
      assert (c + [n])[|c + [n]| - 1] == n;
    }
  }

  // ---------------------------------------------------------------------------
  // collect_referenced_schemas
  // ---------------------------------------------------------------------------

  /** The first loop of `collect_referenced_schemas`: the names referenced from
      the path items whose path is in `keep`. */
  method ExtractPathRefs(spec: Json, keep: set<string>) returns (refs: set<string>)
    ensures refs == Seeds(spec, keep)
  {
    refs := {};
    var paths := MembersOf(PathsOf(spec));
    for i := 0 to |paths|
      invariant refs == KeptRefs(paths[..i], keep)
    {
      assert paths[..i + 1][..i] == paths[..i];
      if paths[i].key in keep {
        refs := ExtractRefs(paths[i].value, refs);
      }
    }
    assert paths[..|paths|] == paths;
  }

  /** Every collected name is reachable from a kept path. */
  ghost predicate AllReachable(spec: Json, keep: set<string>, names: set<string>)
  {
    forall n :: n in names ==> Reachable(spec, keep, n)
  }

  /** Every collected name that is no longer waiting on the worklist has had
      its references collected. */
  ghost predicate ClosedExcept(spec: Json, names: set<string>, waiting: seq<string>)
  {
    forall n :: n in names && n !in waiting ==> Successors(spec, n) <= names
  }

  /** One pass of the worklist loop keeps the collected names closed except
      for those still waiting: the popped name has its references collected,
      and every name the pass adds is pushed. */
  lemma StepKeepsClosedExcept(spec: Json, refs: set<string>, pending: seq<string>, name: string,
                              grown: set<string>, waiting: seq<string>)
    requires pending != [] && name == pending[|pending| - 1]
    requires ClosedExcept(spec, refs, pending)
    requires grown == refs + Successors(spec, name)
    requires forall n :: n in waiting <==>
      n in pending[..|pending| - 1] || (|grown| > |refs| && n in grown && n != name)
    ensures ClosedExcept(spec, grown, waiting)
  {
    if |grown| <= |refs| {
      GrowthMeasure(grown, refs, grown);
    }
    assert pending == pending[..|pending| - 1] + [name];
    forall n | n in grown && n !in waiting ensures Successors(spec, n) <= grown {
      if n != name {
        assert n in refs && n !in pending;
      }
    }
  }

  /** Once the worklist is empty, the collected names are exactly the
      reachable ones. */
  lemma DrainedIsReferenced(spec: Json, keep: set<string>, refs: set<string>)
    requires Seeds(spec, keep) <= refs
    requires AllReachable(spec, keep, refs)
    requires ClosedExcept(spec, refs, [])
    ensures Closed(spec, refs)
    ensures forall n :: n in refs <==> Reachable(spec, keep, n)
    ensures refs == ReferencedSchemas(spec, keep)
  {
    ReachableIsLeastClosed(spec, keep, refs);
    forall n | n in refs ensures n in ReferencedSchemas(spec, keep) {
      ReachableInUniverse(spec, keep, n);
    }
  }

  /** One pass of the worklist loop of `collect_referenced_schemas`: pop the
      last name; if the document defines it, collect the names its definition
      refers to and, when that added any, push every collected name that is
      neither waiting nor the popped one. */
  method ProcessNext(spec: Json, schemas: seq<Member>, refs: set<string>, worklist: seq<string>)
    returns (grown: set<string>, waiting: seq<string>)
    requires schemas == MembersOf(SchemasOf(spec))
    requires worklist != []
    ensures grown == refs + Successors(spec, worklist[|worklist| - 1])
    ensures forall n :: n in waiting <==>
      n in worklist[..|worklist| - 1]
      || (|grown| > |refs| && n in grown && n != worklist[|worklist| - 1])
    ensures |waiting| < |worklist| || |grown| > |refs|
  {
    var name := worklist[|worklist| - 1];
    waiting := worklist[..|worklist| - 1];
    grown := refs;
    var entry := Lookup(schemas, name);
    if entry.Some? {
      var oldCount := |refs|;
      grown := ExtractRefs(entry.value, refs);
      var newNames := grown - Elems(waiting) - {name};
      if |grown| > oldCount {
        var more := ListOfSet(newNames);
        waiting := waiting + more;
      }
    }
  }

  /** `collect_referenced_schemas(spec, paths_to_keep)`: seed with the names
      referenced from the kept paths, then drain a worklist. The worklist is a
      Python list used as a stack (`pop()` takes the last element); when a
      definition adds names, every name not on the worklist is pushed again,
      including names already processed. The loop ends because each iteration
      either grows the collected set, which stays inside a finite universe, or
      leaves it alone and shortens the worklist. */
  method CollectReferencedSchemas(spec: Json, keep: set<string>) returns (refs: set<string>)
    ensures Seeds(spec, keep) <= refs
    ensures Closed(spec, refs)
    ensures forall n :: n in refs <==> Reachable(spec, keep, n)
    ensures refs == ReferencedSchemas(spec, keep)
  {
    refs := ExtractPathRefs(spec, keep);
    forall n | n in refs ensures Reachable(spec, keep, n) {
      assert IsChain(spec, keep, [n]);
    }

    var schemas := MembersOf(SchemasOf(spec));
    var worklist := ListOfSet(refs);
    ghost var universe := Universe(spec, keep);
    while worklist != []
      invariant Seeds(spec, keep) <= refs <= universe
      invariant forall n :: n in worklist ==> n in refs
      invariant AllReachable(spec, keep, refs)
      invariant ClosedExcept(spec, refs, worklist)
      decreases |universe - refs|, |worklist|
    {
      ghost var before := refs;
      ghost var pending := worklist;
      ghost var name := worklist[|worklist| - 1];
      refs, worklist := ProcessNext(spec, schemas, refs, worklist);
      StepKeepsClosedExcept(spec, before, pending, name, refs, worklist);
      SuccessorsInUniverse(spec, keep, name);
      SuccessorsReachable(spec, keep, before, name);
      GrowthMeasure(universe, before, refs);
    }
    DrainedIsReferenced(spec, keep, refs);
  }

  // ---------------------------------------------------------------------------
  // prune_spec
  // ---------------------------------------------------------------------------

  const ApiKeyAuth: string := "ApiKeyAuth"

  /** `spec.get("components", {}).get("securitySchemes", {})`. */
  function SecuritySchemesOf(spec: Json): Json
  {
    GetOr(GetOr(spec, "components", Obj([])), "securitySchemes", Obj([]))
  }

  /** The document `prune_spec` returns, stated declaratively: metadata with its
      defaults, the kept paths, the reachable schemas, and the API-key scheme
      with a synthesised `security` requirement when the input declares it. */
  ghost function Pruned(spec: Json): Json
  {
    PrunedWith(spec, ReferencedSchemas(spec, RequiredEndpoints))
  }

  /** The pruned document once the set of schemas to keep is known. */
  function PrunedWith(spec: Json, referenced: set<string>): Json
  {
    var apiKey := Get(SecuritySchemesOf(spec), ApiKeyAuth);
    var schemes := if apiKey.Some? then [Member("securitySchemes", Obj([Member(ApiKeyAuth, apiKey.value)]))] else [];
    var security := if apiKey.Some? then [Member("security", SecurityRequirement)] else [];
    var components := [Member("schemas", Obj(FilterMembers(MembersOf(SchemasOf(spec)), referenced)))] + schemes;
    Obj(
      [ Member("openapi", GetOr(spec, "openapi", Str("3.0.1")))
      , Member("info", GetOr(spec, "info", Obj([])))
      , Member("servers", GetOr(spec, "servers", Arr([])))
      , Member("paths", Obj(FilterMembers(MembersOf(PathsOf(spec)), RequiredEndpoints)))
      , Member("components", Obj(components))
      ] + security)
  }

  /** The `security` requirement `prune_spec` writes: `[{"ApiKeyAuth": []}]`. */
  const SecurityRequirement: Json := Arr([Obj([Member(ApiKeyAuth, Arr([]))])])

  /** The `for key, value in d.items(): if key in keep: out[key] = value`
      loops of `prune_spec`, which build the pruned path and schema dicts. */
  method KeepMembers(ms: seq<Member>, keep: set<string>) returns (kept: seq<Member>)
    ensures kept == FilterMembers(ms, keep)
  {
    kept := [];
    for i := 0 to |ms|
      invariant kept == FilterMembers(ms[..i], keep)
    {
      assert ms[..i + 1][..i] == ms[..i];
      if ms[i].key in keep {
        kept := kept + [ms[i]];
      }
    }
    assert ms[..|ms|] == ms;
  }

  /** `prune_spec(spec)`. */
  method PruneSpec(spec: Json) returns (pruned: Json)
    ensures pruned == Pruned(spec)
  {
    var prunedPaths := KeepMembers(MembersOf(PathsOf(spec)), RequiredEndpoints);
    var referenced := CollectReferencedSchemas(spec, RequiredEndpoints);
    var prunedSchemas := KeepMembers(MembersOf(SchemasOf(spec)), referenced);

    var members :=
      [ Member("openapi", GetOr(spec, "openapi", Str("3.0.1")))
      , Member("info", GetOr(spec, "info", Obj([])))
      , Member("servers", GetOr(spec, "servers", Arr([])))
      , Member("paths", Obj(prunedPaths))
      ];
    var components := [Member("schemas", Obj(prunedSchemas))];
    var apiKey := Get(SecuritySchemesOf(spec), ApiKeyAuth);
    var schemes: seq<Member> := [];
    if apiKey.Some? {
      schemes := [Member("securitySchemes", Obj([Member(ApiKeyAuth, apiKey.value)]))];
      components := components + schemes;
    }
    assert components == [Member("schemas", Obj(prunedSchemas))] + schemes;
    members := members + [Member("components", Obj(components))];
    var security: seq<Member> := [];
    if apiKey.Some? {
      security := [Member("security", SecurityRequirement)];
      members := members + security;
    }
    assert members == members[..5] + security;
    pruned := Obj(members);
    assert pruned == PrunedWith(spec, referenced);
  }

  // ---------------------------------------------------------------------------
  // Properties of the pruned document
  // ---------------------------------------------------------------------------

  lemma ReferencedIsReachable(spec: Json, keep: set<string>, name: string)
    ensures name in ReferencedSchemas(spec, keep) <==> Reachable(spec, keep, name)
  {
    if Reachable(spec, keep, name) {
      ReachableInUniverse(spec, keep, name);
    }
  }

  /** The components dict of the pruned document. */
  function PrunedComponents(spec: Json, referenced: set<string>): Json
  {
    GetOr(PrunedWith(spec, referenced), "components", Obj([]))
  }

  /** Looking up any top-level key of the pruned document. */
  lemma {:induction false} PrunedGet(spec: Json, referenced: set<string>, key: string)
    ensures Get(PrunedWith(spec, referenced), key) ==
      if key == "openapi" then Some(GetOr(spec, "openapi", Str("3.0.1")))
      else if key == "info" then Some(GetOr(spec, "info", Obj([])))
      else if key == "servers" then Some(GetOr(spec, "servers", Arr([])))
      else if key == "paths" then Some(Obj(FilterMembers(MembersOf(PathsOf(spec)), RequiredEndpoints)))
      else if key == "components" then Some(PrunedWith(spec, referenced).members[4].value)
      else if key == "security" && Get(SecuritySchemesOf(spec), ApiKeyAuth).Some? then Some(SecurityRequirement)
      else None
  {
    var ms := PrunedWith(spec, referenced).members;
    assert ms[1..][1..] == ms[2..] && ms[2..][1..] == ms[3..] && ms[3..][1..] == ms[4..] && ms[4..][1..] == ms[5..];
    var r5 := Lookup(ms[5..], key);
    if Get(SecuritySchemesOf(spec), ApiKeyAuth).Some? {
      assert ms[5..] == [Member("security", SecurityRequirement)];
      LookupCons(Member("security", SecurityRequirement), [], key);
      assert [Member("security", SecurityRequirement)] + [] == ms[5..];
      assert r5 == if key == "security" then Some(SecurityRequirement) else None;
    } else {
      assert ms[5..] == [];
      assert r5 == None;
    }
    assert Lookup(ms[4..], key) == if key == "components" then Some(ms[4].value) else r5;
    assert Lookup(ms[3..], key) == if key == "paths" then Some(ms[3].value) else Lookup(ms[4..], key);
    assert Lookup(ms[2..], key) == if key == "servers" then Some(ms[2].value) else Lookup(ms[3..], key);
    assert Lookup(ms[1..], key) == if key == "info" then Some(ms[1].value) else Lookup(ms[2..], key);
  }

  /** The metadata members are copied when present and take their defaults
      (`"3.0.1"`, `{}`, `[]`) when absent. */
  lemma PrunedMetadata(spec: Json, referenced: set<string>)
    ensures Get(spec, "openapi").Some? ==> Get(PrunedWith(spec, referenced), "openapi") == Get(spec, "openapi")
    ensures Get(spec, "openapi").None? ==> Get(PrunedWith(spec, referenced), "openapi") == Some(Str("3.0.1"))
    ensures Get(spec, "info").Some? ==> Get(PrunedWith(spec, referenced), "info") == Get(spec, "info")
    ensures Get(spec, "info").None? ==> Get(PrunedWith(spec, referenced), "info") == Some(Obj([]))
    ensures Get(spec, "servers").Some? ==> Get(PrunedWith(spec, referenced), "servers") == Get(spec, "servers")
    ensures Get(spec, "servers").None? ==> Get(PrunedWith(spec, referenced), "servers") == Some(Arr([]))
  {
    PrunedGet(spec, referenced, "openapi");
    PrunedGet(spec, referenced, "info");
    PrunedGet(spec, referenced, "servers");
  }

  /** A path survives exactly when it is one of the required endpoints, and
      then with its path item unchanged; required endpoints the input lacks
      are simply absent. */
  lemma PrunedPaths(spec: Json, referenced: set<string>, path: string)
    ensures Get(PathsOf(PrunedWith(spec, referenced)), path) ==
      if path in RequiredEndpoints then Get(PathsOf(spec), path) else None
  {
    PrunedGet(spec, referenced, "paths");
    LookupFiltered(MembersOf(PathsOf(spec)), RequiredEndpoints, path);
  }

  /** The pruned components hold the kept schemas, then the API-key scheme
      when the input declares it, and nothing else. */
  lemma {:induction false} PrunedComponentsGet(spec: Json, referenced: set<string>, key: string)
    ensures Get(PrunedComponents(spec, referenced), key) ==
      if key == "schemas" then Some(Obj(FilterMembers(MembersOf(SchemasOf(spec)), referenced)))
      else if key == "securitySchemes" && Get(SecuritySchemesOf(spec), ApiKeyAuth).Some? then
        Some(Obj([Member(ApiKeyAuth, Get(SecuritySchemesOf(spec), ApiKeyAuth).value)]))
      else None
  {
    PrunedGet(spec, referenced, "components");
    var cs := MembersOf(PrunedComponents(spec, referenced));
    LookupCons(cs[0], cs[1..], key);
    assert cs == [cs[0]] + cs[1..];
    if |cs| > 1 {
      LookupCons(cs[1], [], key);
      assert cs[1..] == [cs[1]] + [];
    }
  }

  /** A schema survives exactly when its name is in the referenced set, and
      then with its definition unchanged. */
  lemma PrunedSchemasWith(spec: Json, referenced: set<string>, name: string)
    ensures Get(SchemasOf(PrunedWith(spec, referenced)), name) ==
      if name in referenced then Get(SchemasOf(spec), name) else None
  {
    PrunedComponentsGet(spec, referenced, "schemas");
    LookupFiltered(MembersOf(SchemasOf(spec)), referenced, name);
  }

  /** A schema survives exactly when it is reachable from a required endpoint,
      and then with its definition unchanged; a reachable name the input does
      not define never appears. */
  lemma PrunedSchemas(spec: Json, name: string)
    ensures Get(SchemasOf(Pruned(spec)), name) ==
      if Reachable(spec, RequiredEndpoints, name) then Get(SchemasOf(spec), name) else None
    ensures Get(SchemasOf(Pruned(spec)), name).Some? ==> Get(SchemasOf(spec), name).Some?
  {
    PrunedSchemasWith(spec, ReferencedSchemas(spec, RequiredEndpoints), name);
    ReferencedIsReachable(spec, RequiredEndpoints, name);
  }

  /** The security rule: `securitySchemes` and `security` appear exactly when
      the input declares the `ApiKeyAuth` scheme; then the schemes hold only
      that scheme, unchanged, and the requirement is the constant
      `[{"ApiKeyAuth": []}]`, whatever the input's own `security` says. */
  lemma PrunedSecurity(spec: Json, referenced: set<string>)
    ensures Get(PrunedWith(spec, referenced), "security").Some? <==> Get(SecuritySchemesOf(spec), ApiKeyAuth).Some?
    ensures Get(PrunedComponents(spec, referenced), "securitySchemes").Some?
            <==> Get(SecuritySchemesOf(spec), ApiKeyAuth).Some?
    ensures Get(SecuritySchemesOf(spec), ApiKeyAuth).Some? ==>
      && Get(PrunedWith(spec, referenced), "security") == Some(Arr([Obj([Member(ApiKeyAuth, Arr([]))])]))
      && SecuritySchemesOf(PrunedWith(spec, referenced))
         == Obj([Member(ApiKeyAuth, Get(SecuritySchemesOf(spec), ApiKeyAuth).value)])
  {
    PrunedGet(spec, referenced, "security");
    PrunedComponentsGet(spec, referenced, "securitySchemes");
  }

  /** The pruned document has exactly the top-level members `prune_spec`
      writes. */
  lemma PrunedKeys(spec: Json, referenced: set<string>, key: string)
    ensures key in Keys(MembersOf(PrunedWith(spec, referenced))) <==>
      key in {"openapi", "info", "servers", "paths", "components"}
      || (key == "security" && Get(SecuritySchemesOf(spec), ApiKeyAuth).Some?)
  {
    PrunedGet(spec, referenced, key);
  }
}
