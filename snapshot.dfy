/** `parse_models` of Scripts/classify-model-changes.py: the public structs and
    enums of a generated Swift file, found line by line with the four patterns
    of `Patterns` and a running brace depth that decides where a body ends. */
module Snapshot {
  import opened Text
  import opened JsonValue
  import opened Patterns

  /** What the snapshot records about a type: a struct's stored properties
      with their type text, or an enum's case names in sorted order. */
  datatype TypeInfo = StructInfo(properties: map<string, string>) | EnumInfo(cases: seq<string>)

  type Types = map<string, TypeInfo>

  // ---------------------------------------------------------------------------
  // Brace depth
  // ---------------------------------------------------------------------------

  /** The change a line makes to the brace depth. */
  function Delta(line: string): int
  {
    Count(line, '{') - Count(line, '}')
  }

  /** The depth a header line starts its body with: its braces count only when
      it holds an opening one. */
  function HeaderDepth(line: string): int
  {
    if '{' in line then Delta(line) else 0
  }

  /** The total depth change of a run of lines. */
  function DeltaSum(ls: seq<string>): int
  {
    if ls == [] then 0 else Delta(ls[0]) + DeltaSum(ls[1..])
  }

  lemma DeltaSumStep(lines: seq<string>, k: nat)
    requires k < |lines|
    ensures forall m :: k < m <= |lines| ==> DeltaSum(lines[k..m]) == Delta(lines[k]) + DeltaSum(lines[k + 1..m])
  {
    forall m | k < m <= |lines|
      ensures DeltaSum(lines[k..m]) == Delta(lines[k]) + DeltaSum(lines[k + 1..m])
    {
      assert lines[k..m][1..] == lines[k + 1..m];
    }
  }

  /** Where a body that starts at line `k` with depth `depth` ends (exclusive):
      just after the first line that brings the running depth to zero or
      below, or at the end of the file when no line does. */
  function BodyEnd(lines: seq<string>, k: nat, depth: int): (e: nat)
    requires k <= |lines|
    ensures k <= e <= |lines| && (k < |lines| ==> k < e)
    decreases |lines| - k
  {
    if k == |lines| then k
    else if depth + Delta(lines[k]) <= 0 then k + 1
    else BodyEnd(lines, k + 1, depth + Delta(lines[k]))
  }

  /** The body ends at the first line after which the running depth is zero or
      below: no earlier line brings it there, and unless the body runs to the
      end of the file, its last line does. */
  lemma {:induction false} BodyEndCloses(lines: seq<string>, k: nat, depth: int)
    requires k <= |lines|
    ensures forall m :: k < m < BodyEnd(lines, k, depth) ==> depth + DeltaSum(lines[k..m]) > 0
    ensures BodyEnd(lines, k, depth) < |lines| ==> depth + DeltaSum(lines[k..BodyEnd(lines, k, depth)]) <= 0
    decreases |lines| - k
  {
    if k < |lines| {
      DeltaSumStep(lines, k);
      assert lines[k..k + 1][1..] == [];
      if depth + Delta(lines[k]) > 0 {
        BodyEndCloses(lines, k + 1, depth + Delta(lines[k]));
      }
    }
  }

  // ---------------------------------------------------------------------------
  // What the patterns find on each line
  // ---------------------------------------------------------------------------

  /** The property a body line declares: the property pattern on the
      stripped line, with the type text stripped. */
  function LineProperty(line: string): Option<Property>
  {
    var pm := PropertyOf(Strip(line));
    if pm.Some? then Some(Property(pm.value.name, Strip(pm.value.typeText))) else None
  }

  /** What the patterns find on one line: the header pattern on the raw line,
      the property and case patterns on the stripped line. */
  datatype LineMatch = LineMatch(header: Option<Header>, property: Option<Property>, caseName: Option<string>)

  function MatchLine(line: string): LineMatch
  {
    LineMatch(HeaderOf(line), LineProperty(line), CaseName(Strip(line)))
  }

  /** The match of every line, in order. */
  function Scan(lines: seq<string>): (ms: seq<LineMatch>)
    ensures |ms| == |lines|
  {
    seq(|lines|, k requires 0 <= k < |lines| => MatchLine(lines[k]))
  }

  lemma ScanAt(lines: seq<string>, k: nat)
    requires k < |lines|
    ensures Scan(lines)[k] == MatchLine(lines[k])
  {
  }

  lemma ScanSnoc(lines: seq<string>, line: string)
    ensures Scan(lines + [line]) == Scan(lines) + [MatchLine(line)]
  {
    assert forall k :: 0 <= k < |lines| ==> (lines + [line])[k] == lines[k];
  }

  /** Scanning a slice gives the slice of the scan. */
  lemma ScanSlice(lines: seq<string>, a: nat, b: nat)
    requires a <= b <= |lines|
    ensures Scan(lines)[a..b] == Scan(lines[a..b])
  {
    assert forall k :: 0 <= k < b - a ==> lines[a..b][k] == lines[a + k];
  }


  /** Every name a match carries is an identifier. */
  ghost predicate WordMatches(ms: seq<LineMatch>)
  {
    forall k :: 0 <= k < |ms| ==>
      (ms[k].header.Some? ==> IsWord(ms[k].header.value.name))
      && (ms[k].property.Some? ==> IsWord(ms[k].property.value.name))
      && (ms[k].caseName.Some? ==> IsWord(ms[k].caseName.value))
  }

  /** Every name a line yields is a word. */
  lemma MatchLineWords(line: string)
    ensures var m := MatchLine(line);
            (m.header.Some? ==> IsWord(m.header.value.name))
            && (m.property.Some? ==> IsWord(m.property.value.name))
            && (m.caseName.Some? ==> IsWord(m.caseName.value))
  {
    HeaderSpec(line);
    PropertySpec(Strip(line));
    CaseNameIsWord(Strip(line));
  }

  lemma ScanWords(lines: seq<string>)
    ensures WordMatches(Scan(lines))
  {
    forall k | 0 <= k < |lines|
      ensures var m := Scan(lines)[k];
              (m.header.Some? ==> IsWord(m.header.value.name))
              && (m.property.Some? ==> IsWord(m.property.value.name))
              && (m.caseName.Some? ==> IsWord(m.caseName.value))
    {
      ScanAt(lines, k);
      MatchLineWords(lines[k]);
    }
  }

  // ---------------------------------------------------------------------------
  // Struct and enum bodies
  // ---------------------------------------------------------------------------

  /** The properties recorded from the declarations of a body, in order: each
      declaration sets its name to its type, so a name declared twice keeps
      its last type. */
  function PropsFrom(ms: seq<LineMatch>): map<string, string>
  {
    if ms == [] then map[]
    else
      var props := PropsFrom(ms[..|ms| - 1]);
      var pm := ms[|ms| - 1].property;
      if pm.Some? then props[pm.value.name := pm.value.typeText] else props
  }

  /** The set of matched case names. */
  function CasesFrom(ms: seq<LineMatch>): set<string>
  {
    if ms == [] then {}
    else
      var cases := CasesFrom(ms[..|ms| - 1]);
      var cm := ms[|ms| - 1].caseName;
      if cm.Some? then cases + {cm.value} else cases
  }

  lemma PropsFromSnoc(ms: seq<LineMatch>, m: LineMatch)
    ensures PropsFrom(ms + [m]) ==
              if m.property.Some? then PropsFrom(ms)[m.property.value.name := m.property.value.typeText] else PropsFrom(ms)
  {
    assert (ms + [m])[..|ms|] == ms;
  }

  lemma CasesFromSnoc(ms: seq<LineMatch>, m: LineMatch)
    ensures CasesFrom(ms + [m]) == if m.caseName.Some? then CasesFrom(ms) + {m.caseName.value} else CasesFrom(ms)
  {
    assert (ms + [m])[..|ms|] == ms;
  }

  /** The record of a type of the given kind whose body lines matched `ms`. */
  ghost function InfoFrom(kind: Kind, ms: seq<LineMatch>): (info: TypeInfo)
    ensures kind == StructKind <==> info.StructInfo?
  {
    if kind == StructKind then StructInfo(PropsFrom(ms)) else EnumInfo(Sorted(CasesFrom(ms)))
  }

  // ---------------------------------------------------------------------------
  // The whole file
  // ---------------------------------------------------------------------------

  /** The types found from line `i` on, added to `types`, where `ms` holds
      the matches of each line: a header line records its type with the body
      that follows it and parsing resumes after that body; any other line is
      skipped. A later type of the same name replaces an earlier one. */
  ghost function ParseFrom(lines: seq<string>, ms: seq<LineMatch>, i: nat, types: Types): Types
    requires |ms| == |lines|
    decreases |lines| - i
  {
    if i >= |lines| then types
    else if ms[i].header.None? then ParseFrom(lines, ms, i + 1, types)
    else
      var h := ms[i].header.value;
      var e := BodyEnd(lines, i + 1, HeaderDepth(lines[i]));
      ParseFrom(lines, ms, e, types[h.name := InfoFrom(h.kind, ms[i + 1..e])])
  }

  ghost function ParsedModels(text: string): Types
  {
    var lines := SplitLines(text);
    ParseFrom(lines, Scan(lines), 0, map[])
  }

  /** `parse_models(text)`. */
  method ParseModels(text: string) returns (types: Types)
    ensures types == ParsedModels(text)
  {
    var lines := SplitLines(text);
    ghost var ms := Scan(lines);
    ghost var parsed := ParseFrom(lines, ms, 0, map[]);
    var i := 0;
    types := map[];
    while i < |lines|
      invariant i <= |lines| + 1
      invariant ParseFrom(lines, ms, i, types) == parsed
      decreases |lines| + 1 - i
    {
      i, types := ParseLine(lines, ms, i, types);
    }
  }

  /** One pass of the outer loop of `parse_models` at line `i`: a header line
      records its type and moves past the body, any other line is skipped. */
  method ParseLine(lines: seq<string>, ghost ms: seq<LineMatch>, i: nat, types: Types)
    returns (next: nat, types': Types)
    requires ms == Scan(lines) && i < |lines|
    ensures i < next <= |lines| + 1
    ensures ParseFrom(lines, ms, next, types') == ParseFrom(lines, ms, i, types)
  {
    var header := HeaderOf(lines[i]);
    ScanAt(lines, i);
    if header.Some? {
      next, types' := ParseType(lines, ms, i, types, header.value);
    } else {
      ParseFromSkip(lines, ms, i, types);
      types' := types;
      next := i + 1;
    }
  }

  /** The header branch: the type is recorded under its name and parsing
      resumes after the line that closed its body. */
  method ParseType(lines: seq<string>, ghost ms: seq<LineMatch>, i: nat, types: Types, header: Header)
    returns (next: nat, types': Types)
    requires ms == Scan(lines) && i < |lines| && ms[i].header == Some(header)
    ensures i < next <= |lines| + 1
    ensures ParseFrom(lines, ms, next, types') == ParseFrom(lines, ms, i, types)
  {
    var info, last := ReadType(lines, i, header.kind);
    ghost var e := BodyEnd(lines, i + 1, HeaderDepth(lines[i]));
    ScanSlice(lines, i + 1, e);
    types' := types[header.name := info];
    next := last + 1;
    ParseFromHeader(lines, ms, i, types, header, e, info, next);
  }

  /** One step of `ParseFrom` at a header line whose body ends before line
      `e`, resumed at `next`. */
  lemma ParseFromHeader(lines: seq<string>, ms: seq<LineMatch>, i: nat, types: Types,
                        h: Header, e: nat, info: TypeInfo, next: nat)
    requires |ms| == |lines| && i < |lines| && ms[i].header == Some(h)
    requires e == BodyEnd(lines, i + 1, HeaderDepth(lines[i])) && info == InfoFrom(h.kind, ms[i + 1..e])
    requires next == e || next == |lines| + 1 == e + 1
    ensures ParseFrom(lines, ms, next, types[h.name := info]) == ParseFrom(lines, ms, i, types)
  {
  }

  /** One step of `ParseFrom` at any other line. */
  lemma ParseFromSkip(lines: seq<string>, ms: seq<LineMatch>, i: nat, types: Types)
    requires |ms| == |lines| && i < |lines| && ms[i].header.None?
    ensures ParseFrom(lines, ms, i, types) == ParseFrom(lines, ms, i + 1, types)
  {
  }

  /** A header line at `i`: the record of its type, and the index of the line
      that closed its body (`|lines|` when none did). */
  method ReadType(lines: seq<string>, i: nat, kind: Kind) returns (info: TypeInfo, last: nat)
    requires i < |lines|
    ensures var e := BodyEnd(lines, i + 1, HeaderDepth(lines[i]));
            info == InfoFrom(kind, Scan(lines[i + 1..e])) && (last + 1 == e || last == |lines| == e)
  {
    var body;
    body, last := HeaderBody(lines, i);
    info := TypeInfoOf(kind, body);
  }

  /** The body of the header at line `i`: the depth starts from the header's
      braces when it has an opening one. */
  method HeaderBody(lines: seq<string>, i: nat) returns (body: seq<string>, last: nat)
    requires i < |lines|
    ensures var e := BodyEnd(lines, i + 1, HeaderDepth(lines[i]));
            body == lines[i + 1..e] && (last + 1 == e || last == |lines| == e)
  {
    var line := lines[i];
    var depth := 0;
    if '{' in line {
      depth := depth + Count(line, '{') - Count(line, '}');
    }
    body, last := ReadBody(lines, i + 1, depth);
  }

  /** The inner loop of `parse_models`: the body lines from `start` on, and
      the index of the line that closed the body (`|lines|` when none did). */
  method ReadBody(lines: seq<string>, start: nat, depth0: int) returns (body: seq<string>, i: nat)
    requires start <= |lines|
    ensures body == lines[start..BodyEnd(lines, start, depth0)]
    ensures i + 1 == BodyEnd(lines, start, depth0) || i == |lines| == BodyEnd(lines, start, depth0)
  {
    var depth := depth0;
    body := [];
    i := start;
    while i < |lines|
      invariant start <= i <= |lines|
      invariant body == lines[start..i]
      invariant BodyEnd(lines, i, depth) == BodyEnd(lines, start, depth0)
      decreases |lines| - i
    {
      var l := lines[i];
      depth := depth + Count(l, '{') - Count(l, '}');
      body := body + [l];
      if depth <= 0 {
        break;
      }
      i := i + 1;
    }
  }

  /** The record built from a body: the property loop for a struct, the case
      loop and `sorted` for an enum. */
  method TypeInfoOf(kind: Kind, body: seq<string>) returns (info: TypeInfo)
    ensures info == InfoFrom(kind, Scan(body))
  {
    if kind == StructKind {
      var props := StructProperties(body);
      info := StructInfo(props);
    } else {
      var found := CaseNames(body);
      var cases := SortedList(found);
      info := EnumInfo(cases);
    }
  }

  /** The property loop over a struct body. */
  method StructProperties(body: seq<string>) returns (props: map<string, string>)
    ensures props == PropsFrom(Scan(body))
  {
    props := map[];
    for k := 0 to |body|
      invariant props == PropsFrom(Scan(body[..k]))
    {
      assert body[..k + 1] == body[..k] + [body[k]];
      ScanSnoc(body[..k], body[k]);
      PropsFromSnoc(Scan(body[..k]), MatchLine(body[k]));
      var pm := PropertyOf(Strip(body[k]));
      if pm.Some? {
        props := props[pm.value.name := Strip(pm.value.typeText)];
      }
    }
    assert body[..|body|] == body;
  }

  /** The case loop over an enum body. */
  method CaseNames(body: seq<string>) returns (cases: set<string>)
    ensures cases == CasesFrom(Scan(body))
  {
    cases := {};
    for k := 0 to |body|
      invariant cases == CasesFrom(Scan(body[..k]))
    {
      assert body[..k + 1] == body[..k] + [body[k]];
      ScanSnoc(body[..k], body[k]);
      CasesFromSnoc(Scan(body[..k]), MatchLine(body[k]));
      var cm := CaseName(Strip(body[k]));
      if cm.Some? {
        cases := cases + {cm.value};
      }
    }
    assert body[..|body|] == body;
  }

  // ---------------------------------------------------------------------------
  // Properties
  // ---------------------------------------------------------------------------

  /** A property name is recorded exactly when some line declares it. */
  lemma {:induction false} PropsFromKeys(ms: seq<LineMatch>, p: string)
    ensures p in PropsFrom(ms) <==>
              exists k :: 0 <= k < |ms| && ms[k].property.Some? && ms[k].property.value.name == p
  {
    if ms != [] {
      var init := ms[..|ms| - 1];
      PropsFromKeys(init, p);
      if p in PropsFrom(init) {
        var k :| 0 <= k < |init| && init[k].property.Some? && init[k].property.value.name == p;
        assert ms[k] == init[k];
      }
      if exists k :: 0 <= k < |ms| && ms[k].property.Some? && ms[k].property.value.name == p {
        var k :| 0 <= k < |ms| && ms[k].property.Some? && ms[k].property.value.name == p;
        if k < |init| {
          assert init[k] == ms[k];
        }
      }
    }
  }

  /** A property keeps the type of its last declaration. */
  lemma {:induction false} PropsFromLast(ms: seq<LineMatch>, k: nat, p: string, t: string)
    requires k < |ms| && ms[k].property == Some(Property(p, t))
    requires forall j :: k < j < |ms| && ms[j].property.Some? ==> ms[j].property.value.name != p
    ensures p in PropsFrom(ms) && PropsFrom(ms)[p] == t
  {
    if k < |ms| - 1 {
      var init := ms[..|ms| - 1];
      assert init[k] == ms[k];
      forall j | k < j < |init| && init[j].property.Some?
        ensures init[j].property.value.name != p
      {
        assert init[j] == ms[j];
      }
      PropsFromLast(init, k, p, t);
    }
  }

  /** A case name is recorded exactly when some line matched it. */
  lemma {:induction false} CasesFromMembers(ms: seq<LineMatch>, c: string)
    ensures c in CasesFrom(ms) <==> exists k :: 0 <= k < |ms| && ms[k].caseName == Some(c)
  {
    if ms != [] {
      var init := ms[..|ms| - 1];
      CasesFromMembers(init, c);
      if c in CasesFrom(init) {
        var k :| 0 <= k < |init| && init[k].caseName == Some(c);
        assert ms[k] == init[k];
      }
      if exists k :: 0 <= k < |ms| && ms[k].caseName == Some(c) {
        var k :| 0 <= k < |ms| && ms[k].caseName == Some(c);
        if k < |init| {
          assert init[k] == ms[k];
        }
      }
    }
  }

  /** A struct's property names and an enum's case names are identifiers, and
      an enum lists each case name of its body once, in increasing order. */
  lemma InfoWellFormed(kind: Kind, ms: seq<LineMatch>)
    requires WordMatches(ms)
    ensures InfoFrom(kind, ms).StructInfo? ==> forall p :: p in InfoFrom(kind, ms).properties ==> IsWord(p)
    ensures InfoFrom(kind, ms).EnumInfo? ==>
              StrictlySorted(InfoFrom(kind, ms).cases) && Elems(InfoFrom(kind, ms).cases) == CasesFrom(ms)
              && forall c :: c in InfoFrom(kind, ms).cases ==> IsWord(c)
  {
    if kind == StructKind {
      forall p | p in PropsFrom(ms) ensures IsWord(p) {
        PropsFromKeys(ms, p);
      }
    } else {
      var cases := Sorted(CasesFrom(ms));
      forall c | c in cases ensures IsWord(c) {
        assert c in Elems(cases);
        CasesFromMembers(ms, c);
      }
    }
  }

  /** Every name a snapshot records is an identifier, every enum's cases are
      identifiers listed in strictly increasing order, and every struct's
      property names are identifiers. */
  ghost predicate WellFormed(types: Types)
  {
    forall n :: n in types ==>
      IsWord(n)
      && (types[n].StructInfo? ==> forall p :: p in types[n].properties ==> IsWord(p))
      && (types[n].EnumInfo? ==> StrictlySorted(types[n].cases) && forall c :: c in types[n].cases ==> IsWord(c))
  }

  lemma {:induction false} ParseFromWellFormed(lines: seq<string>, ms: seq<LineMatch>, i: nat, types: Types)
    requires |ms| == |lines| && WellFormed(types) && WordMatches(ms)
    ensures WellFormed(ParseFrom(lines, ms, i, types))
    decreases |lines| - i
  {
    if i < |lines| {
      if ms[i].header.None? {
        ParseFromWellFormed(lines, ms, i + 1, types);
      } else {
        var h := ms[i].header.value;
        var e := BodyEnd(lines, i + 1, HeaderDepth(lines[i]));
        InfoWellFormed(h.kind, ms[i + 1..e]);
        ParseFromWellFormed(lines, ms, e, types[h.name := InfoFrom(h.kind, ms[i + 1..e])]);
      }
    }
  }

  /** A snapshot read from any text is well formed. */
  lemma ParsedModelsWellFormed(text: string)
    ensures WellFormed(ParsedModels(text))
  {
    var lines := SplitLines(text);
    ScanWords(lines);
    ParseFromWellFormed(lines, Scan(lines), 0, map[]);
  }

  /** Parsing only adds: every name it records was already known or is named
      by a header line at or after `i`. */
  lemma {:induction false} ParseFromNames(lines: seq<string>, ms: seq<LineMatch>, i: nat, types: Types, n: string)
    requires |ms| == |lines|
    ensures n in types ==> n in ParseFrom(lines, ms, i, types)
    ensures n in ParseFrom(lines, ms, i, types) ==>
              n in types || exists k :: i <= k < |lines| && ms[k].header.Some? && ms[k].header.value.name == n
    decreases |lines| - i
  {
    if i < |lines| {
      if ms[i].header.None? {
        ParseFromNames(lines, ms, i + 1, types, n);
      } else {
        var h := ms[i].header.value;
        var e := BodyEnd(lines, i + 1, HeaderDepth(lines[i]));
        ParseFromNames(lines, ms, e, types[h.name := InfoFrom(h.kind, ms[i + 1..e])], n);
      }
    }
  }

  /** Every type a snapshot records is named by some header line of the text. */
  lemma ParsedNames(text: string, n: string)
    requires n in ParsedModels(text)
    ensures exists k :: 0 <= k < |SplitLines(text)| && HeaderOf(SplitLines(text)[k]).Some?
                        && HeaderOf(SplitLines(text)[k]).value.name == n
  {
    var lines := SplitLines(text);
    ParseFromNames(lines, Scan(lines), 0, map[], n);
    var k :| 0 <= k < |lines| && Scan(lines)[k].header.Some? && Scan(lines)[k].header.value.name == n;
    ScanAt(lines, k);
  }

  /** A header whose braces balance on its own line (`... {}`) does not end
      its body there: the next line is always taken into the body, and when
      that line opens a brace the body runs on past it, so a header on that
      next line is never read as a type of its own. */
  lemma BalancedHeaderRunsOn(lines: seq<string>, i: nat)
    requires i + 2 < |lines| && HeaderOf(lines[i]).Some? && HeaderDepth(lines[i]) == 0
    requires Delta(lines[i + 1]) > 0
    ensures BodyEnd(lines, i + 1, HeaderDepth(lines[i])) > i + 2
  {
    BodyEndCloses(lines, i + 1, HeaderDepth(lines[i]));
    DeltaSumStep(lines, i + 1);
    assert lines[i + 2..i + 2] == [];
    assert DeltaSum(lines[i + 1..i + 2]) == Delta(lines[i + 1]);
  }
}
