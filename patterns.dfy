// The four line patterns of Scripts/classify-model-changes.py, written out
// as the matches Python's `re.match` makes:
//
//   struct header  `^\s*public\s+struct\s+([A-Za-z0-9_]+)`
//   enum header    `^\s*public\s+enum\s+([A-Za-z0-9_]+)`
//   property       `^\s*public\s+let\s+([A-Za-z0-9_]+)\s*:\s*([^=]+?)(?:\s*//.*)?$`
//   enum case      `^\s*case\s+([A-Za-z0-9_]+)`
//
// A greedy `\s*` or `\s+` followed by a literal or by a word character class
// cannot give anything back usefully, and a greedy word run followed by
// whitespace, ':' or the end is maximal; only the property type needs the
// backtracking search, which `TypeSpan` follows in the order the engine
// tries.
//
// The recognisers walk indices of the one line they read and take a slice
// only for the text a group captures; what they mean is stated by the lemmas
// next to them.
module Patterns {
  import opened Text
  import opened JsonValue

  /** The literal words of the patterns. */
  const PublicWord: string := "public"
  const LetWord: string := "let"
  const CaseWord: string := "case"
  const StructWord: string := "struct"
  const EnumWord: string := "enum"

  predicate IsWord(w: string)
  {
    w != [] && forall i :: 0 <= i < |w| ==> IsWordChar(w[i])
  }

  /** Index just past the run of `[A-Za-z0-9_]` that starts at `l`. */
  function WordFrom(s: string, l: nat): (k: nat)
    requires l <= |s|
    ensures l <= k <= |s|
    decreases |s| - l
  {
    if l < |s| && IsWordChar(s[l]) then WordFrom(s, l + 1) else l
  }

  /** The run is maximal: all word characters, and not followed by one. */
  lemma {:induction false} WordFromSpec(s: string, l: nat)
    requires l <= |s|
    ensures forall i :: l <= i < WordFrom(s, l) ==> IsWordChar(s[i])
    ensures WordFrom(s, l) < |s| ==> !IsWordChar(s[WordFrom(s, l)])
    decreases |s| - l
  {
    if l < |s| && IsWordChar(s[l]) {
      WordFromSpec(s, l + 1);
    }
  }

  /** The literal `p` occurs in `s` at index `i`. */
  predicate HasAt(s: string, i: nat, p: string)
    ensures HasAt(s, i, p) ==> i + |p| <= |s|
    decreases |p|
  {
    if p == [] then i <= |s| else i < |s| && s[i] == p[0] && HasAt(s, i + 1, p[1..])
  }

  lemma {:induction false} HasAtSpec(s: string, i: nat, p: string)
    ensures HasAt(s, i, p) <==> i + |p| <= |s| && s[i..i + |p|] == p
    decreases |p|
  {
    if p != [] && i < |s| && s[i] == p[0] {
      HasAtSpec(s, i + 1, p[1..]);
      if i + |p| <= |s| {
        assert s[i..i + |p|] == [s[i]] + s[i + 1..i + 1 + |p[1..]|];
        assert p == [p[0]] + p[1..];
      }
    }
  }

  /** `\s+` followed by the keyword, from index `l`: the index after the
      keyword. */
  function KeywordAt(s: string, l: nat, keyword: string): (r: Option<nat>)
    requires l <= |s|
    ensures r.Some? ==> l < r.value <= |s|
  {
    var k := SpaceFrom(s, l);
    if k > l && keyword != [] && HasAt(s, k, keyword) then Some(k + |keyword|) else None
  }

  /** `\s+([A-Za-z0-9_]+)` from index `l`: the span of the word. */
  function WordSpanAt(s: string, l: nat): (r: Option<(nat, nat)>)
    requires l <= |s|
    ensures r.Some? ==> l < r.value.0 < r.value.1 <= |s|
  {
    var n := SpaceFrom(s, l);
    var w := WordFrom(s, n);
    if n > l && w > n then Some((n, w)) else None
  }

  /** The word found is maximal, so it is a word followed by a non-word
      character or by the end. */
  lemma WordSpanAtSpec(s: string, l: nat)
    requires l <= |s|
    ensures var r := WordSpanAt(s, l);
            r.Some? ==> IsWord(s[r.value.0..r.value.1]) && (r.value.1 < |s| ==> !IsWordChar(s[r.value.1]))
  {
    var n := SpaceFrom(s, l);
    WordFromSpec(s, n);
    var w := WordFrom(s, n);
    assert forall i :: 0 <= i < w - n ==> s[n..w][i] == s[n + i];
  }

  /** `^\s*public\s+<keyword>\s+([A-Za-z0-9_]+)` matched against a line: the
      declared name. */
  function DeclarationName(line: string, keyword: string): Option<string>
  {
    var i := SpaceFrom(line, 0);
    if !HasAt(line, i, PublicWord) then None else DeclarationAfter(line, i + 6, keyword)
  }

  /** The rest of a header once `public` is read: `\s+<keyword>\s+(word)`. */
  function DeclarationAfter(line: string, l: nat, keyword: string): Option<string>
    requires l <= |line|
  {
    var k := KeywordAt(line, l, keyword);
    if k.None? then None
    else
      var span := WordSpanAt(line, k.value);
      if span.None? then None else Some(line[span.value.0..span.value.1])
  }

  lemma DeclarationNameIsWord(line: string, keyword: string)
    ensures DeclarationName(line, keyword).Some? ==> IsWord(DeclarationName(line, keyword).value)
  {
    var i := SpaceFrom(line, 0);
    if HasAt(line, i, PublicWord) {
      var k := KeywordAt(line, i + 6, keyword);
      if k.Some? {
        WordSpanAtSpec(line, k.value);
      }
    }
  }

  datatype Kind = StructKind | EnumKind
  datatype Header = Header(kind: Kind, name: string)

  /** The two header patterns, struct first. */
  function HeaderOf(line: string): Option<Header>
  {
    var s := DeclarationName(line, StructWord);
    if s.Some? then Some(Header(StructKind, s.value))
    else
      var e := DeclarationName(line, EnumWord);
      if e.Some? then Some(Header(EnumKind, e.value)) else None
  }

  /** A line is a struct header exactly when the struct pattern matches, an
      enum header when only the enum pattern does, and the name is a word. */
  lemma HeaderSpec(line: string)
    ensures var h := HeaderOf(line);
            (h.Some? ==> IsWord(h.value.name))
            && (DeclarationName(line, StructWord).Some? ==> h == Some(Header(StructKind, DeclarationName(line, StructWord).value)))
            && (DeclarationName(line, StructWord).None? ==>
                  h == if DeclarationName(line, EnumWord).Some? then Some(Header(EnumKind, DeclarationName(line, EnumWord).value)) else None)
  {
    DeclarationNameIsWord(line, StructWord);
    DeclarationNameIsWord(line, EnumWord);
  }

  /** `^\s*case\s+([A-Za-z0-9_]+)`: the case name. */
  function CaseName(line: string): Option<string>
  {
    var i := SpaceFrom(line, 0);
    if !HasAt(line, i, CaseWord) then None
    else
      var span := WordSpanAt(line, i + 4);
      if span.None? then None else Some(line[span.value.0..span.value.1])
  }

  lemma CaseNameIsWord(line: string)
    ensures CaseName(line).Some? ==> IsWord(CaseName(line).value)
  {
    var i := SpaceFrom(line, 0);
    if HasAt(line, i, CaseWord) {
      WordSpanAtSpec(line, i + 4);
    }
  }

  // ---------------------------------------------------------------------------
  // The property pattern
  // ---------------------------------------------------------------------------

  // The optional comment group and `$` match the rest of the line from index
  // `l` (the line holds no line break): either nothing is left or "//"
  // follows some whitespace.
  predicate CommentOrEndAt(u: string, l: nat)
    requires l <= |u|
  {
    l == |u| || (var k := SpaceFrom(u, l); k + 1 < |u| && u[k] == '/' && u[k + 1] == '/')
  }

  /** No '=' in `u[b..e]`. */
  predicate NoEqBetween(u: string, b: nat, e: nat)
    requires b <= e <= |u|
  {
    forall i :: b <= i < e ==> u[i] != '='
  }

  /** The pattern's tail after the colon, `\s*([^=]+?)` followed by the
      optional comment and the end, searched in the order the engine tries:
      the greedy `\s*` that starts at `floor` first takes everything up to `j`
      and gives it back one character at a time, and for each start the lazy
      group tries the ends `e`, `e + 1`, ... until it meets '=' or the end of
      the line. The result is the span of the type group. */
  function TypeSpan(u: string, floor: nat, j: nat, e: nat): (r: Option<(nat, nat)>)
    requires floor <= j < e <= |u| + 1
    ensures r.Some? ==> floor <= r.value.0 <= j && r.value.0 < r.value.1 <= |u|
    decreases j, |u| + 1 - e
  {
    if e > |u| || u[e - 1] == '=' then
      if j == floor then None else TypeSpan(u, floor, j - 1, j)
    else if CommentOrEndAt(u, e) then Some((j, e))
    else TypeSpan(u, floor, j, e + 1)
  }

  /** The span found holds no '=', the line can end after it, and it is the
      shortest such span from its start; when there is none, no '='-free span
      the search still had to try can be followed by the end of the line. */
  lemma {:induction false} TypeSpanSpec(u: string, floor: nat, j: nat, e: nat)
    requires floor <= j < e <= |u| + 1 && NoEqBetween(u, j, e - 1)
    ensures var r := TypeSpan(u, floor, j, e);
            (r.Some? ==> NoEqBetween(u, r.value.0, r.value.1) && CommentOrEndAt(u, r.value.1)
                         && forall e' :: r.value.0 < e' < r.value.1 && (r.value.0 == j ==> e <= e') ==> !CommentOrEndAt(u, e'))
            && (r.None? ==> forall b: nat, e': nat :: floor <= b <= j && b < e' <= |u| && (b == j ==> e <= e') && NoEqBetween(u, b, e')
                                                      ==> !CommentOrEndAt(u, e'))
    decreases j, |u| + 1 - e
  {
    if e > |u| || u[e - 1] == '=' {
      if j > floor {
        TypeSpanSpec(u, floor, j - 1, j);
      }
    } else if !CommentOrEndAt(u, e) {
      TypeSpanSpec(u, floor, j, e + 1);
    }
  }

  datatype Property = Property(name: string, typeText: string)

  /** The property pattern matched against a stripped line: the property name
      and the text of the type group (before it is stripped). */
  function PropertyOf(line: string): Option<Property>
  {
    var i := SpaceFrom(line, 0);
    if !HasAt(line, i, PublicWord) then None else PropertyAfterPublic(line, i + 6)
  }

  /** The property pattern from the whitespace after `public` onwards. */
  function PropertyAfterPublic(line: string, l: nat): Option<Property>
    requires l <= |line|
  {
    var k := KeywordAt(line, l, LetWord);
    if k.None? then None else PropertyAfterLet(line, k.value)
  }

  /** The property pattern from the whitespace after `let` onwards. */
  function PropertyAfterLet(line: string, l: nat): Option<Property>
    requires l <= |line|
  {
    var span := WordSpanAt(line, l);
    if span.None? then None
    else
      var typeText := TypeAfterName(line, span.value.1);
      if typeText.None? then None else Some(Property(line[span.value.0..span.value.1], typeText.value))
  }

  // The rest of the property pattern after the name: optional whitespace,
  // the colon, and the type group with its optional trailing comment.
  function TypeAfterName(line: string, w: nat): Option<string>
    requires w <= |line|
  {
    var c := SpaceFrom(line, w);
    if c == |line| || line[c] != ':' then None
    else
      var j := SpaceFrom(line, c + 1);
      var span := TypeSpan(line, c + 1, j, j + 1);
      if span.None? then None else Some(line[span.value.0..span.value.1])
  }

  lemma NoEqSlice(u: string, b: nat, e: nat)
    requires b < e <= |u| && NoEqBetween(u, b, e)
    ensures u[b..e] != [] && '=' !in u[b..e]
  {
    assert forall m :: 0 <= m < e - b ==> u[b..e][m] == u[b + m];
  }

  lemma TypeAfterNameSpec(line: string, w: nat)
    requires w <= |line|
    ensures var r := TypeAfterName(line, w);
            r.Some? ==> r.value != [] && '=' !in r.value
  {
    var c := SpaceFrom(line, w);
    if c < |line| && line[c] == ':' {
      var j := SpaceFrom(line, c + 1);
      TypeSpanSpec(line, c + 1, j, j + 1);
      var span := TypeSpan(line, c + 1, j, j + 1);
      if span.Some? {
        NoEqSlice(line, span.value.0, span.value.1);
      }
    }
  }

  /** What the property pattern finds: a word for the name and a non-empty
      type text without '='. */
  lemma PropertySpec(line: string)
    ensures var r := PropertyOf(line);
            r.Some? ==> IsWord(r.value.name) && r.value.typeText != [] && '=' !in r.value.typeText
  {
    var i := SpaceFrom(line, 0);
    if HasAt(line, i, PublicWord) {
      var k := KeywordAt(line, i + 6, LetWord);
      if k.Some? {
        WordSpanAtSpec(line, k.value);
        var span := WordSpanAt(line, k.value);
        if span.Some? {
          TypeAfterNameSpec(line, span.value.1);
        }
      }
    }
  }

  // ---------------------------------------------------------------------------
  // What the recognisers read from the lines the generator writes
  // ---------------------------------------------------------------------------

  lemma {:induction false} HasAtOf(a: string, p: string, b: string)
    ensures HasAt(a + p + b, |a|, p)
    decreases |p|
  {
    if p != [] {
      assert (a + p + b)[|a|] == p[0];
      assert a + p + b == (a + [p[0]]) + p[1..] + b;
      HasAtOf(a + [p[0]], p[1..], b);
    }
  }

  /** Every character of `s[n..w]` is a word character. */
  predicate WordCharsBetween(s: string, n: nat, w: nat)
    requires n <= w <= |s|
    decreases w - n
  {
    n == w || (IsWordChar(s[n]) && WordCharsBetween(s, n + 1, w))
  }

  lemma {:induction false} WordCharsBetweenOf(s: string, n: nat, w: nat)
    requires n <= w <= |s| && forall i :: n <= i < w ==> IsWordChar(s[i])
    ensures WordCharsBetween(s, n, w)
    decreases w - n
  {
    if n < w {
      WordCharsBetweenOf(s, n + 1, w);
    }
  }

  /** `s[n..w]` is a maximal run of word characters. */
  predicate WordRunAt(s: string, n: nat, w: nat)
  {
    n < w <= |s| && WordCharsBetween(s, n, w) && (w < |s| ==> !IsWordChar(s[w]))
  }

  lemma {:induction false} WordFromAt(s: string, l: nat, w: nat)
    requires l <= w <= |s| && WordCharsBetween(s, l, w) && (w < |s| ==> !IsWordChar(s[w]))
    ensures WordFrom(s, l) == w
    decreases w - l
  {
    if l < w {
      WordFromAt(s, l + 1, w);
    }
  }

  /** One space, then a maximal word. */
  lemma WordSpanAtAt(s: string, l: nat, w: nat)
    requires l < |s| && s[l] == ' ' && WordRunAt(s, l + 1, w)
    ensures WordSpanAt(s, l) == Some((l + 1, w))
  {
    assert IsWordChar(s[l + 1]);
    assert SpaceFrom(s, l) == l + 1;
    WordFromAt(s, l + 1, w);
  }

  /** One space, then a keyword that is a word: the index after it. */
  lemma KeywordAtAt(s: string, l: nat, keyword: string)
    requires keyword != [] && !IsSpace(keyword[0]) && l < |s| && s[l] == ' ' && HasAt(s, l + 1, keyword)
    ensures KeywordAt(s, l, keyword) == Some(l + 1 + |keyword|)
  {
    assert s[l + 1] == keyword[0];
    assert SpaceFrom(s, l) == l + 1;
  }

  /** A line that starts with a word that does not start with whitespace. */
  lemma WordAtStart(line: string, word: string)
    requires word != [] && !IsSpace(word[0]) && HasAt(line, 0, word)
    ensures SpaceFrom(line, 0) == 0
  {
    assert line[0] == word[0];
  }

  /** `DeclarationName` on a line that starts with `public`. */
  lemma DeclarationNameStep(line: string, keyword: string, v: Option<string>)
    requires SpaceFrom(line, 0) == 0 && HasAt(line, 0, PublicWord) && DeclarationAfter(line, 6, keyword) == v
    ensures DeclarationName(line, keyword) == v
  {
  }

  /** After `public`: ` <keyword> <name>` and then a non-word character or
      nothing gives back the name. */
  lemma DeclarationAfterAt(line: string, l: nat, keyword: string, w: nat)
    requires keyword != [] && !IsSpace(keyword[0]) && l + 1 + |keyword| < |line|
    requires line[l] == ' ' && HasAt(line, l + 1, keyword) && line[l + 1 + |keyword|] == ' '
    requires WordRunAt(line, l + 2 + |keyword|, w)
    ensures DeclarationAfter(line, l, keyword) == Some(line[l + 2 + |keyword|..w])
  {
    KeywordAtAt(line, l, keyword);
    WordSpanAtAt(line, l + 1 + |keyword|, w);
  }

  /** A line laid out as the generator writes a declaration,
      `public <keyword> <name>` and then a non-word character or nothing,
      gives back the name. */
  lemma DeclarationNameAt(line: string, keyword: string, w: nat)
    requires keyword != [] && !IsSpace(keyword[0]) && HasAt(line, 0, PublicWord) && 7 + |keyword| < |line|
    requires line[6] == ' ' && HasAt(line, 7, keyword) && line[7 + |keyword|] == ' '
    requires WordRunAt(line, 8 + |keyword|, w)
    ensures DeclarationName(line, keyword) == Some(line[8 + |keyword|..w])
  {
    assert PublicWord[0] == 'p';
    WordAtStart(line, PublicWord);
    DeclarationAfterAt(line, 6, keyword, w);
    DeclarationNameStep(line, keyword, Some(line[8 + |keyword|..w]));
  }

  /** `CaseName` on a line that starts with `case`. */
  lemma CaseNameStep(line: string, w: nat)
    requires SpaceFrom(line, 0) == 0 && HasAt(line, 0, CaseWord) && WordSpanAt(line, 4) == Some((5, w))
    ensures CaseName(line) == Some(line[5..w])
  {
  }

  /** A line laid out as the generator writes a case, `case <id>` and then a
      non-word character or nothing, gives back the identifier. */
  lemma CaseNameAt(line: string, w: nat)
    requires HasAt(line, 0, CaseWord) && 4 < |line| && line[4] == ' ' && WordRunAt(line, 5, w)
    ensures CaseName(line) == Some(line[5..w])
  {
    assert CaseWord[0] == 'c';
    WordAtStart(line, CaseWord);
    WordSpanAtAt(line, 4, w);
    CaseNameStep(line, w);
  }

  /** No '=' and no '/' from index `j` to the end of `u`. */
  predicate PlainFrom(u: string, j: nat)
    decreases |u| - j
  {
    j >= |u| || (u[j] != '=' && u[j] != '/' && PlainFrom(u, j + 1))
  }

  lemma {:induction false} PlainFromAt(u: string, j: nat, k: nat)
    requires PlainFrom(u, j) && j <= k < |u|
    ensures u[k] != '=' && u[k] != '/'
    decreases k - j
  {
    if j < k {
      PlainFromAt(u, j + 1, k);
    }
  }

  /** Type text without '=' or '/' matches the lazy group only as a whole. */
  lemma {:induction false} TypeSpanWhole(u: string, floor: nat, j: nat, e: nat)
    requires floor <= j < e <= |u| && PlainFrom(u, j)
    ensures TypeSpan(u, floor, j, e) == Some((j, |u|))
    decreases |u| - e
  {
    PlainFromAt(u, j, e - 1);
    if e < |u| {
      var k := SpaceFrom(u, e);
      assert !CommentOrEndAt(u, e) by {
        if k + 1 < |u| { PlainFromAt(u, j, k); }
      }
      TypeSpanWhole(u, floor, j, e + 1);
    }
  }

  /** `: <type>` after the name, with a type that starts with no whitespace
      and holds no '=' and no '/': the whole rest of the line is the type. */
  lemma TypeAfterNameAt(line: string, w: nat)
    requires w + 2 < |line| && line[w] == ':' && line[w + 1] == ' ' && !IsSpace(line[w + 2])
    requires PlainFrom(line, w + 2)
    ensures TypeAfterName(line, w) == Some(line[w + 2..])
  {
    assert SpaceFrom(line, w) == w;
    assert SpaceFrom(line, w + 1) == w + 2;
    TypeSpanWhole(line, w + 1, w + 2, w + 3);
    assert line[w + 2..|line|] == line[w + 2..];
  }

  /** `PropertyOf` on a line that starts with `public`. */
  lemma PropertyOfStep(line: string, v: Option<Property>)
    requires SpaceFrom(line, 0) == 0 && HasAt(line, 0, PublicWord) && PropertyAfterPublic(line, 6) == v
    ensures PropertyOf(line) == v
  {
  }

  /** After `public`: ` let <name>: <type>`. */
  lemma PropertyAfterPublicAt(line: string, w: nat)
    requires 10 < |line| && line[6] == ' ' && HasAt(line, 7, LetWord)
    requires line[10] == ' ' && WordRunAt(line, 11, w)
    requires w + 2 < |line| && line[w] == ':' && line[w + 1] == ' ' && !IsSpace(line[w + 2])
    requires PlainFrom(line, w + 2)
    ensures PropertyAfterPublic(line, 6) == Some(Property(line[11..w], line[w + 2..]))
  {
    assert LetWord[0] == 'l';
    KeywordAtAt(line, 6, LetWord);
    PropertyAfterLetAt(line, 10, w);
  }

  /** After `let`: ` <name>: <type>` with a type that starts with no
      whitespace and holds no '=' and no '/' gives back the name and the type. */
  lemma PropertyAfterLetAt(line: string, l: nat, w: nat)
    requires l < |line| && line[l] == ' ' && WordRunAt(line, l + 1, w)
    requires w + 2 < |line| && line[w] == ':' && line[w + 1] == ' ' && !IsSpace(line[w + 2])
    requires PlainFrom(line, w + 2)
    ensures PropertyAfterLet(line, l) == Some(Property(line[l + 1..w], line[w + 2..]))
  {
    WordSpanAtAt(line, l, w);
    TypeAfterNameAt(line, w);
  }

  /** A line laid out as the generator writes a property (once stripped),
      `public let <name>: <type>` with a type that starts with no whitespace
      and holds no '=' and no '/', gives back the name and the type. */
  lemma PropertyOfAt(line: string, w: nat)
    requires HasAt(line, 0, PublicWord) && 10 < |line| && line[6] == ' ' && HasAt(line, 7, LetWord)
    requires line[10] == ' ' && WordRunAt(line, 11, w)
    requires w + 2 < |line| && line[w] == ':' && line[w + 1] == ' ' && !IsSpace(line[w + 2])
    requires PlainFrom(line, w + 2)
    ensures PropertyOf(line) == Some(Property(line[11..w], line[w + 2..]))
  {
    assert PublicWord[0] == 'p';
    WordAtStart(line, PublicWord);
    PropertyAfterPublicAt(line, w);
    PropertyOfStep(line, Some(Property(line[11..w], line[w + 2..])));
  }
}
