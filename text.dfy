/** Character classes and string operations with the meaning Python's `str`
    methods give them in the three generator scripts. Case mapping, `isalnum`
    and `isdigit` are stated for ASCII; whitespace and line boundaries follow
    Python's full definitions (`str.isspace`, `str.splitlines`). */
module Text {

  // ---------------------------------------------------------------------------
  // Character classes
  // ---------------------------------------------------------------------------

  predicate IsUpper(c: char) { 'A' <= c <= 'Z' }
  predicate IsLower(c: char) { 'a' <= c <= 'z' }
  predicate IsLetter(c: char) { IsUpper(c) || IsLower(c) }
  predicate IsDigit(c: char) { '0' <= c <= '9' }
  predicate IsAlnum(c: char) { IsLetter(c) || IsDigit(c) }

  /** The regular-expression class `[A-Za-z0-9_]`. */
  predicate IsWordChar(c: char) { IsAlnum(c) || c == '_' }

  /** Python's `str.isspace`, which is also what `\s`, `str.split()` and
      `str.strip()` use on text. */
  predicate IsSpace(c: char)
  {
    c == ' ' || ('\t' <= c <= '\r') || ('\U{001C}' <= c <= '\U{001F}')
    || c == '\U{0085}' || c == '\U{00A0}' || c == '\U{1680}'
    || ('\U{2000}' <= c <= '\U{200A}') || c == '\U{2028}' || c == '\U{2029}'
    || c == '\U{202F}' || c == '\U{205F}' || c == '\U{3000}'
  }

  /** The line boundaries of Python's `str.splitlines`. */
  predicate IsLineBreak(c: char)
  {
    c == '\n' || c == '\r' || c == '\U{000B}' || c == '\U{000C}'
    || ('\U{001C}' <= c <= '\U{001E}') || c == '\U{0085}' || c == '\U{2028}' || c == '\U{2029}'
  }

  lemma LineBreakIsSpace(c: char)
    ensures IsLineBreak(c) ==> IsSpace(c)
  {
  }

  function ToUpper(c: char): char { if IsLower(c) then (c as int - 32) as char else c }
  function ToLower(c: char): char { if IsUpper(c) then (c as int + 32) as char else c }

  /** Python's `str.lower` on ASCII. */
  function Lower(s: string): (r: string)
    ensures |r| == |s|
    ensures forall i :: 0 <= i < |s| ==> r[i] == ToLower(s[i])
  {
    if s == [] then [] else [ToLower(s[0])] + Lower(s[1..])
  }

  /** Python's `str.capitalize` on ASCII: first character upper-cased, the rest lower-cased. */
  function Capitalize(s: string): (r: string)
    ensures |r| == |s|
    ensures s != [] ==> r[0] == ToUpper(s[0]) && r[1..] == Lower(s[1..])
  {
    if s == [] then [] else [ToUpper(s[0])] + Lower(s[1..])
  }

  /** Case mapping changes letters only: a character that is not an ASCII
      letter occurs in the result exactly when it occurs in the input. */
  lemma {:induction false} LowerKeepsNonLetters(s: string, c: char)
    requires !IsLetter(c)
    ensures c in Lower(s) <==> c in s
  {
    if s != [] {
      LowerKeepsNonLetters(s[1..], c);
      assert Lower(s) == [ToLower(s[0])] + Lower(s[1..]);
      assert s == [s[0]] + s[1..];
    }
  }

  lemma CapitalizeKeepsNonLetters(s: string, c: char)
    requires !IsLetter(c)
    ensures c in Capitalize(s) <==> c in s
  {
    if s != [] {
      LowerKeepsNonLetters(s[1..], c);
      assert Capitalize(s) == [ToUpper(s[0])] + Lower(s[1..]);
      assert s == [s[0]] + s[1..];
    }
  }

  // ---------------------------------------------------------------------------
  // Searching and replacing
  // ---------------------------------------------------------------------------

  predicate StartsWith(s: string, prefix: string)
  {
    |prefix| <= |s| && s[..|prefix|] == prefix
  }

  /** `pat in s` for strings. */
  predicate Contains(s: string, pat: string)
    decreases |s|
  {
    StartsWith(s, pat) || (s != [] && Contains(s[1..], pat))
  }

  /** Number of occurrences of the character `c` (Python `s.count(c)`). */
  function Count(s: string, c: char): (n: nat)
    ensures n <= |s|
    ensures n == 0 <==> c !in s
  {
    if s == [] then 0 else (if s[0] == c then 1 else 0) + Count(s[1..], c)
  }

  lemma CountAppend(a: string, b: string, c: char)
    ensures Count(a + b, c) == Count(a, c) + Count(b, c)
  {
    if a == [] {
      assert a + b == b;
    } else {
      assert (a + b)[1..] == a[1..] + b;
      CountAppend(a[1..], b, c);
    }
  }

  /** Python's `s.replace(pat, rep)`: every non-overlapping occurrence of `pat`,
      scanning from the left, is replaced by `rep`. */
  function ReplaceAll(s: string, pat: string, rep: string): (r: string)
    requires pat != []
    decreases |s|
  {
    if |s| < |pat| then s
    else if s[..|pat|] == pat then rep + ReplaceAll(s[|pat|..], pat, rep)
    else [s[0]] + ReplaceAll(s[1..], pat, rep)
  }

  lemma {:induction false} ReplaceAllChars(s: string, pat: string, rep: string)
    requires pat != []
    ensures forall c :: c in ReplaceAll(s, pat, rep) ==> c in s || c in rep
    decreases |s|
  {
    if |s| < |pat| {
    } else if s[..|pat|] == pat {
      ReplaceAllChars(s[|pat|..], pat, rep);
      forall c | c in s[|pat|..] ensures c in s {
        var i :| 0 <= i < |s| - |pat| && s[|pat|..][i] == c;
        assert s[|pat| + i] == c;
      }
    } else {
      ReplaceAllChars(s[1..], pat, rep);
      forall c | c in s[1..] ensures c in s {
        var i :| 0 <= i < |s| - 1 && s[1..][i] == c;
        assert s[1 + i] == c;
      }
    }
  }

  /** When `s` does not contain `pat`, replacing leaves it unchanged. */
  lemma {:induction false} ReplaceAllAbsent(s: string, pat: string, rep: string)
    requires pat != [] && !Contains(s, pat)
    ensures ReplaceAll(s, pat, rep) == s
    decreases |s|
  {
    if |s| >= |pat| {
      ReplaceAllAbsent(s[1..], pat, rep);
    }
  }

  // ---------------------------------------------------------------------------
  // Splitting and joining
  // ---------------------------------------------------------------------------

  /** Python's `s.split(sep)` for a one-character separator. */
  function Split(s: string, sep: char): (parts: seq<string>)
    ensures |parts| == Count(s, sep) + 1
    ensures forall i :: 0 <= i < |parts| ==> sep !in parts[i]
  {
    if s == [] then [""]
    else if s[0] == sep then [""] + Split(s[1..], sep)
    else
      var rest := Split(s[1..], sep);
      [[s[0]] + rest[0]] + rest[1..]
  }

  /** `''.join(parts)`. */
  function Concat(parts: seq<string>): string
  {
    if parts == [] then "" else parts[0] + Concat(parts[1..])
  }

  /** `sep.join(parts)`. */
  function JoinWith(parts: seq<string>, sep: string): string
  {
    if parts == [] then ""
    else if |parts| == 1 then parts[0]
    else parts[0] + sep + JoinWith(parts[1..], sep)
  }

  lemma {:induction false} SplitJoin(s: string, sep: char)
    ensures JoinWith(Split(s, sep), [sep]) == s
  {
    if s == [] {
    } else if s[0] == sep {
      SplitJoin(s[1..], sep);
      var rest := Split(s[1..], sep);
      if |rest| == 1 {
        assert JoinWith([""] + rest, [sep]) == "" + [sep] + rest[0];
      } else {
        assert ([""] + rest)[1..] == rest;
      }
    } else {
      SplitJoin(s[1..], sep);
      var rest := Split(s[1..], sep);
      var parts := [[s[0]] + rest[0]] + rest[1..];
      if |rest| == 1 {
        assert JoinWith(parts, [sep]) == [s[0]] + rest[0];
      } else {
        assert parts[1..] == rest[1..];
        assert JoinWith(rest, [sep]) == rest[0] + [sep] + JoinWith(rest[1..], [sep]);
      }
    }
  }

  lemma {:induction false} ConcatChars(parts: seq<string>, c: char)
    ensures c in Concat(parts) <==> exists i :: 0 <= i < |parts| && c in parts[i]
  {
    if parts != [] {
      ConcatChars(parts[1..], c);
      if c in Concat(parts[1..]) {
        var i :| 0 <= i < |parts| - 1 && c in parts[1..][i];
        assert c in parts[i + 1];
      }
      if exists i :: 0 <= i < |parts| && c in parts[i] {
        var i :| 0 <= i < |parts| && c in parts[i];
        if i > 0 { assert c in parts[1..][i - 1]; }
      }
    }
  }

  /** Every character of a pattern that occurs in a text occurs in the text. */
  lemma {:induction false} ContainsChar(s: string, pat: string, i: nat)
    requires Contains(s, pat) && i < |pat|
    ensures pat[i] in s
    decreases |s|
  {
    if StartsWith(s, pat) {
      assert s[i] == pat[i];
    } else {
      ContainsChar(s[1..], pat, i);
      assert s[1..][..] == s[1..];
    }
  }

  /** A pattern longer than the text does not occur in it. */
  lemma {:induction false} ShortNoContains(s: string, pat: string)
    requires |s| < |pat|
    ensures !Contains(s, pat)
    decreases |s|
  {
    if s != [] {
      ShortNoContains(s[1..], pat);
    }
  }

  lemma {:induction false} SplitNoSep(s: string, sep: char)
    requires sep !in s
    ensures Split(s, sep) == [s]
  {
    if s != [] {
      SplitNoSep(s[1..], sep);
      assert [s[0]] + s[1..] == s;
    }
  }

  /** Splitting at the first separator. */
  lemma {:induction false} SplitAt(a: string, b: string, sep: char)
    requires sep !in a
    ensures Split(a + [sep] + b, sep) == [a] + Split(b, sep)
  {
    if a == [] {
      assert (a + [sep] + b)[1..] == b;
    } else {
      assert (a + [sep] + b)[1..] == a[1..] + [sep] + b;
      SplitAt(a[1..], b, sep);
      assert [a[0]] + a[1..] == a;
    }
  }

  lemma LowerNoUpper(s: string)
    requires forall i :: 0 <= i < |s| ==> !IsUpper(s[i])
    ensures Lower(s) == s
  {
  }

  /** `s` with every occurrence of `c` deleted. */
  function RemoveChar(s: string, c: char): (r: string)
    ensures |r| == |s| - Count(s, c)
    ensures forall x :: x in r <==> x in s && x != c
  {
    if s == [] then []
    else if s[0] == c then RemoveChar(s[1..], c)
    else
      assert forall x :: x in s <==> x == s[0] || x in s[1..];
      [s[0]] + RemoveChar(s[1..], c)
  }

  /** Gluing the pieces of a split back together without separators deletes
      the separators. */
  lemma {:induction false} ConcatSplit(s: string, sep: char)
    ensures Concat(Split(s, sep)) == RemoveChar(s, sep)
  {
    if s != [] {
      ConcatSplit(s[1..], sep);
      var rest := Split(s[1..], sep);
      if s[0] == sep {
        assert ([""] + rest)[1..] == rest;
      } else {
        var parts := [[s[0]] + rest[0]] + rest[1..];
        assert parts[1..] == rest[1..];
        assert Concat(rest) == rest[0] + Concat(rest[1..]);
      }
    }
  }

  /** `[part.capitalize() for part in parts]`. */
  function CapitalizeAll(parts: seq<string>): (r: seq<string>)
    ensures |r| == |parts|
    ensures forall i :: 0 <= i < |parts| ==> r[i] == Capitalize(parts[i])
  {
    if parts == [] then [] else [Capitalize(parts[0])] + CapitalizeAll(parts[1..])
  }

  /** Capitalizing the pieces keeps the length of their concatenation and the
      non-letters in it. */
  lemma {:induction false} ConcatCapitalizeAll(parts: seq<string>)
    ensures |Concat(CapitalizeAll(parts))| == |Concat(parts)|
    ensures forall c :: !IsLetter(c) ==> (c in Concat(CapitalizeAll(parts)) <==> c in Concat(parts))
  {
    if parts != [] {
      ConcatCapitalizeAll(parts[1..]);
      assert CapitalizeAll(parts)[1..] == CapitalizeAll(parts[1..]);
      forall c | !IsLetter(c) ensures c in Concat(CapitalizeAll(parts)) <==> c in Concat(parts) {
        CapitalizeKeepsNonLetters(parts[0], c);
      }
    }
  }

  // ---------------------------------------------------------------------------
  // Whitespace: strip, split(), splitlines
  // ---------------------------------------------------------------------------

  /** Index of the first character at or after `l` that is not whitespace
      (`|s|` when there is none). */
  function SpaceFrom(s: string, l: nat): (k: nat)
    requires l <= |s|
    ensures l <= k <= |s|
    decreases |s| - l
  {
    if l < |s| && IsSpace(s[l]) then SpaceFrom(s, l + 1) else l
  }

  /** The run skipped is maximal: all whitespace, and not followed by
      whitespace. */
  lemma {:induction false} SpaceFromSpec(s: string, l: nat)
    requires l <= |s|
    ensures forall i :: l <= i < SpaceFrom(s, l) ==> IsSpace(s[i])
    ensures SpaceFrom(s, l) < |s| ==> !IsSpace(s[SpaceFrom(s, l)])
    decreases |s| - l
  {
    if l < |s| && IsSpace(s[l]) {
      SpaceFromSpec(s, l + 1);
    }
  }

  /** Index just past the last character before `e` and at or after `lo`
      that is not whitespace (`lo` when there is none). */
  function SpaceBefore(s: string, lo: nat, e: nat): (k: nat)
    requires lo <= e <= |s|
    ensures lo <= k <= e
    decreases e
  {
    if lo < e && IsSpace(s[e - 1]) then SpaceBefore(s, lo, e - 1) else e
  }

  lemma {:induction false} SpaceBeforeSpec(s: string, lo: nat, e: nat)
    requires lo <= e <= |s|
    ensures forall i :: SpaceBefore(s, lo, e) <= i < e ==> IsSpace(s[i])
    ensures lo < SpaceBefore(s, lo, e) ==> !IsSpace(s[SpaceBefore(s, lo, e) - 1])
    decreases e
  {
    if lo < e && IsSpace(s[e - 1]) {
      SpaceBeforeSpec(s, lo, e - 1);
    }
  }

  /** Python's `s.strip()`. */
  function Strip(s: string): string
  {
    var a := SpaceFrom(s, 0);
    s[a..SpaceBefore(s, a, |s|)]
  }

  /** `strip` keeps a slice `s[a..b]` and removes only whitespace on either
      side of it, and what it keeps neither starts nor ends with whitespace. */
  lemma StripSpec(s: string)
    ensures var a := SpaceFrom(s, 0);
            var b := SpaceBefore(s, a, |s|);
            var r := Strip(s);
            r == s[a..b]
            && (r != [] ==> !IsSpace(r[0]) && !IsSpace(r[|r| - 1]))
            && (forall i :: 0 <= i < a ==> IsSpace(s[i]))
            && (forall i :: b <= i < |s| ==> IsSpace(s[i]))
  {
    var a := SpaceFrom(s, 0);
    var b := SpaceBefore(s, a, |s|);
    SpaceFromSpec(s, 0);
    SpaceBeforeSpec(s, a, |s|);
    if a < b {
      assert s[a..b][0] == s[a];
      assert s[a..b][b - a - 1] == s[b - 1];
    }
  }

  /** Length of the leading run of non-whitespace characters. */
  function WordLength(s: string): (n: nat)
    ensures n <= |s|
    ensures forall i :: 0 <= i < n ==> !IsSpace(s[i])
    ensures n < |s| ==> IsSpace(s[n])
  {
    if s == [] || IsSpace(s[0]) then 0 else 1 + WordLength(s[1..])
  }

  /** Python's `s.split()`: the maximal runs of non-whitespace characters. */
  function Words(s: string): (ws: seq<string>)
    ensures forall i :: 0 <= i < |ws| ==> ws[i] != [] && forall c :: c in ws[i] ==> !IsSpace(c) && c in s
    decreases |s|
  {
    if s == [] then []
    else if IsSpace(s[0]) then Words(s[1..])
    else
      var n := WordLength(s);
      assert forall c :: c in s[..n] ==> c in s;
      assert forall c :: c in s[n..] ==> c in s;
      [s[..n]] + Words(s[n..])
  }

  /** Index of the first occurrence of `c` in `s`, or `|s|` if there is none. */
  function Find(s: string, c: char): (n: nat)
    ensures n <= |s|
    ensures forall i :: 0 <= i < n ==> s[i] != c
    ensures n < |s| ==> s[n] == c
  {
    if s == [] || s[0] == c then 0 else 1 + Find(s[1..], c)
  }

  /** The first occurrence is where the character stands with none before it. */
  lemma {:induction false} FindIs(s: string, c: char, k: nat)
    requires k < |s| && s[k] == c && c !in s[..k]
    ensures Find(s, c) == k
  {
    if k > 0 {
      assert s[0] in s[..k];
      assert s[1..][..k - 1] == s[1..k];
      assert forall x :: x in s[1..k] ==> x in s[..k];
      FindIs(s[1..], c, k - 1);
    }
  }

  /** Text made only of whitespace has no words. */
  lemma {:induction false} BlankWords(s: string)
    requires forall i :: 0 <= i < |s| ==> IsSpace(s[i])
    ensures Words(s) == []
    decreases |s|
  {
    if s != [] {
      BlankWords(s[1..]);
    }
  }

  /** Length of the text before the first line boundary. */
  function LineLength(s: string): (n: nat)
    ensures n <= |s|
    ensures forall i :: 0 <= i < n ==> !IsLineBreak(s[i])
    ensures n < |s| ==> IsLineBreak(s[n])
  {
    if s == [] || IsLineBreak(s[0]) then 0 else 1 + LineLength(s[1..])
  }

  /** Python's `s.splitlines()`: `\r\n` is one boundary, and a boundary at the
      very end does not start another (empty) line. */
  function SplitLines(s: string): (lines: seq<string>)
    ensures forall i :: 0 <= i < |lines| ==> forall c :: c in lines[i] ==> !IsLineBreak(c)
    decreases |s|
  {
    if s == [] then []
    else
      var n := LineLength(s);
      if n == |s| then [s]
      else
        var width := if s[n] == '\r' && n + 1 < |s| && s[n + 1] == '\n' then 2 else 1;
        [s[..n]] + SplitLines(s[n + width..])
  }

  // ---------------------------------------------------------------------------
  // Ordering (Python compares strings by code point) and sorting
  // ---------------------------------------------------------------------------

  predicate Less(a: string, b: string)
  {
    if a == [] then b != []
    else if b == [] then false
    else if a[0] != b[0] then a[0] < b[0]
    else Less(a[1..], b[1..])
  }

  lemma {:induction false} LessIrreflexive(a: string)
    ensures !Less(a, a)
  {
    if a != [] { LessIrreflexive(a[1..]); }
  }

  lemma {:induction false} LessTransitive(a: string, b: string, c: string)
    requires Less(a, b) && Less(b, c)
    ensures Less(a, c)
  {
    if a != [] && b != [] && c != [] && a[0] == b[0] && b[0] == c[0] {
      LessTransitive(a[1..], b[1..], c[1..]);
    }
  }

  lemma {:induction false} LessTotal(a: string, b: string)
    ensures a == b || Less(a, b) || Less(b, a)
    ensures !(Less(a, b) && Less(b, a))
  {
    if a != [] && b != [] && a[0] == b[0] {
      LessTotal(a[1..], b[1..]);
      if a[1..] == b[1..] {
        assert a == [a[0]] + a[1..] && b == [b[0]] + b[1..];
      }
    }
  }

  predicate StrictlySorted(s: seq<string>)
  {
    forall i, j :: 0 <= i < j < |s| ==> Less(s[i], s[j])
  }

  function Elems<T>(s: seq<T>): set<T>
  {
    set x | x in s
  }

  /** Inserts `x` into a strictly sorted list, keeping it strictly sorted. */
  function Insert(x: string, s: seq<string>): (r: seq<string>)
    requires StrictlySorted(s)
    ensures StrictlySorted(r)
    ensures forall y :: y in r <==> y in s || y == x
    ensures Elems(r) == Elems(s) + {x}
  {
    if s == [] then [x]
    else if x == s[0] then s
    else if Less(x, s[0]) then
      assert forall j :: 0 < j < |s| ==> Less(s[0], s[j]);
      forall j | 0 < j < |s| ensures Less(x, s[j]) { LessTransitive(x, s[0], s[j]); }
      [x] + s
    else
      LessTotal(x, s[0]);
      var rest := Insert(x, s[1..]);
      assert s == [s[0]] + s[1..];
      ConsSorted(s, x, rest);
      [s[0]] + rest
  }

  /** Putting the head of a sorted list before the insertion into its tail
      keeps the order, when the inserted string comes after the head. */
  lemma ConsSorted(s: seq<string>, x: string, rest: seq<string>)
    requires StrictlySorted(s) && s != [] && Less(s[0], x)
    requires StrictlySorted(rest) && forall y :: y in rest <==> y in s[1..] || y == x
    ensures StrictlySorted([s[0]] + rest)
  {
    forall y | y in rest ensures Less(s[0], y) {
      if y != x {
        var j :| 0 <= j < |s| - 1 && s[1..][j] == y;
        assert s[j + 1] == y;
      }
    }
    var r := [s[0]] + rest;
    forall i, j | 0 <= i < j < |r| ensures Less(r[i], r[j]) {
      if i == 0 { assert r[j] in rest; } else { assert r[i] == rest[i - 1] && r[j] == rest[j - 1]; }
    }
  }

  lemma SortedHeadIsLeast(a: seq<string>, y: string)
    requires StrictlySorted(a) && a != [] && y in a[1..]
    ensures Less(a[0], y) && y != a[0]
  {
    var i :| 0 <= i < |a| - 1 && a[1..][i] == y;
    assert a[i + 1] == y;
    LessIrreflexive(y);
  }

  /** Two strictly sorted lists with the same elements are the same list, so
      "sorted(S)" is determined by the set S. */
  lemma {:induction false} SortedUnique(a: seq<string>, b: seq<string>)
    requires StrictlySorted(a) && StrictlySorted(b) && Elems(a) == Elems(b)
    ensures a == b
  {
    if a != [] && b != [] {
      assert a[0] in Elems(b) && b[0] in Elems(a);
      assert a == [a[0]] + a[1..] && b == [b[0]] + b[1..];
      if a[0] != b[0] {
        assert a[0] in b[1..] && b[0] in a[1..];
        SortedHeadIsLeast(b, a[0]);
        SortedHeadIsLeast(a, b[0]);
        LessTotal(a[0], b[0]);
      }
      assert Elems(a[1..]) == Elems(b[1..]) by {
        forall y | y in a[1..] ensures y in b[1..] {
          SortedHeadIsLeast(a, y);
          assert y in Elems(b);
        }
        forall y | y in b[1..] ensures y in a[1..] {
          SortedHeadIsLeast(b, y);
          assert y in Elems(a);
        }
      }
      SortedUnique(a[1..], b[1..]);
    } else {
      EmptyElems(a);
      EmptyElems(b);
    }
  }

  /** No element occurs twice in the list. */
  predicate NoDuplicates<T(==)>(s: seq<T>)
  {
    forall i, j :: 0 <= i < j < |s| ==> s[i] != s[j]
  }

  /** A list without duplicates has exactly as many items as its set. */
  lemma {:induction false} NoDuplicatesCard<T>(s: seq<T>)
    requires NoDuplicates(s)
    ensures |Elems(s)| == |s|
  {
    if s != [] {
      var init := s[..|s| - 1];
      var last := s[|s| - 1];
      assert s == init + [last];
      assert NoDuplicates(init);
      NoDuplicatesCard(init);
      assert last !in Elems(init) by {
        forall j | 0 <= j < |init| ensures init[j] != last {
          assert init[j] == s[j];
        }
      }
      assert Elems(s) == Elems(init) + {last};
    }
  }

  /** Two lists without duplicates and without common items concatenate to
      a list without duplicates. */
  lemma NoDuplicatesAppend<T>(a: seq<T>, b: seq<T>)
    requires NoDuplicates(a) && NoDuplicates(b) && Elems(a) !! Elems(b)
    ensures NoDuplicates(a + b)
  {
    var r := a + b;
    forall i, j | 0 <= i < j < |r| ensures r[i] != r[j] {
      if i < |a| && |a| <= j {
        assert r[i] in Elems(a) && r[j] == b[j - |a|] && r[j] in Elems(b);
      }
    }
  }

  /** A strictly sorted list repeats no item. */
  lemma SortedNoDuplicates(s: seq<string>)
    requires StrictlySorted(s)
    ensures NoDuplicates(s)
  {
    forall i, j | 0 <= i < j < |s| ensures s[i] != s[j] {
      LessIrreflexive(s[i]);
    }
  }

  lemma EmptyElems<T>(s: seq<T>)
    ensures Elems(s) == {} <==> s == []
  {
    if s != [] { assert s[0] in Elems(s); }
  }

  /** `sorted(s)` for a set of strings, as a value: the one strictly sorted
      list holding exactly the elements of `s` (`SortedUnique`). */
  ghost function Sorted(s: set<string>): (r: seq<string>)
    ensures StrictlySorted(r) && Elems(r) == s
    decreases s
  {
    if s == {} then []
    else
      var x :| x in s;
      Insert(x, Sorted(s - {x}))
  }

  /** Python's `sorted(s)` for a set of strings. */
  method SortedList(s: set<string>) returns (r: seq<string>)
    ensures StrictlySorted(r) && Elems(r) == s
    ensures forall x :: x in r <==> x in s
    ensures r == Sorted(s)
    ensures NoDuplicates(r)
  {
    r := [];
    var rest := s;
    while rest != {}
      invariant StrictlySorted(r)
      invariant Elems(r) + rest == s
      decreases rest
    {
      var x :| x in rest;
      r := Insert(x, r);
      rest := rest - {x};
    }
    SortedUnique(r, Sorted(s));
    SortedNoDuplicates(r);
  }

  /** Python's `list(s)` for a set: some enumeration of it, each element once. */
  method ListOfSet(s: set<string>) returns (r: seq<string>)
    ensures (forall x :: x in r <==> x in s) && |r| == |s|
    ensures NoDuplicates(r)
  {
    r := [];
    var rest := s;
    while rest != {}
      invariant Elems(r) + rest == s && Elems(r) !! rest && |r| + |rest| == |s|
      invariant forall i, j :: 0 <= i < j < |r| ==> r[i] != r[j]
      decreases rest
    {
      var x :| x in rest;
      r := r + [x];
      rest := rest - {x};
    }
  }
}
