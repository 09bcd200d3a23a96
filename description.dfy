/** `clean_description` of Scripts/generate-swift-models.py: markdown links
    are reduced to their text, list items that open with a code term are cut
    down, whitespace is collapsed and the result is capped at 200 characters.
    The two regular expressions are written out as the matches they make. */
module Description {
  import opened Text
  import opened JsonValue

  /** Where a markdown link starting at the first character ends: its text is
      `s[1..close]` and the whole link is `s[..end]`. */
  datatype LinkSpan = LinkSpan(close: nat, end: nat)

  /** `s[..end]` matches `\[([^\]]+)\]\([^)]+\)` with the closing bracket of
      the link text at `close`. */
  predicate IsLinkMatch(s: string, close: nat, end: nat)
  {
    end <= |s| && 2 <= close && close + 3 < end
    && s[0] == '[' && (forall i :: 1 <= i < close ==> s[i] != ']') && s[close] == ']'
    && s[close + 1] == '(' && (forall i :: close + 2 <= i < end - 1 ==> s[i] != ')') && s[end - 1] == ')'
  }

  /** The link match at the start of `s`. The classes `[^\]]` and `[^)]` stop
      at the first closing character, so the match is unique. */
  function LinkAt(s: string): (m: Option<LinkSpan>)
    ensures m.Some? ==> IsLinkMatch(s, m.value.close, m.value.end)
    ensures m.Some? ==> forall close, end :: IsLinkMatch(s, close, end) ==> close == m.value.close && end == m.value.end
    ensures m.None? ==> forall close, end :: !IsLinkMatch(s, close, end)
  {
    if s == [] || s[0] != '[' then None
    else
      var close := 1 + Find(s[1..], ']');
      FindFrom(s, 1, ']');
      if close == 1 || close + 1 >= |s| || s[close + 1] != '(' then None
      else
        var end := close + 3 + Find(s[close + 2..], ')');
        FindFrom(s, close + 2, ')');
        if end == close + 3 || end > |s| then None else Some(LinkSpan(close, end))
  }

  /** The search from position `k` stated on the whole text. */
  lemma FindFrom(s: string, k: nat, c: char)
    requires k <= |s|
    ensures forall i :: k <= i < k + Find(s[k..], c) ==> s[i] != c
    ensures k + Find(s[k..], c) < |s| ==> s[k + Find(s[k..], c)] == c
  {
    assert forall i :: k <= i < |s| ==> s[k..][i - k] == s[i];
  }

  /** `re.sub(r'\[([^\]]+)\]\([^)]+\)', r'\1', s)`: scanning from the left,
      each link is replaced by its text and the scan resumes after it. */
  function StripLinks(s: string): (r: string)
    ensures |r| <= |s|
    ensures forall c :: c in r ==> c in s
    ensures '[' !in s ==> r == s
    decreases |s|
  {
    if s == [] then []
    else
      var m := LinkAt(s);
      if m.Some? then
        var rest := StripLinks(s[m.value.end..]);
        assert forall c :: c in s[1..m.value.close] ==> c in s;
        assert forall c :: c in s[m.value.end..] ==> c in s;
        s[1..m.value.close] + rest
      else
        var rest := StripLinks(s[1..]);
        assert forall c :: c in s[1..] ==> c in s;
        assert '[' !in s ==> s == [s[0]] + s[1..];
        [s[0]] + rest
  }

  /** A link at the start of the text is replaced by its text, and the scan
      goes on after the link. */
  lemma LinkReplaced(text: string, url: string, rest: string)
    requires text != [] && ']' !in text && url != [] && ')' !in url
    ensures StripLinks("[" + text + "](" + url + ")" + rest) == text + StripLinks(rest)
  {
    var s := "[" + text + "](" + url + ")" + rest;
    var close := |text| + 1;
    var end := close + |url| + 3;
    assert forall i :: 1 <= i < close ==> s[i] == text[i - 1];
    assert forall i :: close + 2 <= i < end - 1 ==> s[i] == url[i - close - 2];
    assert IsLinkMatch(s, close, end);
    assert s[1..close] == text;
    assert s[end..] == rest;
  }

  /** `s[..end]` matches "- `", a non-empty run without backquote, and "`:". */
  predicate IsBulletMatch(s: string, end: nat)
  {
    6 <= end <= |s| && s[0] == '-' && s[1] == ' ' && s[2] == '`'
    && (forall i :: 3 <= i < end - 2 ==> s[i] != '`') && s[end - 2] == '`' && s[end - 1] == ':'
  }

  /** The match at the start of `s` of the list-item pattern. */
  function BulletAt(s: string): (m: Option<nat>)
    ensures m.Some? ==> IsBulletMatch(s, m.value)
    ensures m.Some? ==> forall end :: IsBulletMatch(s, end) ==> end == m.value
    ensures m.None? ==> forall end :: !IsBulletMatch(s, end)
  {
    if |s| < 3 || s[0] != '-' || s[1] != ' ' || s[2] != '`' then None
    else
      var close := 3 + Find(s[3..], '`');
      FindFrom(s, 3, '`');
      if close == 3 || close + 1 >= |s| || s[close + 1] != ':' then None else Some(close + 2)
  }

  /** `re.sub(r'^- `[^`]+`:', '', s, flags=re.MULTILINE)`: the pattern is tried
      only where a line starts (at the beginning or after "\n"); text after a
      removal follows a ':' and so does not start a line. */
  function StripBullets(s: string, atLineStart: bool): (r: string)
    ensures |r| <= |s|
    ensures forall c :: c in r ==> c in s
    decreases |s|
  {
    if s == [] then []
    else
      var m := if atLineStart then BulletAt(s) else None;
      if m.Some? then
        var rest := StripBullets(s[m.value..], false);
        assert forall c :: c in s[m.value..] ==> c in s;
        rest
      else
        var rest := StripBullets(s[1..], s[0] == '\n');
        assert forall c :: c in s[1..] ==> c in s;
        [s[0]] + rest
  }

  /** A list item "- `term`:" at a line start is removed, and the text after
      it is not at a line start. */
  lemma BulletRemoved(term: string, rest: string)
    requires term != [] && '`' !in term
    ensures StripBullets("- `" + term + "`:" + rest, true) == StripBullets(rest, false)
  {
    var s := "- `" + term + "`:" + rest;
    var end := |term| + 5;
    assert forall i :: 3 <= i < end - 2 ==> s[i] == term[i - 3];
    assert IsBulletMatch(s, end);
    assert s[end..] == rest;
  }

  /** Text without line breaks and without a list item at its start is left
      alone by the list-item removal. */
  lemma {:induction false} StripBulletsKeeps(s: string, atLineStart: bool)
    requires '\n' !in s
    requires atLineStart ==> BulletAt(s).None?
    ensures StripBullets(s, atLineStart) == s
    decreases |s|
  {
    if s != [] {
      StripBulletsKeeps(s[1..], false);
      assert s == [s[0]] + s[1..];
    }
  }

  // ---------------------------------------------------------------------------
  // Whitespace collapse and the length cap
  // ---------------------------------------------------------------------------

  /** The text is what `' '.join(t.split())` produces: no whitespace but single
      spaces, none at either end and no two in a row. */
  predicate SingleSpaced(t: string)
  {
    (forall i :: 0 <= i < |t| && IsSpace(t[i]) ==> t[i] == ' ')
    && (t != [] ==> t[0] != ' ' && t[|t| - 1] != ' ')
    && (forall i :: 0 <= i < |t| - 1 && t[i] == ' ' ==> t[i + 1] != ' ')
  }

  predicate IsWord(w: string)
  {
    w != [] && forall i :: 0 <= i < |w| ==> !IsSpace(w[i])
  }

  lemma SingleSpacedJoin(w: string, j: string)
    requires IsWord(w) && SingleSpaced(j) && j != [] && !IsSpace(j[0])
    ensures SingleSpaced(w + " " + j)
  {
    var t := w + " " + j;
    assert forall i :: 0 <= i < |w| ==> t[i] == w[i];
    assert forall i :: |w| < i < |t| ==> t[i] == j[i - |w| - 1];
  }

  /** Joining words with single spaces gives single-spaced text made of the
      characters of the words and spaces. */
  lemma {:induction false} JoinWords(ws: seq<string>, src: string)
    requires forall i :: 0 <= i < |ws| ==> IsWord(ws[i])
    requires forall i, c :: 0 <= i < |ws| && c in ws[i] ==> c in src
    ensures SingleSpaced(JoinWith(ws, " "))
    ensures ws != [] ==> JoinWith(ws, " ") != [] && JoinWith(ws, " ")[0] == ws[0][0]
    ensures ws == [] <==> JoinWith(ws, " ") == []
    ensures forall c :: c in JoinWith(ws, " ") ==> c in src || c == ' '
  {
    if |ws| == 1 {
      assert JoinWith(ws, " ") == ws[0];
    } else if |ws| > 1 {
      JoinWords(ws[1..], src);
      var j := JoinWith(ws[1..], " ");
      assert ws[1..][0] == ws[1];
      SingleSpacedJoin(ws[0], j);
      assert JoinWith(ws, " ") == ws[0] + " " + j;
    }
  }

  /** `' '.join(t.split())` gives back a text that is already single-spaced. */
  lemma {:induction false} CollapseKeeps(t: string)
    requires SingleSpaced(t)
    ensures JoinWith(Words(t), " ") == t
    ensures t != [] ==> Words(t) != []
    decreases |t|
  {
    if t != [] {
      var n := WordLength(t);
      assert Words(t) == [t[..n]] + Words(t[n..]) by {
        assert !IsSpace(t[0]);
      }
      if n < |t| {
        var rest := t[n + 1..];
        SplitFirstWord(t, n);
        assert t == t[..n] + " " + rest by {
          assert t == t[..n] + [t[n]] + rest;
        }
        CollapseKeeps(rest);
        assert JoinWith(Words(t), " ") == t[..n] + " " + JoinWith(Words(rest), " ");
      } else {
        assert t[n..] == [];
        assert t[..n] == t;
      }
    }
  }

  /** The first word of single-spaced text is followed by one space and
      single-spaced text. */
  lemma SplitFirstWord(t: string, n: nat)
    requires SingleSpaced(t) && t != [] && n == WordLength(t) < |t|
    ensures n + 1 < |t| && t[n] == ' '
    ensures SingleSpaced(t[n + 1..]) && t[n + 1..] != [] && !IsSpace(t[n + 1])
    ensures Words(t[n..]) == Words(t[n + 1..])
  {
    assert t[n] == ' ' && n + 1 < |t| && t[n + 1] != ' ';
    SingleSpacedSuffix(t, n + 1);
    WordsSkipSpace(t[n..]);
    assert t[n..][1..] == t[n + 1..];
  }

  lemma WordsSkipSpace(s: string)
    requires s != [] && IsSpace(s[0])
    ensures Words(s) == Words(s[1..])
  {
  }

  /** A suffix of single-spaced text that does not start with a space is
      single-spaced. */
  lemma SingleSpacedSuffix(t: string, k: nat)
    requires SingleSpaced(t) && k < |t| && t[k] != ' '
    ensures SingleSpaced(t[k..]) && !IsSpace(t[k])
  {
    var rest := t[k..];
    assert forall i :: 0 <= i < |rest| ==> rest[i] == t[k + i];
  }

  /** Cutting single-spaced text short and appending "..." keeps it
      single-spaced. */
  lemma TruncateSingleSpaced(t: string, k: nat)
    requires SingleSpaced(t) && 0 < k <= |t|
    ensures SingleSpaced(t[..k] + "...")
  {
    var r := t[..k] + "...";
    assert forall i :: 0 <= i < k ==> r[i] == t[i];
    assert forall i :: k <= i < |r| ==> r[i] == '.';
  }

  const MaxDescription: nat := 200

  /** `clean_description(description)`. */
  function CleanDescription(d: string): (r: string)
    ensures |r| <= MaxDescription
    ensures SingleSpaced(r)
    ensures forall c :: c in r ==> c in d || c == ' ' || c == '.'
    ensures d == [] ==> r == []
  {
    if d == [] then ""
    else
      var linked := StripLinks(d);
      var bare := StripBullets(linked, true);
      var words := Words(bare);
      JoinWords(words, d);
      var collapsed := JoinWith(words, " ");
      if |collapsed| > MaxDescription then
        TruncateSingleSpaced(collapsed, 197);
        collapsed[..197] + "..."
      else collapsed
  }

  /** The cap: a collapsed text of more than 200 characters becomes its first
      197 followed by "...", exactly 200; a shorter one is kept whole. */
  lemma CapAt200(d: string)
    requires d != []
    ensures var collapsed := JoinWith(Words(StripBullets(StripLinks(d), true)), " ");
            if |collapsed| > MaxDescription
            then |CleanDescription(d)| == MaxDescription
                 && CleanDescription(d) == collapsed[..197] + "..."
            else CleanDescription(d) == collapsed
  {
  }

  /** A description that is already clean (single-spaced, no link bracket, no
      list item at its start, at most 200 characters) comes out unchanged. */
  lemma CleanKeeps(d: string)
    requires SingleSpaced(d) && |d| <= MaxDescription
    requires '[' !in d && BulletAt(d).None?
    ensures CleanDescription(d) == d
  {
    if d != [] {
      assert '\n' !in d by {
        forall i | 0 <= i < |d| ensures d[i] != '\n' {
          assert IsSpace('\n');
        }
      }
      StripBulletsKeeps(d, true);
      CollapseKeeps(d);
    }
  }

  /** Whitespace-only text is cleaned to nothing. */
  lemma BlankIsEmpty(d: string)
    requires forall i :: 0 <= i < |d| ==> IsSpace(d[i])
    ensures CleanDescription(d) == ""
  {
    if d != [] {
      assert StripLinks(d) == d;
      var b := StripBullets(d, true);
      assert forall i :: 0 <= i < |b| ==> IsSpace(b[i]) by {
        forall i | 0 <= i < |b| ensures IsSpace(b[i]) {
          assert b[i] in d;
        }
      }
      BlankWords(b);
    }
  }
}
