/** Name normalisation of Scripts/generate-swift-models.py: schema names become
    Swift type names, property names become camelCase, and enum values become
    case identifiers. */
module SwiftNames {
  import opened Text

  // ---------------------------------------------------------------------------
  // swift_class_name
  // ---------------------------------------------------------------------------

  /** `''.join(part.capitalize() for part in s.split(sep))`. */
  function PascalJoin(s: string, sep: char): (r: string)
    requires !IsLetter(sep)
    ensures sep !in r
    ensures |r| == |s| - Count(s, sep)
    ensures forall c :: !IsLetter(c) ==> (c in r <==> c in s && c != sep)
  {
    ConcatCapitalizeAll(Split(s, sep));
    ConcatSplit(s, sep);
    Concat(CapitalizeAll(Split(s, sep)))
  }

  /** A whole-name rename: every occurrence of `from` becomes `to`. */
  datatype Rename = Rename(from: string, to: string)

  /** The renames applied after case conversion, in the order they apply. */
  const Renames: seq<Rename> :=
    [Rename("CreateEmbeddingRequest", "EmbeddingRequest"),
     Rename("CreateEmbeddingResponse", "EmbeddingResponse"),
     Rename("CreateFileRequest", "FileRequest"),
     Rename("CreateResponse", "ResponseRequest")]

  /** Every rename replaces a non-empty fragment by letters only. */
  predicate LetterRenames(table: seq<Rename>)
  {
    forall i :: 0 <= i < |table| ==> table[i].from != [] && forall j :: 0 <= j < |table[i].to| ==> IsLetter(table[i].to[j])
  }

  lemma RenamesTable()
    ensures LetterRenames(Renames)
  {
  }

  lemma RenamesLong()
    ensures forall i :: 0 <= i < |Renames| ==> 14 <= |Renames[i].from|
  {
  }

  /** The renames of `table` applied one after the other. */
  function RenameAll(s: string, table: seq<Rename>): string
    requires forall i :: 0 <= i < |table| ==> table[i].from != []
    decreases |table|
  {
    if table == [] then s else RenameAll(ReplaceAll(s, table[0].from, table[0].to), table[1..])
  }

  /** Renaming to letters brings in no other character. */
  lemma {:induction false} RenameAllChars(s: string, table: seq<Rename>)
    requires LetterRenames(table)
    ensures forall c :: c in RenameAll(s, table) && !IsLetter(c) ==> c in s
    decreases |table|
  {
    if table != [] {
      var t := ReplaceAll(s, table[0].from, table[0].to);
      ReplaceAllChars(s, table[0].from, table[0].to);
      RenameAllChars(t, table[1..]);
    }
  }

  /** A text holding none of the fragments is left alone. */
  lemma {:induction false} RenameAllAbsent(s: string, table: seq<Rename>)
    requires forall i :: 0 <= i < |table| ==> table[i].from != [] && !Contains(s, table[i].from)
    ensures RenameAll(s, table) == s
    decreases |table|
  {
    if table != [] {
      ReplaceAllAbsent(s, table[0].from, table[0].to);
      RenameAllAbsent(s, table[1..]);
    }
  }

  /** The whole-name renames applied after case conversion. */
  function ApplyRenames(s: string): (r: string)
    ensures forall c :: c in r && !IsLetter(c) ==> c in s
  {
    RenamesTable();
    RenameAllChars(s, Renames);
    RenameAll(s, Renames)
  }

  /** The `OpenAI.` and `Azure` deletions the conversion starts with. */
  function StripVendor(name: string): (r: string)
    ensures forall c :: c in r ==> c in name
  {
    ReplaceAllChars(name, "OpenAI.", "");
    ReplaceAllChars(ReplaceAll(name, "OpenAI.", ""), "Azure", "");
    ReplaceAll(ReplaceAll(name, "OpenAI.", ""), "Azure", "")
  }

  /** The prefix of every generated type name. */
  const GeneratedPrefix: string := "Generated"

  lemma GeneratedPrefixLetters()
    ensures |GeneratedPrefix| == 9 && GeneratedPrefix[0] == 'G'
    ensures forall c :: c in GeneratedPrefix ==> IsLetter(c)
  {
  }

  /** PascalCase across `.` and then across `_`; a name without the
      separator is left as it is. */
  function PascalCase(name: string): (r: string)
    ensures '.' !in r && '_' !in r
    ensures forall c :: c in r && !IsLetter(c) ==> c in name
  {
    var dotted := if '.' in name then PascalJoin(name, '.') else name;
    if '_' in dotted then PascalJoin(dotted, '_') else dotted
  }

  /** `s[0].upper() + s[1:]` when the first character is lower-case. */
  function UpperFirst(s: string): (r: string)
    ensures forall c :: c in r && !IsLetter(c) ==> c in s
  {
    if s != [] && IsLower(s[0]) then
      assert forall c :: c in [ToUpper(s[0])] + s[1..] && c != ToUpper(s[0]) ==> c in s;
      [ToUpper(s[0])] + s[1..]
    else s
  }

  /** The general conversion: PascalCase across `.` and `_`, an upper-case
      first letter, the renames, and the `Generated` prefix. */
  function GenericClassName(name: string): (r: string)
    ensures StartsWith(r, GeneratedPrefix)
    ensures '.' !in r && '_' !in r
    ensures forall c :: c in r && !IsLetter(c) ==> c in name
  {
    var renamed := ApplyRenames(UpperFirst(PascalCase(name)));
    GeneratedPrefixLetters();
    if StartsWith(renamed, GeneratedPrefix) then renamed else GeneratedPrefix + renamed
  }

  /** `swift_class_name(name)`. */
  function SwiftClassName(name: string): (r: string)
    ensures StartsWith(r, GeneratedPrefix)
    ensures '.' !in r && '_' !in r
    ensures forall c :: c in r && !IsLetter(c) ==> c in name
  {
    var n := StripVendor(name);
    if n == "expires_after" then "GeneratedExpiresAfter"
    else if n == "error" then "GeneratedError"
    else GenericClassName(n)
  }

  /** The special case for `error` gives exactly what the general conversion
      would give it. */
  lemma ErrorAgrees()
    ensures GenericClassName("error") == "GeneratedError"
  {
    var name := "error";
    assert '.' !in name && '_' !in name;
    assert [ToUpper(name[0])] + name[1..] == "Error";
    RenamesShortName("Error");
  }

  /** A name shorter than every renamed fragment is left alone by the renames. */
  lemma RenamesShortName(s: string)
    requires |s| < 14
    ensures ApplyRenames(s) == s
  {
    RenamesLong();
    forall i | 0 <= i < |Renames| ensures !Contains(s, Renames[i].from) {
      ShortNoContains(s, Renames[i].from);
    }
    RenameAllAbsent(s, Renames);
  }

  /** A name that is already a plain upper-case-initial identifier, with none
      of the deleted or renamed fragments, only gains the `Generated` prefix
      (or keeps the one it has). */
  lemma PlainNameKept(name: string)
    requires name != [] && !IsLower(name[0])
    requires '.' !in name && '_' !in name
    requires !Contains(name, "OpenAI.") && !Contains(name, "Azure")
    requires forall i :: 0 <= i < |Renames| ==> !Contains(name, Renames[i].from)
    ensures SwiftClassName(name) == if StartsWith(name, GeneratedPrefix) then name else GeneratedPrefix + name
  {
    ReplaceAllAbsent(name, "OpenAI.", "");
    ReplaceAllAbsent(name, "Azure", "");
    RenamesTable();
    RenameAllAbsent(name, Renames);
  }

  // ---------------------------------------------------------------------------
  // swift_property_name
  // ---------------------------------------------------------------------------

  /** `swift_property_name(name)`: snake_case to camelCase; the first component
      keeps its case, each later one is capitalized. */
  function SwiftPropertyName(name: string): (r: string)
    ensures '_' !in r
    ensures r == name <==> '_' !in name
    ensures |r| == |name| - Count(name, '_')
    ensures forall c :: !IsLetter(c) ==> (c in r <==> c in name && c != '_')
  {
    var parts := Split(name, '_');
    if |parts| > 1 then
      ConcatCapitalizeAll(parts[1..]);
      ConcatSplit(name, '_');
      assert Concat(parts) == parts[0] + Concat(parts[1..]);
      assert '_' !in parts[0];
      parts[0] + Concat(CapitalizeAll(parts[1..]))
    else
      name
  }

  // ---------------------------------------------------------------------------
  // Enum case identifiers (the loop body of generate_enum)
  // ---------------------------------------------------------------------------

  /** `''.join(c if c.isalnum() or c == '_' else '_' for c in s)`. */
  function WordCharsOnly(s: string): (r: string)
    ensures |r| == |s|
    ensures forall i :: 0 <= i < |s| ==> r[i] == if IsWordChar(s[i]) then s[i] else '_'
  {
    if s == [] then [] else [if IsWordChar(s[0]) then s[0] else '_'] + WordCharsOnly(s[1..])
  }

  /** The Swift case identifier `generate_enum` derives from one enum value. */
  function EnumCaseIdentifier(value: string): (r: string)
    ensures r != []
    ensures forall i :: 0 <= i < |r| ==> IsWordChar(r[i]) && !IsUpper(r[i])
    ensures !IsDigit(r[0])
    ensures value == [] ==> r == "unknown"
  {
    var lowered := Lower(value);
    var a := ReplaceAll(lowered, ".", "_");
    var b := ReplaceAll(a, "-", "_");
    var c := ReplaceAll(b, " ", "_");
    ReplaceAllChars(lowered, ".", "_");
    ReplaceAllChars(a, "-", "_");
    ReplaceAllChars(b, " ", "_");
    assert forall x :: x in c ==> !IsUpper(x);
    var cleaned := WordCharsOnly(c);
    var prefixed := if cleaned != [] && IsDigit(cleaned[0]) then "case_" + cleaned else cleaned;
    if prefixed == [] then "unknown" else prefixed
  }

  /** A value that is already a lower-case Swift identifier is its own case
      identifier. */
  lemma IdentifierKept(value: string)
    requires value != [] && !IsDigit(value[0])
    requires forall i :: 0 <= i < |value| ==> IsWordChar(value[i]) && !IsUpper(value[i])
    ensures EnumCaseIdentifier(value) == value
  {
    assert Lower(value) == value;
    NoSubstringOfOtherChars(value, '.');
    NoSubstringOfOtherChars(value, '-');
    NoSubstringOfOtherChars(value, ' ');
    ReplaceAllAbsent(value, ".", "_");
    ReplaceAllAbsent(value, "-", "_");
    ReplaceAllAbsent(value, " ", "_");
    assert WordCharsOnly(value) == value;
  }

  /** Deriving an identifier twice changes nothing the second time. */
  lemma IdentifierIdempotent(value: string)
    ensures EnumCaseIdentifier(EnumCaseIdentifier(value)) == EnumCaseIdentifier(value)
  {
    IdentifierKept(EnumCaseIdentifier(value));
  }

  lemma {:induction false} NoSubstringOfOtherChars(s: string, c: char)
    requires c !in s
    ensures !Contains(s, [c])
  {
    if s != [] {
      assert s[..1][0] == s[0] != c;
      NoSubstringOfOtherChars(s[1..], c);
    }
  }
}
