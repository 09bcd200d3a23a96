/** Emission of Swift source by Scripts/generate-swift-models.py: one enum per
    string enum schema, one struct per object schema, enums first. Each
    generator builds a list of lines and joins it with "\n"; the lines are
    specified by functions and the methods are proved to build them. */
module SwiftEmit {
  import opened Text
  import opened JsonValue
  import opened SwiftNames
  import opened SwiftTypes
  import opened Description
  import Pruner

  // ---------------------------------------------------------------------------
  // generate_enum
  // ---------------------------------------------------------------------------

  /** What `for value in schema.get('enum', [])` visits: the items of a list,
      the one-character strings of a string, the keys of a dict; a missing
      `enum` is empty, and so is a scalar, on which Python raises. */
  function EnumItems(schema: Json): seq<Json>
  {
    var e := Get(schema, "enum");
    if e.None? then []
    else match e.value
      case Arr(items) => items
      case Str(s) => seq(|s|, i requires 0 <= i < |s| => Str([s[i]]))
      case Obj(ms) => seq(|ms|, i requires 0 <= i < |ms| => Str(ms[i].key))
      case _ => []
  }

  /** `value.lower()` is only defined on strings: the generator needs every
      enum value of an emitted enum to be a string. */
  predicate StringEnum(schema: Json)
  {
    forall i :: 0 <= i < |EnumItems(schema)| ==> EnumItems(schema)[i].Str?
  }

  function EnumValues(schema: Json): (values: seq<string>)
    requires StringEnum(schema)
    ensures |values| == |EnumItems(schema)|
    ensures forall i :: 0 <= i < |values| ==> EnumItems(schema)[i] == Str(values[i])
  {
    var items := EnumItems(schema);
    seq(|items|, i requires 0 <= i < |items| => items[i].s)
  }

  /** The line declaring the case for one raw value. */
  function CaseLine(value: string): string
  {
    "    case " + EnumCaseIdentifier(value) + " = \"" + value + "\""
  }

  function EnumHeader(name: string): seq<string>
  {
    [EnumMarker + name, "public enum " + SwiftClassName(name) + ": String, Codable, CaseIterable {"]
  }

  const Closing: seq<string> := ["}", ""]

  /** A case line per value, in order. */
  function CaseLines(values: seq<string>): seq<string>
  {
    seq(|values|, i requires 0 <= i < |values| => CaseLine(values[i]))
  }

  /** One more value adds its case line after the others. */
  lemma CaseLinesStep(head: seq<string>, values: seq<string>, i: nat)
    requires i < |values|
    ensures head + CaseLines(values[..i + 1]) == head + CaseLines(values[..i]) + [CaseLine(values[i])]
  {
    CaseLinesSnoc(values, i);
  }

  lemma CaseLinesSnoc(values: seq<string>, i: nat)
    requires i < |values|
    ensures CaseLines(values[..i + 1]) == CaseLines(values[..i]) + [CaseLine(values[i])]
  {
    var longer := CaseLines(values[..i + 1]);
    var shorter := CaseLines(values[..i]) + [CaseLine(values[i])];
    forall k | 0 <= k < i + 1 ensures longer[k] == shorter[k] {
      if k < i {
        assert values[..i + 1][k] == values[..i][k];
      }
    }
  }

  /** The lines `generate_enum` joins. */
  function EnumLines(name: string, schema: Json): seq<string>
    requires StringEnum(schema)
  {
    EnumHeader(name) + CaseLines(EnumValues(schema)) + Closing
  }

  /** `generate_enum(name, schema)`. */
  method GenerateEnum(name: string, schema: Json) returns (text: string)
    requires StringEnum(schema)
    ensures text == JoinWith(EnumLines(name, schema), "\n")
  {
    var values := EnumValues(schema);
    var lines := EnumHeader(name);
    for i := 0 to |values|
      invariant lines == EnumHeader(name) + CaseLines(values[..i])
    {
      var caseName := EnumCaseIdentifier(values[i]);
      lines := lines + ["    case " + caseName + " = \"" + values[i] + "\""];
      CaseLinesStep(EnumHeader(name), values, i);
    }
    assert values[..|values|] == values;
    lines := lines + Closing;
    text := JoinWith(lines, "\n");
  }

  /** The raw value written on a case line: the text between ` = "`, after the
      first '=', and the closing quote. */
  function RawValueOf(line: string): string
  {
    var eq := Find(line, '=');
    if eq + 3 <= |line| - 1 then line[eq + 3..|line| - 1] else ""
  }

  /** The identifier written on a case line: the text between "    case " and
      the space before the first '='. */
  function IdentifierOf(line: string): string
  {
    var eq := Find(line, '=');
    if 9 <= eq - 1 then line[9..eq - 1] else ""
  }

  /** Every case line gives back the raw enum value verbatim and its case
      identifier. */
  lemma CaseLineRoundTrip(value: string)
    ensures RawValueOf(CaseLine(value)) == value
    ensures IdentifierOf(CaseLine(value)) == EnumCaseIdentifier(value)
  {
    var id := EnumCaseIdentifier(value);
    assert forall i :: 0 <= i < |id| ==> id[i] != '=' by {
      assert forall i :: 0 <= i < |id| ==> IsWordChar(id[i]);
    }
    CaseTextRoundTrip(id, value);
  }

  /** The identifier holds no '=', so the first '=' of the line separates the
      identifier from the raw value. */
  lemma CaseTextRoundTrip(id: string, value: string)
    requires forall i :: 0 <= i < |id| ==> id[i] != '='
    ensures RawValueOf("    case " + id + " = \"" + value + "\"") == value
    ensures IdentifierOf("    case " + id + " = \"" + value + "\"") == id
  {
    var line := "    case " + id + " = \"" + value + "\"";
    var eq := 10 + |id|;
    assert forall i :: 0 <= i < |id| ==> line[9 + i] == id[i];
    assert line[eq] == '=';
    assert '=' !in line[..eq] by {
      assert forall i :: 0 <= i < eq ==> line[..eq][i] == line[i];
    }
    FindIs(line, '=', eq);
    assert line[eq + 3..|line| - 1] == value;
    assert line[9..eq - 1] == id;
  }

  lemma CaseLineAt(header: seq<string>, values: seq<string>, i: nat)
    requires |header| == 2 && i < |values|
    ensures (header + CaseLines(values) + Closing)[i + 2] == CaseLine(values[i])
  {
  }

  /** An enum has a line per value, between the two header lines and the
      closing lines. */
  lemma EnumShape(name: string, schema: Json)
    requires StringEnum(schema)
    ensures |EnumLines(name, schema)| == |EnumItems(schema)| + 4
    ensures forall i :: 0 <= i < |EnumItems(schema)| ==>
              RawValueOf(EnumLines(name, schema)[i + 2]) == EnumValues(schema)[i]
  {
    var lines := EnumLines(name, schema);
    var values := EnumValues(schema);
    forall i | 0 <= i < |values| ensures RawValueOf(lines[i + 2]) == values[i] {
      CaseLineAt(EnumHeader(name), values, i);
      CaseLineRoundTrip(values[i]);
    }
  }

  // ---------------------------------------------------------------------------
  // generate_struct
  // ---------------------------------------------------------------------------

  /** `schema.get('properties', {})`. */
  function PropertiesOf(schema: Json): seq<Member>
  {
    MembersOf(GetOr(schema, "properties", Obj([])))
  }

  /** The strings in `set(schema.get('required', []))`, the only members that
      can equal a property name: the string items of a list, the characters of
      a string, the keys of a dict. A missing `required` is empty, and so is a
      scalar, on which Python raises. */
  function RequiredNames(schema: Json): set<string>
  {
    var r := Get(schema, "required");
    if r.None? then {}
    else match r.value
      case Arr(items) => set i | 0 <= i < |items| && items[i].Str? :: items[i].s
      case Str(s) => set i | 0 <= i < |s| :: [s[i]]
      case Obj(ms) => Keys(ms)
      case _ => {}
  }

  /** The cleaned `description` of a property schema. */
  function DescriptionOf(propSchema: Json): string
  {
    var d := Get(propSchema, "description");
    if d.Some? && d.value.Str? then CleanDescription(d.value.s) else ""
  }

  /** The Swift type of a property: optional unless the property is required. */
  function PropertyType(spec: Json, prop: Member, required: set<string>): string
  {
    var t := SwiftTypeFromSchema(spec, prop.value);
    if prop.key !in required then t + "?" else t
  }

  function PropertyLines(spec: Json, prop: Member, required: set<string>): seq<string>
  {
    var d := DescriptionOf(prop.value);
    (if d != [] then ["    /// " + d] else [])
    + ["    public let " + SwiftPropertyName(prop.key) + ": " + PropertyType(spec, prop, required)] + [""]
  }

  /** The property declarations of the struct, in property order. */
  function AllPropertyLines(spec: Json, props: seq<Member>, required: set<string>): seq<string>
  {
    if props == [] then []
    else AllPropertyLines(spec, props[..|props| - 1], required) + PropertyLines(spec, props[|props| - 1], required)
  }

  /** `coding_keys_needed`: some property is renamed in Swift. */
  predicate NeedsCodingKeys(props: seq<Member>)
  {
    exists i :: 0 <= i < |props| && SwiftPropertyName(props[i].key) != props[i].key
  }

  function CodingKeyLine(key: string): string
  {
    var swiftName := SwiftPropertyName(key);
    if swiftName != key then "        case " + swiftName + " = \"" + key + "\""
    else "        case " + swiftName
  }

  function CodingKeyLines(props: seq<Member>): (lines: seq<string>)
    ensures |lines| == |props|
  {
    if props == [] then [] else CodingKeyLines(props[..|props| - 1]) + [CodingKeyLine(props[|props| - 1].key)]
  }

  const CodingKeysOpen: string := "    private enum CodingKeys: String, CodingKey {"
  const CodingKeysClose: seq<string> := ["    }", ""]

  function CodingKeysBlock(props: seq<Member>): seq<string>
  {
    if NeedsCodingKeys(props) then [CodingKeysOpen] + CodingKeyLines(props) + CodingKeysClose else []
  }

  /** The line declaring a struct with its protocols. */
  function StructDeclaration(className: string, conformance: string): string
  {
    "public struct " + className + ": " + conformance + " {"
  }

  function StructHeader(spec: Json, name: string, props: seq<Member>): seq<string>
  {
    [StructMarker + name, StructDeclaration(SwiftClassName(name), Conformance(spec, props))]
  }

  /** The lines `generate_struct` joins. */
  function StructLines(spec: Json, name: string, schema: Json): seq<string>
  {
    var props := PropertiesOf(schema);
    StructHeader(spec, name, props) + AllPropertyLines(spec, props, RequiredNames(schema))
    + CodingKeysBlock(props) + Closing
  }

  /** The loop body of `generate_struct` for one property: its lines. */
  method EmitProperty(spec: Json, prop: Member, required: set<string>) returns (lines: seq<string>)
    ensures lines == PropertyLines(spec, prop, required)
  {
    var swiftPropName := SwiftPropertyName(prop.key);
    var swiftType := SwiftTypeFromSchema(spec, prop.value);
    if prop.key !in required {
      swiftType := swiftType + "?";
    }
    var description := DescriptionOf(prop.value);
    lines := [];
    if description != [] {
      lines := ["    /// " + description];
    }
    lines := lines + ["    public let " + swiftPropName + ": " + swiftType];
    lines := lines + [""];
  }

  /** The CodingKeys part of `generate_struct`. */
  method EmitCodingKeys(props: seq<Member>) returns (lines: seq<string>)
    ensures lines == CodingKeysBlock(props)
  {
    lines := [];
    if NeedsCodingKeys(props) {
      lines := [CodingKeysOpen];
      var cases := EmitCodingKeyCases(props);
      lines := lines + cases + CodingKeysClose;
    }
  }

  /** The loop over the property names inside the CodingKeys block. */
  method EmitCodingKeyCases(props: seq<Member>) returns (lines: seq<string>)
    ensures lines == CodingKeyLines(props)
  {
    lines := [];
    for i := 0 to |props|
      invariant lines == CodingKeyLines(props[..i])
    {
      var key := props[i].key;
      var swiftPropName := SwiftPropertyName(key);
      var line;
      if swiftPropName != key {
        line := "        case " + swiftPropName + " = \"" + key + "\"";
      } else {
        line := "        case " + swiftPropName;
      }
      lines := lines + [line];
      CodingKeyLinesStep(props, i);
    }
    assert props[..|props|] == props;
  }

  lemma CodingKeyLinesStep(props: seq<Member>, i: nat)
    requires i < |props|
    ensures CodingKeyLines(props[..i + 1]) == CodingKeyLines(props[..i]) + [CodingKeyLine(props[i].key)]
  {
    assert props[..i + 1][..i] == props[..i];
  }

  lemma PropertyLinesStep(spec: Json, props: seq<Member>, i: nat, required: set<string>)
    requires i < |props|
    ensures AllPropertyLines(spec, props[..i + 1], required)
            == AllPropertyLines(spec, props[..i], required) + PropertyLines(spec, props[i], required)
  {
    assert props[..i + 1][..i] == props[..i];
  }

  /** `generate_struct(name, schema)` (the second definition, which replaces
      the first). */
  method GenerateStruct(spec: Json, name: string, schema: Json) returns (text: string)
    ensures text == JoinWith(StructLines(spec, name, schema), "\n")
  {
    var props := PropertiesOf(schema);
    var required := RequiredNames(schema);
    var lines := StructHeader(spec, name, props);
    var declarations := EmitProperties(spec, props, required);
    lines := lines + declarations;
    var codingKeys := EmitCodingKeys(props);
    lines := lines + codingKeys + Closing;
    text := JoinWith(lines, "\n");
  }

  /** The loop over the properties in `generate_struct`. */
  method EmitProperties(spec: Json, props: seq<Member>, required: set<string>) returns (lines: seq<string>)
    ensures lines == AllPropertyLines(spec, props, required)
  {
    lines := [];
    for i := 0 to |props|
      invariant lines == AllPropertyLines(spec, props[..i], required)
    {
      var propLines := EmitProperty(spec, props[i], required);
      lines := lines + propLines;
      PropertyLinesStep(spec, props, i, required);
    }
    assert props[..|props|] == props;
  }

  /** A property's type is optional exactly when the property is not required,
      provided no `$ref` it uses holds a '?'. */
  lemma OptionalIffNotRequired(spec: Json, prop: Member, required: set<string>)
    requires !MentionsChar(prop.value, '?')
    ensures var t := PropertyType(spec, prop, required);
            t != [] && (t[|t| - 1] == '?' <==> prop.key !in required)
  {
    var t := SwiftTypeFromSchema(spec, prop.value);
    assert t[|t| - 1] in t;
  }

  /** A CodingKeys block is emitted exactly when some property name holds '_',
      and in it a property carries its original name as raw value exactly when
      that name holds '_'. */
  lemma CodingKeysRule(props: seq<Member>)
    ensures NeedsCodingKeys(props) <==> exists i :: 0 <= i < |props| && '_' in props[i].key
    ensures forall i :: 0 <= i < |props| ==>
              CodingKeyLine(props[i].key) ==
                if '_' in props[i].key then "        case " + SwiftPropertyName(props[i].key) + " = \"" + props[i].key + "\""
                else "        case " + props[i].key
  {
  }

  /** When no property's `$ref` text holds a colon, every struct is declared
      `Codable, Equatable`. */
  lemma StructEquatable(spec: Json, name: string, schema: Json)
    requires forall i :: 0 <= i < |PropertiesOf(schema)| ==> !MentionsChar(PropertiesOf(schema)[i].value, ':')
    ensures StructLines(spec, name, schema)[1] == StructDeclaration(SwiftClassName(name), "Codable, Equatable")
  {
    AlwaysEquatable(spec, PropertiesOf(schema));
  }

  // ---------------------------------------------------------------------------
  // generate_models
  // ---------------------------------------------------------------------------

  /** The schemas emitted as enums: explicit type `string` with an `enum` key. */
  predicate IsEnumSchema(schema: Json)
  {
    Get(schema, "type") == Some(Str("string")) && Get(schema, "enum").Some?
  }

  /** The schemas emitted as structs: type `object`, or any schema with
      `properties`. */
  predicate IsStructSchema(schema: Json)
  {
    Get(schema, "type") == Some(Str("object")) || Get(schema, "properties").Some?
  }

  /** The generator needs every emitted enum to have string values. */
  predicate EnumsAreStrings(schemas: seq<Member>)
  {
    forall i :: 0 <= i < |schemas| && IsEnumSchema(schemas[i].value) ==> StringEnum(schemas[i].value)
  }

  const FileHeader: seq<string> :=
    ["// Generated Swift Models from OpenAPI Specification",
     "// DO NOT EDIT: This file is automatically generated",
     "",
     "import Foundation",
     ""]

  function EnumBlocks(schemas: seq<Member>): seq<string>
    requires EnumsAreStrings(schemas)
  {
    if schemas == [] then []
    else
      var last := schemas[|schemas| - 1];
      var before := EnumBlocks(schemas[..|schemas| - 1]);
      if IsEnumSchema(last.value) then before + [JoinWith(EnumLines(last.key, last.value), "\n")] else before
  }

  function StructBlocks(spec: Json, schemas: seq<Member>): seq<string>
  {
    if schemas == [] then []
    else
      var last := schemas[|schemas| - 1];
      var before := StructBlocks(spec, schemas[..|schemas| - 1]);
      if IsStructSchema(last.value) then before + [JoinWith(StructLines(spec, last.key, last.value), "\n")] else before
  }

  /** The schemas of the document being generated. */
  function SchemaMembers(spec: Json): seq<Member>
  {
    MembersOf(Pruner.SchemasOf(spec))
  }

  /** The lines `generate_models` joins: the file header, every enum, then
      every struct, each group in schema order. */
  function ModelLines(spec: Json): seq<string>
    requires EnumsAreStrings(SchemaMembers(spec))
  {
    var schemas := SchemaMembers(spec);
    FileHeader + EnumBlocks(schemas) + StructBlocks(spec, schemas)
  }

  lemma StructBlocksStep(spec: Json, schemas: seq<Member>, i: nat)
    requires i < |schemas|
    ensures StructBlocks(spec, schemas[..i + 1]) == StructBlocks(spec, schemas[..i])
              + if IsStructSchema(schemas[i].value)
                then [JoinWith(StructLines(spec, schemas[i].key, schemas[i].value), "\n")] else []
  {
    assert schemas[..i + 1][..i] == schemas[..i];
  }

  /** `generate_models()`. */
  method GenerateModels(spec: Json) returns (text: string)
    requires EnumsAreStrings(SchemaMembers(spec))
    ensures text == JoinWith(ModelLines(spec), "\n")
  {
    var schemas := SchemaMembers(spec);
    var lines := FileHeader;
    var enums := EmitEnums(schemas);
    lines := lines + enums;
    var structs := EmitStructs(spec, schemas);
    lines := lines + structs;
    text := JoinWith(lines, "\n");
  }

  /** The first loop of `generate_models`: an enum per string enum schema. A
      schema with `anyOf` and no string enum is skipped. */
  method EmitEnums(schemas: seq<Member>) returns (blocks: seq<string>)
    requires EnumsAreStrings(schemas)
    ensures blocks == EnumBlocks(schemas)
  {
    blocks := [];
    for i := 0 to |schemas|
      invariant blocks == EnumBlocks(schemas[..i])
    {
      assert schemas[..i + 1][..i] == schemas[..i];
      if IsEnumSchema(schemas[i].value) {
        var block := GenerateEnum(schemas[i].key, schemas[i].value);
        blocks := blocks + [block];
      } else if Get(schemas[i].value, "anyOf").Some? {
        continue;
      }
    }
    assert schemas[..|schemas|] == schemas;
  }

  /** The second loop of `generate_models`: a struct per object schema. */
  method EmitStructs(spec: Json, schemas: seq<Member>) returns (blocks: seq<string>)
    ensures blocks == StructBlocks(spec, schemas)
  {
    blocks := [];
    for i := 0 to |schemas|
      invariant blocks == StructBlocks(spec, schemas[..i])
    {
      StructBlocksStep(spec, schemas, i);
      if IsStructSchema(schemas[i].value) {
        var block := GenerateStruct(spec, schemas[i].key, schemas[i].value);
        blocks := blocks + [block];
      }
    }
    assert schemas[..|schemas|] == schemas;
  }

  /** Joined lines start with the first line. */
  lemma JoinStartsWith(lines: seq<string>, sep: string)
    requires lines != []
    ensures StartsWith(JoinWith(lines, sep), lines[0])
  {
    if |lines| > 1 {
      assert (lines[0] + sep + JoinWith(lines[1..], sep))[..|lines[0]|] == lines[0];
    }
  }

  const EnumMarker: string := "/// Generated enum for "
  const StructMarker: string := "/// Generated model for "

  /** The text of an enum starts with its marker comment. */
  lemma EnumBlockStarts(name: string, schema: Json)
    requires StringEnum(schema)
    ensures StartsWith(JoinWith(EnumLines(name, schema), "\n"), EnumMarker)
  {
    var lines := EnumLines(name, schema);
    JoinStartsWith(lines, "\n");
    MarkerLine(EnumMarker, name, lines[0]);
  }

  /** The text of a struct starts with its marker comment. */
  lemma StructBlockStarts(spec: Json, name: string, schema: Json)
    ensures StartsWith(JoinWith(StructLines(spec, name, schema), "\n"), StructMarker)
  {
    var lines := StructLines(spec, name, schema);
    JoinStartsWith(lines, "\n");
    MarkerLine(StructMarker, name, lines[0]);
  }

  /** A marker followed by a name starts with the marker. */
  lemma MarkerLine(marker: string, name: string, line: string)
    requires line == marker + name
    ensures StartsWith(line, marker)
  {
    assert line[..|marker|] == marker;
  }

  lemma {:induction false} EnumBlocksShape(schemas: seq<Member>)
    requires EnumsAreStrings(schemas)
    ensures forall b :: b in EnumBlocks(schemas) ==> StartsWith(b, EnumMarker)
  {
    if schemas != [] {
      var n := |schemas| - 1;
      EnumBlocksShape(schemas[..n]);
      if IsEnumSchema(schemas[n].value) {
        EnumBlockStarts(schemas[n].key, schemas[n].value);
      }
    }
  }

  lemma {:induction false} StructBlocksShape(spec: Json, schemas: seq<Member>)
    ensures forall b :: b in StructBlocks(spec, schemas) ==> StartsWith(b, StructMarker)
  {
    if schemas != [] {
      var n := |schemas| - 1;
      StructBlocksShape(spec, schemas[..n]);
      if IsStructSchema(schemas[n].value) {
        StructBlockStarts(spec, schemas[n].key, schemas[n].value);
      }
    }
  }

  /** A prefix of a text starting with `p` and one starting with `q` cannot
      both hold when `p` and `q` differ at a position both cover. */
  lemma MarkersDiffer(b: string)
    ensures !(StartsWith(b, EnumMarker) && StartsWith(b, StructMarker))
  {
    if StartsWith(b, EnumMarker) {
      assert b[14] == EnumMarker[14] != StructMarker[14];
    }
  }

  /** Enums come first: after the file header, every enum block precedes every
      struct block. */
  lemma EnumsBeforeStructs(spec: Json, i: nat, j: nat)
    requires EnumsAreStrings(SchemaMembers(spec))
    requires |FileHeader| <= i < |ModelLines(spec)| && |FileHeader| <= j < |ModelLines(spec)|
    requires StartsWith(ModelLines(spec)[i], StructMarker) && StartsWith(ModelLines(spec)[j], EnumMarker)
    ensures j < i
  {
    var schemas := SchemaMembers(spec);
    var e := EnumBlocks(schemas);
    var s := StructBlocks(spec, schemas);
    var lines := ModelLines(spec);
    EnumBlocksShape(schemas);
    StructBlocksShape(spec, schemas);
    if j >= |FileHeader| + |e| {
      assert lines[j] == s[j - |FileHeader| - |e|];
      MarkersDiffer(lines[j]);
    }
    if i < |FileHeader| + |e| {
      assert lines[i] == e[i - |FileHeader|];
      MarkersDiffer(lines[i]);
    }
  }
}
