/** The schema-to-Swift type mapping of Scripts/generate-swift-models.py
    (`swift_type_from_schema`) and the struct conformance it decides. */
module SwiftTypes {
  import opened Text
  import opened JsonValue
  import opened SwiftNames
  import Pruner

  /** The name a local `$ref` of the schema designates, with the prefix removed
      by `str.replace`; `None` when the schema has no `$ref` or the reference
      is not a local schema reference (such a schema falls through to the
      other cases). */
  function LocalRefName(schema: Json): (r: Option<string>)
    ensures r.Some? ==> Get(schema, "$ref").Some? && Get(schema, "$ref").value.Str?
    ensures r.Some? ==> forall c :: c in r.value ==> c in Get(schema, "$ref").value.s
  {
    var ref := Get(schema, "$ref");
    if ref.Some? && ref.value.Str? && StartsWith(ref.value.s, Pruner.SchemaRefPrefix) then
      ReplaceAllChars(ref.value.s, Pruner.SchemaRefPrefix, "");
      Some(ReplaceAll(ref.value.s, Pruner.SchemaRefPrefix, ""))
    else None
  }

  /** Python's `key in value` for a string key: a key of a dict, a substring
      of a string, an item of a list. Python raises on the other values,
      which are read here as not holding the key. */
  predicate HoldsKey(value: Json, key: string)
  {
    match value
    case Obj(ms) => key in Keys(ms)
    case Str(s) => Contains(s, key)
    case Arr(items) => Str(key) in items
    case _ => false
  }

  /** The component schema `name` exists and `'anyOf' in` it holds. */
  predicate IsAnyOfSchema(spec: Json, name: string)
  {
    var target := Get(Pruner.SchemasOf(spec), name);
    target.Some? && HoldsKey(target.value, "anyOf")
  }

  /** The schema is mapped to a Swift array: no local reference, no `anyOf`,
      and type `array`. */
  predicate IsArraySchema(schema: Json)
  {
    LocalRefName(schema).None? && Get(schema, "anyOf").None?
    && GetOr(schema, "type", Str("string")) == Str("array")
  }

  /** The character `c` occurs in the `$ref` text of the schema or of one of
      the item schemas nested inside it. */
  predicate MentionsChar(schema: Json, c: char)
    decreases schema
  {
    var ref := Get(schema, "$ref");
    var items := Get(schema, "items");
    (ref.Some? && ref.value.Str? && c in ref.value.s)
    || (items.Some? && (LookupSound(MembersOf(schema), "items"); MentionsChar(items.value, c)))
  }

  /** The Swift spelling of every non-array, non-reference schema. */
  const ScalarTypes: set<string> := {"String", "Date", "URL", "Int64", "Int", "Float", "Double", "Bool", "SAOAIJSONValue", "Any"}

  predicate IsAlnumText(t: string)
  {
    forall i :: 0 <= i < |t| ==> IsAlnum(t[i])
  }

  lemma ScalarTypesAlnum(t: string)
    requires t in ScalarTypes
    ensures t != [] && IsAlnumText(t)
  {
  }

  /** The cases of `swift_type_from_schema` after the reference and `anyOf`
      checks, for every `type` except `array`. */
  function ScalarType(schema: Json): (r: string)
    ensures r in ScalarTypes
  {
    var kind := GetOr(schema, "type", Str("string"));
    var format := Get(schema, "format");
    if kind == Str("string") then
      if Get(schema, "enum").Some? then "String"
      else if format == Some(Str("date-time")) then "Date"
      else if format == Some(Str("uri")) then "URL"
      else "String"
    else if kind == Str("integer") then
      if format == Some(Str("int64")) then "Int64" else "Int"
    else if kind == Str("number") then
      if format == Some(Str("float")) then "Float" else "Double"
    else if kind == Str("boolean") then "Bool"
    else if kind == Str("object") then "SAOAIJSONValue"
    else "Any"
  }

  /** `swift_type_from_schema(schema)`. A missing `items` is `{}`, whose type is
      `String` (`EmptySchemaIsString`); the recursion is written on the
      present value only. */
  function SwiftTypeFromSchema(spec: Json, schema: Json): (r: string)
    ensures r != []
    ensures r[0] == '[' <==> IsArraySchema(schema)
    ensures r[0] == '[' ==> r[|r| - 1] == ']'
    ensures forall c :: c in r && !IsAlnum(c) && c != '[' && c != ']' ==> MentionsChar(schema, c)
    decreases schema
  {
    var name := LocalRefName(schema);
    if name.Some? then
      if IsAnyOfSchema(spec, name.value) then "String" else RefClassName(schema, name.value)
    else if Get(schema, "anyOf").Some? then "String"
    else if GetOr(schema, "type", Str("string")) == Str("array") then
      var items := Get(schema, "items");
      var element :=
        if items.Some? then
          LookupSound(MembersOf(schema), "items");
          SwiftTypeFromSchema(spec, items.value)
        else "String";
      "[" + element + "]"
    else
      var r := ScalarType(schema);
      ScalarTypesAlnum(r);
      r
  }

  /** The class name of a referenced schema; its punctuation comes from the
      `$ref` text. */
  function RefClassName(schema: Json, name: string): (r: string)
    requires LocalRefName(schema) == Some(name)
    ensures r == SwiftClassName(name)
    ensures r != [] && r[0] == 'G'
    ensures forall c :: c in r && !IsLetter(c) ==> MentionsChar(schema, c)
  {
    RefCharsMentioned(schema, name);
    GeneratedPrefixLetters();
    SwiftClassName(name)
  }

  /** Every character of a local reference's name is in the `$ref` text. */
  lemma RefCharsMentioned(schema: Json, name: string)
    requires LocalRefName(schema) == Some(name)
    ensures forall c :: c in name ==> MentionsChar(schema, c)
  {
  }

  /** The empty schema `{}`, which stands for missing `items`, maps to `String`. */
  lemma EmptySchemaIsString(spec: Json)
    ensures SwiftTypeFromSchema(spec, Obj([])) == "String"
  {
  }

  /** The scalar rows of the mapping table, for a schema without a local
      reference and without `anyOf`. */
  lemma ScalarTable(spec: Json, schema: Json)
    requires LocalRefName(schema).None? && Get(schema, "anyOf").None?
    ensures Get(schema, "type").None? && Get(schema, "format").None?
            ==> SwiftTypeFromSchema(spec, schema) == "String"
    ensures Get(schema, "type") == Some(Str("string")) && Get(schema, "enum").Some?
            ==> SwiftTypeFromSchema(spec, schema) == "String"
    ensures GetOr(schema, "type", Str("string")) == Str("string") && Get(schema, "enum").None?
            ==> SwiftTypeFromSchema(spec, schema) ==
                  (if Get(schema, "format") == Some(Str("date-time")) then "Date"
                   else if Get(schema, "format") == Some(Str("uri")) then "URL"
                   else "String")
    ensures Get(schema, "type") == Some(Str("integer"))
            ==> SwiftTypeFromSchema(spec, schema) ==
                  if Get(schema, "format") == Some(Str("int64")) then "Int64" else "Int"
    ensures Get(schema, "type") == Some(Str("number"))
            ==> SwiftTypeFromSchema(spec, schema) ==
                  if Get(schema, "format") == Some(Str("float")) then "Float" else "Double"
    ensures Get(schema, "type") == Some(Str("boolean")) ==> SwiftTypeFromSchema(spec, schema) == "Bool"
    ensures Get(schema, "type") == Some(Str("object")) ==> SwiftTypeFromSchema(spec, schema) == "SAOAIJSONValue"
    ensures Get(schema, "type").Some?
            && Get(schema, "type").value !in {Str("string"), Str("integer"), Str("number"), Str("boolean"), Str("array"), Str("object")}
            ==> SwiftTypeFromSchema(spec, schema) == "Any"
  {
  }

  /** An array schema maps to its item type in brackets; missing items count
      as `{}`. */
  lemma ArrayType(spec: Json, schema: Json)
    requires IsArraySchema(schema)
    ensures SwiftTypeFromSchema(spec, schema) == "[" + SwiftTypeFromSchema(spec, GetOr(schema, "items", Obj([]))) + "]"
  {
    EmptySchemaIsString(spec);
  }

  /** A local reference `#/components/schemas/<name>` maps to `String` when the
      component `name` has `anyOf`, and otherwise to the class name of `name`,
      whether or not the document defines it. */
  lemma RefType(spec: Json, schema: Json, name: string)
    requires Get(schema, "$ref") == Some(Str(Pruner.SchemaRefPrefix + name))
    requires !Contains(name, Pruner.SchemaRefPrefix)
    ensures SwiftTypeFromSchema(spec, schema) ==
              if IsAnyOfSchema(spec, name) then "String" else SwiftClassName(name)
  {
    var s := Pruner.SchemaRefPrefix + name;
    assert s[..|Pruner.SchemaRefPrefix|] == Pruner.SchemaRefPrefix;
    Pruner.StripRefPrefix(name);
  }

  /** The `in` test of the reference case is Python's: a component schema
      that is a string holding `anyOf` also maps the reference to `String`. */
  lemma AnyOfTextTarget(spec: Json, schema: Json, name: string, text: string)
    requires Get(schema, "$ref") == Some(Str(Pruner.SchemaRefPrefix + name))
    requires !Contains(name, Pruner.SchemaRefPrefix)
    requires Get(Pruner.SchemasOf(spec), name) == Some(Str(text)) && Contains(text, "anyOf")
    ensures SwiftTypeFromSchema(spec, schema) == "String"
  {
    RefType(spec, schema, name);
  }

  /** A schema with `anyOf` and no local reference maps to `String`, whatever
      its other keys say. */
  lemma AnyOfType(spec: Json, schema: Json)
    requires LocalRefName(schema).None? && Get(schema, "anyOf").Some?
    ensures SwiftTypeFromSchema(spec, schema) == "String"
  {
  }

  // ---------------------------------------------------------------------------
  // Conformance of a generated struct
  // ---------------------------------------------------------------------------

  const NonEquatableMarker: string := "[String: Any]"

  /** `has_non_equatable`: some property's Swift type mentions `[String: Any]`. */
  predicate HasNonEquatable(spec: Json, properties: seq<Member>)
  {
    exists i :: 0 <= i < |properties| && Contains(SwiftTypeFromSchema(spec, properties[i].value), NonEquatableMarker)
  }

  /** The protocols a generated struct conforms to. */
  function Conformance(spec: Json, properties: seq<Member>): (r: string)
    ensures r == "Codable" || r == "Codable, Equatable"
    ensures r == "Codable" <==> HasNonEquatable(spec, properties)
  {
    if HasNonEquatable(spec, properties) then "Codable" else "Codable, Equatable"
  }

  /** A type can only mention `[String: Any]` through a `$ref` text holding a
      colon: every other type text the mapping produces is colon-free. */
  lemma MarkerNeedsColon(spec: Json, schema: Json)
    requires Contains(SwiftTypeFromSchema(spec, schema), NonEquatableMarker)
    ensures MentionsChar(schema, ':')
  {
    ColonFromMarker(SwiftTypeFromSchema(spec, schema), schema);
  }

  lemma ColonFromMarker(t: string, schema: Json)
    requires Contains(t, NonEquatableMarker)
    requires forall c :: c in t && !IsAlnum(c) && c != '[' && c != ']' ==> MentionsChar(schema, c)
    ensures MentionsChar(schema, ':')
  {
    ContainsChar(t, NonEquatableMarker, 7);
  }

  /** When no property's `$ref` text holds a colon, which is the case for every
      schema name a document can reference, the conformance is always
      `Codable, Equatable`. */
  lemma AlwaysEquatable(spec: Json, properties: seq<Member>)
    requires forall i :: 0 <= i < |properties| ==> !MentionsChar(properties[i].value, ':')
    ensures Conformance(spec, properties) == "Codable, Equatable"
  {
    if HasNonEquatable(spec, properties) {
      var i :| 0 <= i < |properties| && Contains(SwiftTypeFromSchema(spec, properties[i].value), NonEquatableMarker);
      MarkerNeedsColon(spec, properties[i].value);
    }
  }
}
