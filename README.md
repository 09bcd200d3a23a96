# SwiftAzureOpenAI model-generation pipeline, in Dafny

SwiftAzureOpenAI generates its Swift data-transfer types in three steps, one
Python script each. This project models them and proves what they promise.

- **The pruner** (`Scripts/prune-openapi-spec.py`).
  - It keeps the four allow-listed paths of the Azure OpenAI OpenAPI 3.0 document.
  - It collects the component schemas reachable from those paths with a worklist loop.
  - It copies only those schemas, plus the `ApiKeyAuth` security scheme when the input has one.
  - It is modelled in `prune.dfy` (module `Pruner`) over the JSON values of `json.dfy` (module `JsonValue`).
- **The Swift generator** (`Scripts/generate-swift-models.py`).
  - It names classes and properties and maps each schema to a Swift type.
  - It cleans descriptions.
  - It writes one enum per string-enum schema, then one struct per object schema.
  - The model is split by concern:
    - `swift_names.dfy` (`SwiftNames`): names.
    - `swift_types.dfy` (`SwiftTypes`): type mapping and conformance.
    - `description.dfy` (`Description`): description cleaning.
    - `swift_emit.dfy` (`SwiftEmit`): line emission.
- **The change classifier** (`Scripts/classify-model-changes.py`).
  - It re-reads two generated Swift files with four line patterns and a brace counter.
  - It compares the recovered type shapes.
  - It picks a semantic-version bump: major, minor or patch.
  - It is modelled in `patterns.dfy` (`Patterns`), `snapshot.dfy` (`Snapshot`) and `classify.dfy` (`Classify`).

`text.dfy` (`Text`) holds the string operations the scripts take from Python.
These are `str.replace`, `split`, `capitalize`, `lower`, `strip`,
`splitlines`, `' '.join(s.split())`, code-point ordering and `sorted`.
Whitespace and line breaks are Python's full sets; letter case and digits
are ASCII only.

## How the model is shaped

The scripts change state step by step. Where they do, the model has methods with loops:

- The `$ref` walk, the worklist and the filtering loops of the pruner.
- The `lines.append` loops of the generator.
- The line scanner of `parse_models`.
- The comparison loops of `compare`.

Each method's `ensures` ties its result to a specification function. The lemmas
state the scripts' promises about those functions:

- closure and soundness of the reachable set;
- the type-mapping table;
- the identifier rules;
- the order of emitted blocks;
- the semver rule.

Pure Python helpers are Dafny functions. These are `swift_type_from_schema`,
`swift_class_name`, `swift_property_name` and `clean_description`.

Python dictionaries are lists of members in insertion order. Lookup is the
first match, and `json.load` gives distinct keys.

A `$ref` to a schema the document does not define maps to the class name of
that name, without error (`SwiftTypes.RefType`).

## Model

| member | source | states |
|---|---|---|
| JsonValue.FilterMembers | Scripts/prune-openapi-spec.py:119-122 | the copy loop keeps exactly the members whose key is in the keep set, no more members than it had |
| JsonValue.LookupFiltered | Scripts/prune-openapi-spec.py:133-136 | looking a key up in the filtered dictionary gives the original value for kept keys and nothing otherwise |
| JsonValue.FilterAppend | Scripts/prune-openapi-spec.py:119-122 | filtering distributes over concatenation, so the kept members stay in their original order |
| JsonValue.FilterFilter | Scripts/prune-openapi-spec.py:119-122 | filtering twice is filtering by the intersection of the keep sets |
| Pruner.ExtractRefs | Scripts/prune-openapi-spec.py:57-71 | the recursive walk adds to the collected names exactly the `$ref` targets of the object (`RefsOf`) |
| Pruner.RefYieldsSuffix | Scripts/prune-openapi-spec.py:59-65 | a dictionary whose `$ref` is the schema prefix followed by a name yields exactly that name |
| Pruner.StripRefPrefix | Scripts/prune-openapi-spec.py:64 | `replace` of the prefix leaves the bare name when the name does not repeat the prefix |
| Pruner.ForeignRefIgnored | Scripts/prune-openapi-spec.py:62-63 | a `$ref` that does not start with the schema prefix yields no name |
| Pruner.RefShadowsSiblings | Scripts/prune-openapi-spec.py:59-68 | a dictionary holding `$ref` is not descended into: its other members add nothing |
| Pruner.KeptRefsFrom | Scripts/prune-openapi-spec.py:74-77 | a name is a seed iff some path that is in the keep set references it; keep-set entries missing from the document contribute nothing |
| Pruner.ExtractPathRefs | Scripts/prune-openapi-spec.py:74-77 | the loop over the paths collects exactly the seeds |
| Pruner.SuccessorsInUniverse | Scripts/prune-openapi-spec.py:80-92 | every name the worklist loop can add lies in the finite set of names the document mentions |
| Pruner.GrowthMeasure | Scripts/prune-openapi-spec.py:87-92 | growth of the collected set strictly shrinks the part of the universe still missing; otherwise the set is unchanged (the termination measure) |
| Pruner.ChainEndsIn | Scripts/prune-openapi-spec.py:80-92 | every reference chain from a seed ends inside any closed set that holds the seeds |
| Pruner.ReachableIsLeastClosed | Scripts/prune-openapi-spec.py:80-92 | every reachable name is in each closed set containing the seeds |
| Pruner.ReachableInUniverse | Scripts/prune-openapi-spec.py:80-92 | reachable names are among the names the document mentions |
| Pruner.SuccessorsReachable | Scripts/prune-openapi-spec.py:84-88 | adding the references of a collected schema keeps every collected name reachable (soundness step) |
| Pruner.StepKeepsClosedExcept | Scripts/prune-openapi-spec.py:84-92 | one iteration keeps "closed except for the names still queued", including the re-queueing of names already processed |
| Pruner.ProcessNext | Scripts/prune-openapi-spec.py:84-92 | one iteration: pop the last name, add its schema's references, re-queue per line 90 only if the set grew; the queue shrinks or the set grows |
| Pruner.DrainedIsReferenced | Scripts/prune-openapi-spec.py:83-94 | with an empty queue the collected set is closed and is exactly the set of reachable names |
| Pruner.CollectReferencedSchemas | Scripts/prune-openapi-spec.py:50-94 | the result holds the seeds, is closed under schema references (dangling names included) and is exactly the reachable names |
| Pruner.ReferencedIsReachable | Scripts/prune-openapi-spec.py:50-94 | a name is referenced iff a reference chain from a kept path reaches it |
| Pruner.KeepMembers | Scripts/prune-openapi-spec.py:119-122 | the `for` loop that copies kept members computes `FilterMembers` |
| Pruner.PruneSpec | Scripts/prune-openapi-spec.py:97-155 | the method builds exactly the pruned document `Pruned(spec)` |
| Pruner.PrunedGet | Scripts/prune-openapi-spec.py:109-155 | the value of each top-level key of the output: defaults for metadata, filtered paths, components, and `security` only with `ApiKeyAuth` |
| Pruner.PrunedMetadata | Scripts/prune-openapi-spec.py:109-113 | `openapi`, `info`, `servers` are copied, or default to "3.0.1", `{}` and `[]` |
| Pruner.PrunedPaths | Scripts/prune-openapi-spec.py:115-127 | a path of the output is a required endpoint that the input has, with its value unchanged |
| Pruner.PrunedComponentsGet | Scripts/prune-openapi-spec.py:142-151 | `components` holds the filtered schemas and, only with `ApiKeyAuth`, a `securitySchemes` holding just that scheme |
| Pruner.PrunedSchemasWith | Scripts/prune-openapi-spec.py:130-144 | an output schema is an input schema whose name is referenced, with its value unchanged |
| Pruner.PrunedSchemas | Scripts/prune-openapi-spec.py:130-144 | an output schema is exactly an input schema reachable from the kept paths; dangling referenced names never appear |
| Pruner.PrunedSecurity | Scripts/prune-openapi-spec.py:146-153 | `security` and `securitySchemes` appear iff the input has `ApiKeyAuth`, and then are the constant requirement and that one scheme |
| Pruner.PrunedKeys | Scripts/prune-openapi-spec.py:109-155 | the output's top-level keys are the five fixed ones, plus `security` exactly when `ApiKeyAuth` exists |
| SwiftNames.StripVendor | Scripts/generate-swift-models.py:80-81 | removing `OpenAI.` and `Azure` introduces no character |
| SwiftNames.PascalJoin | Scripts/generate-swift-models.py:90-97 | split-capitalize-join removes every separator, and keeps the length and non-letters otherwise |
| SwiftNames.PascalCase | Scripts/generate-swift-models.py:89-97 | after both conversions the name has no `.` and no `_`, and no new non-letter |
| SwiftNames.UpperFirst | Scripts/generate-swift-models.py:99-101 | upper-casing the first letter introduces no non-letter |
| SwiftNames.RenameAllChars | Scripts/generate-swift-models.py:104-107 | the replacements introduce no non-letter character |
| SwiftNames.RenameAllAbsent | Scripts/generate-swift-models.py:104-107 | a name holding none of the fragments is left unchanged |
| SwiftNames.ApplyRenames | Scripts/generate-swift-models.py:104-107 | every non-letter of the renamed name was in the name |
| SwiftNames.GenericClassName | Scripts/generate-swift-models.py:89-113 | the general conversion starts with `Generated`, has no `.` or `_`, and brings in no non-letter |
| SwiftNames.SwiftClassName | Scripts/generate-swift-models.py:77-113 | every class name starts with `Generated`, has no `.` or `_`, and its non-letters come from the schema name |
| SwiftNames.ErrorAgrees | Scripts/generate-swift-models.py:84-111 | the special case for `error` gives what the general conversion gives |
| SwiftNames.RenamesShortName | Scripts/generate-swift-models.py:104-107 | names shorter than 14 characters are untouched by the renames |
| SwiftNames.PlainNameKept | Scripts/generate-swift-models.py:77-113 | a plain capitalised name only gains the `Generated` prefix, or keeps the one it has |
| SwiftNames.SwiftPropertyName | Scripts/generate-swift-models.py:115-121 | the result has no `_`; it equals the name iff the name has no `_`; it is shorter by the number of underscores |
| SwiftNames.WordCharsOnly | Scripts/generate-swift-models.py:139 | every character outside `[A-Za-z0-9_]` becomes `_`, position by position |
| SwiftNames.EnumCaseIdentifier | Scripts/generate-swift-models.py:133-145 | a case identifier is non-empty, uses only lower-case word characters, never starts with a digit, and is `unknown` for the empty value |
| SwiftNames.IdentifierKept | Scripts/generate-swift-models.py:133-145 | a value that already is such an identifier is kept verbatim |
| SwiftNames.IdentifierIdempotent | Scripts/generate-swift-models.py:133-145 | transliterating twice is transliterating once |
| SwiftTypes.LocalRefName | Scripts/generate-swift-models.py:24-27 | a local reference name comes from a string `$ref`, and every character of it is in that text |
| SwiftTypes.ScalarType | Scripts/generate-swift-models.py:40-75 | the non-array cases give one of the ten scalar Swift spellings |
| SwiftTypes.SwiftTypeFromSchema | Scripts/generate-swift-models.py:22-75 | the type is non-empty; it starts with `[` iff the schema is an array schema, and then ends with `]`; its punctuation comes from `$ref` texts |
| SwiftTypes.RefClassName | Scripts/generate-swift-models.py:33 | a referenced class is `SwiftClassName` of the name, starts with `G`, and its non-letters come from the `$ref` |
| SwiftTypes.RefCharsMentioned | Scripts/generate-swift-models.py:26-27 | every character of a referenced name occurs in the schema's `$ref` text |
| SwiftTypes.EmptySchemaIsString | Scripts/generate-swift-models.py:40-51 | the empty schema, which stands for missing `items`, maps to `String` |
| SwiftTypes.ScalarTable | Scripts/generate-swift-models.py:40-75 | the table: missing type is string; `date-time` Date, `uri` URL, other strings and enums String; `int64` Int64 else Int; `float` Float else Double; Bool; every object `SAOAIJSONValue`; unknown `Any` |
| SwiftTypes.ArrayType | Scripts/generate-swift-models.py:64-67 | an array maps to `[` + item type + `]`, missing items counting as `{}` |
| SwiftTypes.RefType | Scripts/generate-swift-models.py:24-33 | a component `$ref` maps to `String` when `'anyOf' in` that schema holds, otherwise to the class name, even if the schema is absent |
| SwiftTypes.AnyOfTextTarget | Scripts/generate-swift-models.py:29-32 | `'anyOf' in ref_schema` is Python's `in`: a component schema that is a string holding `anyOf` also maps the reference to `String` |
| SwiftTypes.AnyOfType | Scripts/generate-swift-models.py:35-38 | an inline `anyOf` maps to `String` whatever its other keys say |
| SwiftTypes.Conformance | Scripts/generate-swift-models.py:209-216 | conformance is `Codable` iff some property type mentions `[String: Any]`, else `Codable, Equatable` |
| SwiftTypes.ColonFromMarker | Scripts/generate-swift-models.py:210-213 | a type text containing `[String: Any]` whose punctuation comes from `$ref` texts needs a `$ref` holding a colon |
| SwiftTypes.MarkerNeedsColon | Scripts/generate-swift-models.py:210-213 | a mapped type can only mention `[String: Any]` through a `$ref` text holding a colon |
| SwiftTypes.AlwaysEquatable | Scripts/generate-swift-models.py:209-216 | when no `$ref` text holds a colon, the conformance is always `Codable, Equatable` |
| Description.LinkAt | Scripts/generate-swift-models.py:163 | finds the markdown link at the start of the text, the one match of the pattern there if any |
| Description.StripLinks | Scripts/generate-swift-models.py:163 | replacing links by their text never lengthens the text or adds characters; text without `[` is unchanged |
| Description.LinkReplaced | Scripts/generate-swift-models.py:163 | a link `[text](url)` is replaced by `text` |
| Description.BulletAt | Scripts/generate-swift-models.py:166 | finds the one match of the bullet pattern at a line start, if any |
| Description.StripBullets | Scripts/generate-swift-models.py:166 | deleting bullets never lengthens the text or adds characters |
| Description.BulletRemoved | Scripts/generate-swift-models.py:166 | a leading ``- `term`:`` is deleted |
| Description.StripBulletsKeeps | Scripts/generate-swift-models.py:166 | a single line that does not start with a bullet is unchanged |
| Description.JoinWords | Scripts/generate-swift-models.py:169 | joining whitespace-split words with single spaces gives single-spaced text of the same characters |
| Description.CollapseKeeps | Scripts/generate-swift-models.py:169 | whitespace collapsing is the identity on single-spaced text |
| Description.TruncateSingleSpaced | Scripts/generate-swift-models.py:172-173 | truncating single-spaced text and appending `...` keeps it single-spaced |
| Description.CleanDescription | Scripts/generate-swift-models.py:156-175 | the result is at most 200 characters, single-spaced, made of the input's characters plus spaces and dots, and empty for an empty input |
| Description.CapAt200 | Scripts/generate-swift-models.py:171-173 | a collapsed text over 200 characters becomes its first 197 characters plus `...`, exactly 200; shorter texts are kept |
| Description.CleanKeeps | Scripts/generate-swift-models.py:156-175 | a clean single-spaced text of at most 200 characters is returned unchanged |
| Description.BlankIsEmpty | Scripts/generate-swift-models.py:158-169 | an all-whitespace description cleans to the empty string |
| SwiftEmit.EnumValues | Scripts/generate-swift-models.py:126 | the string values of the `enum` list, one per item and in order |
| SwiftEmit.GenerateEnum | Scripts/generate-swift-models.py:123-154 | the method's text is the enum's lines `EnumLines` joined by newlines |
| SwiftEmit.CaseTextRoundTrip | Scripts/generate-swift-models.py:147 | from a case line one reads back its identifier and its raw value, when the identifier has no `=` |
| SwiftEmit.CaseLineRoundTrip | Scripts/generate-swift-models.py:133-147 | every case line carries the original value verbatim as its raw value, and `EnumCaseIdentifier` of it as identifier |
| SwiftEmit.EnumShape | Scripts/generate-swift-models.py:128-152 | an enum has two header lines, one case per value in order, and two closing lines; case i's raw value is value i |
| SwiftEmit.EmitProperty | Scripts/generate-swift-models.py:225-236 | the lines for one property: the optional `///` description, the declaration and a blank line |
| SwiftEmit.EmitProperties | Scripts/generate-swift-models.py:224-236 | the property loop emits each property's lines in order |
| SwiftEmit.EmitCodingKeyCases | Scripts/generate-swift-models.py:246-251 | one `case` line per property, in order |
| SwiftEmit.EmitCodingKeys | Scripts/generate-swift-models.py:244-253 | the CodingKeys block is the opening line, the cases and the closing lines |
| SwiftEmit.GenerateStruct | Scripts/generate-swift-models.py:203-260 | the method's text is the struct's lines `StructLines` joined by newlines |
| SwiftEmit.OptionalIffNotRequired | Scripts/generate-swift-models.py:228-230 | a property's type ends in `?` iff its name is not required, when no `$ref` text holds `?` |
| SwiftEmit.CodingKeysRule | Scripts/generate-swift-models.py:239-252 | CodingKeys are emitted iff some property name has `_`; exactly the renamed properties carry their original name as raw value |
| SwiftEmit.StructEquatable | Scripts/generate-swift-models.py:209-221 | with colon-free `$ref` texts the declaration line is `public struct <class>: Codable, Equatable {` |
| SwiftEmit.EmitEnums | Scripts/generate-swift-models.py:274-281 | the first loop emits one enum block per string-enum schema, in document order |
| SwiftEmit.EmitStructs | Scripts/generate-swift-models.py:283-286 | the second loop emits one struct block per object schema, in document order |
| SwiftEmit.GenerateModels | Scripts/generate-swift-models.py:262-288 | the file is the fixed header, then the enum blocks, then the struct blocks, joined by newlines |
| SwiftEmit.EnumBlockStarts | Scripts/generate-swift-models.py:128-131 | an enum block starts with `/// Generated enum for ` |
| SwiftEmit.StructBlockStarts | Scripts/generate-swift-models.py:218-221 | a struct block starts with `/// Generated model for ` |
| SwiftEmit.EnumBlocksShape | Scripts/generate-swift-models.py:274-277 | every block of the first loop is an enum block |
| SwiftEmit.StructBlocksShape | Scripts/generate-swift-models.py:284-286 | every block of the second loop is a struct block |
| SwiftEmit.MarkersDiffer | Scripts/generate-swift-models.py:129 | no block is both an enum block and a struct block |
| SwiftEmit.EnumsBeforeStructs | Scripts/generate-swift-models.py:274-286 | in the file, every enum block comes before every struct block |
| Patterns.WordSpanAtSpec | Scripts/classify-model-changes.py:19-22 | a captured `[A-Za-z0-9_]+` group is a maximal word |
| Patterns.DeclarationNameIsWord | Scripts/classify-model-changes.py:19-20 | a declared type name is a word |
| Patterns.HeaderSpec | Scripts/classify-model-changes.py:30-34 | a line is a struct header if the struct pattern matches, else an enum header if the enum pattern matches, else no header |
| Patterns.CaseNameIsWord | Scripts/classify-model-changes.py:22 | a matched case name is a word |
| Patterns.TypeSpanSpec | Scripts/classify-model-changes.py:21 | the lazy `[^=]+?` group ends at the first place where an optional `//` comment and the line end can follow |
| Patterns.TypeAfterNameSpec | Scripts/classify-model-changes.py:21 | a matched property type text is non-empty and has no `=` |
| Patterns.PropertySpec | Scripts/classify-model-changes.py:21 | a matched property has a word name and a non-empty type text without `=` |
| Patterns.DeclarationNameAt | Scripts/classify-model-changes.py:19-20 | `public <keyword> <word>` yields that word |
| Patterns.CaseNameAt | Scripts/classify-model-changes.py:22 | `case <word>` yields that word |
| Patterns.PropertyOfAt | Scripts/classify-model-changes.py:21 | `public let <word>: <type>` with a plain type yields the word and the whole type text |
| Text.SortedList | Scripts/classify-model-changes.py:73-74 | `sorted` of a set is the strictly increasing list of exactly its elements |
| Text.StripSpec | Scripts/classify-model-changes.py:51-60 | `strip` removes exactly the leading and trailing whitespace |
| Snapshot.BodyEnd | Scripts/classify-model-changes.py:35-47 | the body ends after the header line and no later than the file end |
| Snapshot.BodyEndCloses | Scripts/classify-model-changes.py:41-47 | the depth stays positive inside the body and is at most 0 at the line that ends it |
| Snapshot.MatchLineWords | Scripts/classify-model-changes.py:30-62 | every recognised name on a line is a word |
| Snapshot.ParseModels | Scripts/classify-model-changes.py:24-68 | the scanner's result is the functional `ParsedModels` of the text |
| Snapshot.ParseLine | Scripts/classify-model-changes.py:28-67 | one outer iteration moves the index forward and keeps the final result |
| Snapshot.ParseType | Scripts/classify-model-changes.py:32-63 | a header records its type and resumes after the body |
| Snapshot.ReadType | Scripts/classify-model-changes.py:35-63 | the info recorded for a header is read from exactly the lines up to the body end |
| Snapshot.HeaderBody | Scripts/classify-model-changes.py:35-47 | the body lines run from after the header to the line that closes the depth |
| Snapshot.ReadBody | Scripts/classify-model-changes.py:41-47 | the inner loop collects exactly the body lines and stops on the closing line |
| Snapshot.TypeInfoOf | Scripts/classify-model-changes.py:48-63 | a struct's info is its properties, an enum's its sorted cases |
| Snapshot.StructProperties | Scripts/classify-model-changes.py:48-56 | the property map of the body lines, later lines overwriting earlier ones |
| Snapshot.CaseNames | Scripts/classify-model-changes.py:57-62 | the set of case names on the body lines |
| Snapshot.PropsFromKeys | Scripts/classify-model-changes.py:48-56 | a property is recorded iff some body line declares it |
| Snapshot.PropsFromLast | Scripts/classify-model-changes.py:50-55 | a property's recorded type is the one on its last declaring line |
| Snapshot.CasesFromMembers | Scripts/classify-model-changes.py:57-62 | a case is recorded iff some body line declares it |
| Snapshot.InfoWellFormed | Scripts/classify-model-changes.py:48-63 | properties are words; cases are words, sorted and free of duplicates |
| Snapshot.ParseFromWellFormed | Scripts/classify-model-changes.py:24-68 | scanning keeps the snapshot well formed |
| Snapshot.ParsedModelsWellFormed | Scripts/classify-model-changes.py:24-68 | every parsed snapshot has word names and sorted, duplicate-free enum cases |
| Snapshot.ParseFromNames | Scripts/classify-model-changes.py:28-67 | names already recorded stay recorded, and every name in the result was recorded already or is declared by a later header line |
| Snapshot.ParsedNames | Scripts/classify-model-changes.py:30-34 | every recorded type name comes from a header line of the text |
| Snapshot.BalancedHeaderRunsOn | Scripts/classify-model-changes.py:38-47 | after a header whose own braces balance, a next line that opens a brace is taken into the body, which runs on past it |
| Classify.RetypedPairs | Scripts/classify-model-changes.py:91-94 | the retyped pairs are exactly the common properties whose texts differ, with old and new text |
| Classify.NamedEntries | Scripts/classify-model-changes.py:97-100 | one entry per name, in order, as a property or a case of the type |
| Classify.RetypedEntries | Scripts/classify-model-changes.py:101-103 | each pair adds its new text to the added entries and its old text to the removed entries |
| Classify.StructDelta | Scripts/classify-model-changes.py:85-103 | a struct's added and removed entries are exactly `AddedOf` and `RemovedOf` |
| Classify.EnumDelta | Scripts/classify-model-changes.py:104-113 | an enum's added and removed entries are exactly its new and its dropped cases |
| Classify.TypeDelta | Scripts/classify-model-changes.py:81-113 | a kind change is flagged and contributes no entry; otherwise the struct or enum delta |
| Classify.CommonTypes | Scripts/classify-model-changes.py:80-113 | the loop lists kind changes sorted, and collects exactly the added and removed entries of all common types, each once |
| Classify.Compare | Scripts/classify-model-changes.py:70-136 | type lists are `sorted` set differences and kind changes; the member lists hold exactly the specified entries, each once, so their lengths are the sizes of those sets (one added and one removed entry per retyped property); the bump is `ExpectedSemver` |
| Classify.RemovedIsAddedSwapped | Scripts/classify-model-changes.py:85-113 | what a type removes is what it adds when the snapshots are swapped |
| Classify.SwapSnapshots | Scripts/classify-model-changes.py:71-113 | swapping the arguments swaps added and removed types and members, and keeps the kind changes |
| Classify.OwnDisjoint | Scripts/classify-model-changes.py:88-113 | no entry of one type is both added and removed |
| Classify.AddedRemovedDisjoint | Scripts/classify-model-changes.py:73-113 | added and removed types are disjoint, and so are added and removed members |
| Classify.NoDeltaOfSelf | Scripts/classify-model-changes.py:85-113 | a type compared with itself adds and removes nothing |
| Classify.SameSnapshotIsPatch | Scripts/classify-model-changes.py:70-127 | comparing a snapshot with itself gives no members and `patch` |
| Classify.NoDeltaSame | Scripts/classify-model-changes.py:85-113 | two descriptions of one kind with nothing added or removed are equal, given sorted cases |
| Classify.PatchIffEqual | Scripts/classify-model-changes.py:115-127 | for parsed snapshots, `patch` iff the snapshots are equal |
| Classify.NoRemovalKeeps | Scripts/classify-model-changes.py:85-113 | a type removes nothing iff the new one keeps all its properties with their texts, or all its cases |
| Classify.NotMajorIffExtends | Scripts/classify-model-changes.py:115-127 | not `major` iff the new snapshot keeps every type, its kind and its members: additions alone never give `major` |
| Classify.MinorIffGrows | Scripts/classify-model-changes.py:122-127 | for parsed snapshots, `minor` iff the new snapshot keeps the old one and differs from it |
| Classify.RetypedProperty | Scripts/classify-model-changes.py:92-103 | a retyped property gives exactly one added entry with the new text and one removed entry with the old text, never a plain entry, and `major` |
| Classify.KindChangeOnly | Scripts/classify-model-changes.py:81-84 | a type whose kind changed contributes no member entry, and the bump is `major` |
| Classify.EntriesAreWords | Scripts/classify-model-changes.py:97-113 | every entry reported for parsed snapshots names word identifiers |
| Classify.RenderInjective | Scripts/classify-model-changes.py:98-113 | distinct entries with word names render to distinct `T.p`, `T.k:type`, `T.case.c` strings |
| Classify.RenderedReport | Scripts/classify-model-changes.py:97-113 | for parsed snapshots no two reported entries share a text, and no text is both added and removed |

## Left out

- Console and file I/O. Left out are `main`, `load_spec`, `save_spec` and `write_generated_models`. So are `argparse`, `pathlib` reads and writes, every `print`, the exit codes and `print_summary` with its float percentages. Input texts and documents are parameters.
- JSON output formatting (`json.dump` with `sort_keys` and indentation). Documents are values.
- The markdown and JSON report writing of the classifier, and its `--model-changed` flag. Member entries are kept structured, and `Classify.Render` gives their text.
- Unicode letters and digits. `lower`, `capitalize`, `isalnum`, `isdigit` and the upper/lower-case tests are modelled on ASCII only. Whitespace (`isspace`, `\s`, `split`, `strip`) and the line breaks of `splitlines` are Python's full sets.
- The regular-expression engine. The four patterns of the classifier and the two `re.sub` patterns of `clean_description` are hand-written recognisers.
- The first `generate_struct`. It is dead code, shadowed by the second definition.
- Unused state. Left out are `self.generated_models`, the unused `schema_name` argument and the enum/struct counts printed by `main`.
- `compare`'s `changed` list. It is filled but never returned.
- Malformed documents. Python raises on some shapes; the model reads them leniently instead. Each member below states the case.
  - Pruner.RefsOf and Pruner.ExtractRefs read a non-string `$ref` as no reference, where `startswith` raises.
  - JsonValue.MembersOf and JsonValue.Get read a container that is not a dict as empty, where `.get` or `.items()` raises. SwiftEmit.PropertiesOf inherits this for `properties`.
  - SwiftTypes.LocalRefName reads a non-string `$ref` as no local reference, where `startswith` raises.
  - SwiftEmit.RequiredNames reads a number, boolean or `null` `required` as empty, where `set(...)` raises. It keeps the string items of a list and drops the rest, where `set(...)` raises on a list holding an array or an object. Strings and dicts are read as Python iterates them.
  - SwiftTypes.IsAnyOfSchema reads a component schema that is a number, boolean or `null` as holding no `anyOf`, where `'anyOf' in` raises. A dict, string or list is tested as Python's `in` tests it: key, substring, item.
  - SwiftTypes.SwiftTypeFromSchema maps a property schema that is not a dict to `String`. Python also returns `String` when that string or list holds `anyOf`, and raises otherwise.
  - SwiftEmit.EnumItems reads a number, boolean or `null` `enum` as empty, where the loop raises. Lists, strings and dicts are read as Python iterates them.
  - SwiftEmit.DescriptionOf reads a non-empty `description` that is not a string as empty, where `re.sub` raises.
- Classify.Compare: states `added_members` and `removed_members` by their elements and their count, not their order. The retyped pairs come in the set-iteration order of Python, which is not deterministic. The sorted order of the type-name lists is stated.
- SwiftEmit.GenerateEnum: requires every enum value to be a string. `value.lower()` raises on any other value.
- SwiftEmit.GenerateModels: requires the same of every string-enum schema, for the same reason.
- SwiftTypes.AlwaysEquatable: assumes that no `$ref` text holds a colon; it is weaker than "always `Codable, Equatable`". That stronger claim is false as coded: a `$ref` of `#/components/schemas/[String: Any]` makes the class name `Generated[String: Any]`, so the struct conforms to `Codable` only. SwiftEmit.StructEquatable has the same assumption.
- SwiftEmit.OptionalIffNotRequired: assumes that no `$ref` text holds `?`. A class name taken from such a reference could end in `?` on its own.
- SwiftNames.SwiftClassName: returns the literal `GeneratedExpiresAfter` for `expires_after`, as coded. That this agrees with the general conversion is proved only for `error` (`SwiftNames.ErrorAgrees`).
- The parse-after-generate round trip. The model does not prove that `parse_models` recovers what `generate_models` emitted, and has no lemma about descriptions or raw values that contain braces.
- Property order in a snapshot. `parse_models` keeps properties in a dictionary, and the model keeps a map. `compare` only uses keys and values.
