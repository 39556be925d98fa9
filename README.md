# node-cql-builder, modelled in Dafny

node-cql-builder builds CQL (Cassandra Query Language) statements out of typed
JavaScript values. It has three layers, and each is modelled here:

- **Type combinators** (`lib/type.js`). `type(name, spec)` declares a record type with named
  fields, each passed through a validator or a declared type. `primitive`,
  `literal`, `union` and `collection` make the other kinds of type. Every
  type's instances render through `toString`, either by a format template
  `"... {{field}} ... {{?field}}...{{?}}"` or by a format function.
- **Symbols and statements** (`lib/symbols.js`, `lib/statements.js`). These declare identifiers,
  table names, constants, literals, CQL native and collection types, and
  the DDL/DML statements (CREATE/ALTER/DROP KEYSPACE and TABLE, TRUNCATE,
  CREATE/DROP INDEX, INSERT), all with those combinators.
- **Fluent builders** (`lib/builder.js`). `builderFromType(t)` gives a builder whose accessors set
  or descend into fields (or append elements of a collection), and whose
  `build`/`toString` turn the whole tree of nested builders into an instance
  and its CQL text.
- **Helpers** (`lib/util.js`): `extend` and `identity`.

The Dafny modules follow the files:

| module | file | form |
|---|---|---|
| `Wrappers` | — | `Option`, `Result` |
| `SymbolText` | `symbol_text.dfy` | quoting and the number/UUID patterns of `lib/symbols.js`, as predicates over characters |
| `Types` | `types.dfy` | JavaScript values, types, and the constructors and `toString` of `lib/type.js` as functions; the loops of the constructors as methods proved equal to them |
| `TypeLaws` | `type_laws.dfy` | what the combinators promise: arity, wrapping of bare values, field checks, union dispatch order, collection element mapping, template rendering |
| `Symbols` | `symbols.dfy` | the declarations of `lib/symbols.js` and what each accepts and renders |
| `Statements` | `statements.dfy` | the declarations of `lib/statements.js` and the CQL text of each statement |
| `Builders` | `builder.dfy` | class `Builder`: a mutable tree of builders, its accessors, and `build` |
| `Util` | `util.dfy` | `identity`; `extend` as a method on a mutable object |

Here is how JavaScript is represented:

- **Values.** A JavaScript value is the datatype `Types.Value`:
  - strings;
  - numbers, kept as their `String(n)` text;
  - booleans, `null` and `undefined`;
  - plain objects, as entry lists in `for…in` order;
  - arrays;
  - record, literal and collection instances.
- **Type identity.** Types are compared structurally, so `instanceof` is equality of the instance's type.
- **Errors.** A thrown error is the `Failure` of a `Result`, with an `Err` value naming its kind.
- **Templates** are pre-parsed into segments: text, a substitution, or a conditional block.
- **Format functions.** The three custom format functions of `lib/symbols.js` are named format kinds, interpreted in `Types.RenderRecord`.

## Model

| member | source | states |
|---|---|---|
| SymbolText.Double | lib/symbols.js:14 | doubling a quote character never shortens a text, and leaves a text without that character unchanged |
| SymbolText.DoubleAppend | lib/symbols.js:14 | the global replace doubles quotes piecewise: doubling a concatenation is the concatenation of the doubled parts |
| SymbolText.Quote | lib/symbols.js:36 | a quoted text starts and ends with the quote character |
| SymbolText.QuoteOneInner | lib/symbols.js:36 | quoting a text with one inner quote doubles exactly that quote and wraps the text in quotes |
| SymbolText.UndoubleDouble | lib/symbols.js:14 | undoubling inverts the doubling: the original text comes back |
| SymbolText.UnquoteQuote | lib/symbols.js:36 | quoting loses nothing: unquoting a quoted text gives back the text |
| SymbolText.QuoteInjective | lib/symbols.js:36 | two different texts never quote to the same literal |
| SymbolText.IntTextIsNotFloat | lib/symbols.js:47-62 | no text matches both the integer pattern and the float pattern |
| SymbolText.UuidIsNotNumber | lib/symbols.js:47-77 | a UUID text matches neither number pattern |
| SymbolText.NatText | lib/symbols.js:47-49 | the decimal numeral of a natural number is non-empty and all digits |
| SymbolText.IntTextAccepted | lib/symbols.js:47 | the numeral of every integer, negative ones included, passes the IntConst pattern |
| Types.FieldIndex | lib/type.js:127-132 | the index of the first declared field with the key, or -1 exactly when no field has it |
| Types.Instantiate | lib/type.js:66-118 | calling a type returns what `Construct` specifies: the instance, or the error thrown |
| Types.Populate | lib/type.js:114-117 | the `for…in` loop of the record constructor stores what `SetAll` specifies, stopping at the first error |
| Types.Set | lib/type.js:125-135 | `set` throws for an undeclared key; otherwise it stores the value, unchanged if already an instance and coerced if not |
| Types.Dispatch | lib/type.js:221-247 | the union constructor returns an argument that is already a candidate's instance; otherwise it returns the first candidate that does not throw, or throws NoMatch |
| Types.MapElements | lib/type.js:298-310 | the collection constructor's `map` stores what `CoerceAll` specifies, element by element |
| TypeLaws.HasOwnObject | lib/type.js:100 | `hasOwnProperty` on a plain object holds exactly for its keys |
| TypeLaws.BareValueWrapped | lib/type.js:97-107 | a single-field record given a non-object, or an object without that field, behaves as if given `{field: value}` and stores the coerced value |
| TypeLaws.NonObjectRejected | lib/type.js:109-112 | a record with several fields rejects every non-object argument with the object error |
| TypeLaws.SetAllSucceeds | lib/type.js:114-117 | construction from an object succeeds exactly when every entry's key is a field and its value is accepted |
| TypeLaws.UnknownKeyRejected | lib/type.js:129-132 | one key that names no declared field makes construction throw |
| TypeLaws.SetAllStores | lib/type.js:114-134 | the instance has exactly the keys given, and each key holds what `set` made of its last value |
| TypeLaws.StoredFields | lib/type.js:94-117 | a record built from an object holds exactly that object's keys, each coerced by its field |
| TypeLaws.RecordInstance | lib/type.js:66-118 | a record constructor that returns makes an instance of its own type |
| TypeLaws.SetAllSameFields | lib/type.js:125-135 | filling an instance depends only on the declared fields, not on the type's name or format |
| TypeLaws.ConstructSameFields | lib/type.js:66-118 | two records declaring the same fields accept the same arguments and store the same slots |
| TypeLaws.EvaluateAppend | lib/type.js:4-20 | a template renders piecewise: the two halves in order, the first error winning |
| TypeLaws.ConditionalBlock | lib/type.js:4-20 | a `{{?f}}…{{?}}` block renders its body exactly when field f is truthy, and nothing otherwise |
| TypeLaws.EvaluateFilled | lib/type.js:4-20 | a template whose names are all declared renders as the reference rendering `Filled` once every set field renders |
| TypeLaws.PieceFilled | lib/type.js:4-20 | one segment whose names are declared renders as its reference rendering |
| TypeLaws.FilledSnoc | lib/type.js:4-20 | the reference rendering goes left to right, one segment after another |
| TypeLaws.TemplateRendering | lib/type.js:165-175 | a record with a template renders the reference rendering of its fields' texts, with "undefined" for unset fields |
| TypeLaws.UnboundNameThrows | lib/type.js:4-20 | a substitution naming no declared field throws a ReferenceError, whatever the instance holds |
| TypeLaws.PrimitiveCheck | lib/type.js:188-203 | `primitive(String)`, `primitive(Number)` and `primitive(Boolean)` each return exactly the values of their kind unchanged; null, undefined, objects and the other kinds make them throw |
| TypeLaws.PlainRoundTrip | lib/type.js:97-107 | a one-field record without a format, built from a string its field keeps, holds that string and renders back exactly that string (the default `toString` of lib/type.js:180-181) |
| TypeLaws.TryCandidatesFirst | lib/type.js:236-246 | trying candidates in order yields r exactly when the first candidate that accepts yields r; failure is NoMatch |
| TypeLaws.UnionDispatch | lib/type.js:221-247 | one argument that is a candidate's instance is returned; otherwise the result is the first accepting candidate's, and the union throws exactly when every candidate throws |
| TypeLaws.RecordUnionChoice | lib/type.js:236-244 | a union of records returns an instance of the first candidate that accepts |
| TypeLaws.FirstCandidateWins | lib/type.js:236-244 | whenever the first candidate accepts, the union returns its result |
| TypeLaws.FieldlessNeverChosen | lib/type.js:84-92 | a candidate record without fields is never constructed by a union; it is only returned when passed in |
| TypeLaws.ShadowedNeverChosen | lib/type.js:236-244 | of two candidate records with the same fields, the later one is never constructed |
| TypeLaws.FirstExists | lib/type.js:236-244 | if some candidate accepts the arguments, there is a first one that does |
| TypeLaws.CandidateByName | lib/type.js:252-255 | a candidate whose name is unique is reachable on the union under that name |
| TypeLaws.NamedAt | lib/type.js:252-255 | among several candidates sharing a name, the last assigned one is exposed |
| TypeLaws.CollectionElements | lib/type.js:302-310 | a collection holds one element per argument, in order, each kept if a child instance and constructed otherwise; it succeeds exactly when every element does |
| TypeLaws.JoinSucceeds | lib/type.js:322 | joining texts that all render gives the texts joined by the delimiter |
| TypeLaws.CollectionRendering | lib/type.js:320-323 | a collection renders its opening bracket, its elements joined by its delimiter, and its closing bracket |
| Symbols.IdentifierQuoted | lib/symbols.js:3-16 | an Identifier stores its string and renders it in double quotes with inner quotes doubled ('' when empty); unquoting gives back the name |
| Symbols.IdentifierRejects | lib/symbols.js:3-5 | Identifier rejects every non-string except an object with its own `value`: null, undefined, numbers, booleans, arrays and objects without `value` |
| Symbols.IdentifierEscapesQuote | lib/symbols.js:14 | a '"' inside an identifier renders doubled |
| Symbols.TableNameQualified | lib/symbols.js:18-22 | `{keyspace, table}` strings make a TableName holding two Identifiers |
| Symbols.TableNameQualifiedText | lib/symbols.js:23-27 | a qualified table renders `"k"."t"`, and only `"t"` when k is empty |
| Symbols.TableNameUnqualified | lib/symbols.js:18-22 | `{table}` alone makes a TableName holding only the table Identifier |
| Symbols.TableNameUnqualifiedText | lib/symbols.js:25-26 | a table name without a keyspace renders as the table identifier alone |
| Symbols.StringConstQuoted | lib/symbols.js:30-38 | among all values except objects with their own `value`, StringConst accepts exactly the strings, and renders them in single quotes with inner quotes doubled |
| Symbols.StringConstEscapesQuote | lib/symbols.js:36 | a single quote inside a string constant renders doubled |
| Symbols.IntConstAccepts | lib/symbols.js:41-54 | IntConst accepts a string or number exactly when its text matches `-?digits`, and stores and renders that text |
| Symbols.IntConstRejectsFloat | lib/symbols.js:47 | IntConst rejects float texts |
| Symbols.FloatConstAccepts | lib/symbols.js:56-69 | FloatConst accepts a string or number exactly when its text matches the float pattern, and stores and renders that text |
| Symbols.FloatConstExamples | lib/symbols.js:62 | the number 10 is rejected (no '.'), and 42.2344234 is accepted |
| Symbols.UUIDConstAccepts | lib/symbols.js:73-84 | among all values except objects with their own `value`, UUIDConst accepts exactly the strings in the 8-4-4-4-12 hex layout, in either case |
| Symbols.NumberConstOrder | lib/symbols.js:71 | a NumberConst is an IntConst for an integer text, a FloatConst for a float text, and fails otherwise |
| Symbols.FinalTermOrder | lib/symbols.js:96 | for every string: an integer text becomes an IntConst, a float text a FloatConst, a UUID text a UUIDConst, each rendering the text unquoted; any other string becomes a StringConst rendered quoted |
| Symbols.FinalTermNumber | lib/symbols.js:96 | a number text is taken by NumberConst, the first candidate |
| Symbols.FinalTermUuid | lib/symbols.js:96 | a UUID text fails NumberConst and is taken by UUIDConst, ahead of StringConst |
| Symbols.FinalTermString | lib/symbols.js:96 | a string that is no number and no UUID is taken by StringConst |
| Symbols.FinalTermBoolean | lib/symbols.js:96 | a boolean fails the number, UUID and string candidates and becomes a BooleanConst rendered `true` or `false` |
| Symbols.NumberConstRejectsBoolean | lib/symbols.js:71 | NumberConst throws NoMatch for a boolean |
| Symbols.LiteralsTried | lib/symbols.js:126-143 | a union of literals accepts exactly its listed strings, each as itself, and throws NoMatch otherwise |
| Symbols.NativeTypeNames16 | lib/symbols.js:126-143 | NativeType accepts exactly the sixteen type names and renders each unchanged |
| Symbols.CollectionLiteralBrackets | lib/symbols.js:108-109 | map and set literals render their elements joined by ", " inside braces |
| Symbols.ListAndPropertiesText | lib/symbols.js:110-124 | list literals render inside brackets; Properties join with " AND " and no brackets |
| Statements.CreateKeyspaceText | lib/statements.js:5-11 | `CREATE KEYSPACE <keyspace> WITH <options>` |
| Statements.AlterKeyspaceText | lib/statements.js:21-27 | `ALTER KEYSPACE <keyspace> WITH <options>` |
| Statements.UseText | lib/statements.js:14-18 | `USE <keyspace>` |
| Statements.DropKeyspaceText | lib/statements.js:30-34 | `DROP KEYSPACE <keyspace>` |
| Statements.KeyColumnsText | lib/statements.js:38-39 | a partition key renders its identifiers in parentheses; cluster keys render them without |
| Statements.PrimaryKeyText | lib/statements.js:41-47 | `PRIMARY KEY (<partitionKey>, <clusterKeys>)` |
| Statements.ColumnDefinitionText | lib/statements.js:52-58 | `<name> <type>` |
| Statements.CreateTableText | lib/statements.js:78-86 | `CREATE TABLE <table> (<columns>, <primaryKey>)`, then ` WITH <options>` exactly when options is truthy |
| Statements.CreateTableFilled | lib/statements.js:85 | the CREATE TABLE template's reference rendering, segment by segment |
| Statements.AlterTableText | lib/statements.js:112-125 | `ALTER TABLE <table> <instruction>` and `DROP TABLE <table>` |
| Statements.AlterInstructionAlterText | lib/statements.js:88-94 | `ALTER <column> TYPE <type>` |
| Statements.AlterInstructionAddText | lib/statements.js:96-102 | `ADD <column> <type>` |
| Statements.AlterInstructionWithText | lib/statements.js:104-108 | `WITH <spec>` |
| Statements.CreateIndexText | lib/statements.js:133-140 | `CREATE INDEX [<index> ]ON <table> (<column>)`, the index name only when set |
| Statements.DropIndexText | lib/statements.js:142-146 | `DROP INDEX <index>` |
| Statements.ClusteringOrderNeverBuilt | lib/statements.js:60-63 | ClusteringOrder declares no fields, so its constructor throws for every argument list |
| Statements.OptionNeverClusteringOrder | lib/statements.js:71 | the Option union never constructs a ClusteringOrder; one is only returned when passed in |
| Statements.CompactStorageLiteral | lib/statements.js:65-71 | given one value without an own `value` key, CompactStorage accepts exactly the string "CompactStorage" and the literal instance `CompactStorage`, and rejects every other value, arrays and objects included; for the string, the Option union picks it first, and it renders that string |
| Statements.AlterShadowsAdd | lib/statements.js:110 | the instruction union never constructs an ADD instruction, because ALTER declares the same fields and comes first |
| Statements.AlterChosenOverAdd | lib/statements.js:88-110 | arguments that the ADD instruction accepts make an ALTER instruction |
| Statements.WriteOptionTimestamp | lib/statements.js:148-160 | a bare integer text becomes a WriteTimestamp, the first candidate |
| Statements.WriteOptionTTL | lib/statements.js:148-160 | `{ttl: n}` fails as a timestamp and becomes a WriteTTL |
| Statements.WriteTTLBuilt | lib/statements.js:154-158 | the WriteTTL built from `{ttl: n}` holds n as an IntConst |
| Statements.WriteTimestampText | lib/statements.js:148-152 | `TIMESTAMP <n>` |
| Statements.WriteTTLText | lib/statements.js:154-158 | `TTL <n>` |
| Statements.TruncateAsWrittenThrows | lib/statements.js:127-131 | Truncate as declared throws a ReferenceError for `tablename` whenever it renders |
| Statements.TruncateText | lib/statements.js:127-131 | Truncate with the declared field in its template renders `TRUNCATE <table>` |
| Statements.InsertAsWrittenThrows | lib/statements.js:164-172 | Insert as declared never renders; once the table renders, it throws a ReferenceError for `columns` |
| Statements.ColumnsUnbound | lib/statements.js:171 | the declared INSERT template renders the table, then throws at `columns` |
| Statements.InsertText | lib/statements.js:164-172 | Insert with the declared field in its template renders `INSERT INTO <table> (<column>) VALUES (<values>)`, then ` USING <options>` exactly when options is truthy |
| Statements.InsertFilled | lib/statements.js:171 | the corrected INSERT template's reference rendering, segment by segment |
| Builders.FieldLower | lib/builder.js:147-151 | a nested builder targets a field type strictly lower than its parent's, so builder trees are finite |
| Builders.Builder.constructor | lib/builder.js:23-45 | a fresh builder for a target holds nothing and is well formed |
| Builders.Builder.Field | lib/builder.js:153-172 | with no arguments the accessor descends into the field; with arguments it sets the field from the first; every well-formed builder stays well formed |
| Builders.Builder.Descend | lib/builder.js:155-169 | an existing nested builder is returned unchanged; otherwise a fresh empty one whose `end()` is this builder replaces the slot |
| Builders.Builder.Set | lib/builder.js:100-108 | the coerced value is stored in the slot and the builder returned; when the coercion throws, nothing changes |
| Builders.Builder.Append | lib/builder.js:186-211 | with arguments, the child type's instance is appended (nothing changes when it throws); without, a fresh child builder whose `end()` is this builder is appended and returned |
| Builders.Builder.End | lib/builder.js:162-165 | `end()` returns the builder that created this one |
| Builders.Builder.ToString | lib/builder.js:91-95 | the built instance rendered, or the error building or rendering throws |
| Builders.Builder.Tap | lib/builder.js:70-79 | `tap()` with its default callback returns the builder itself, and throws exactly when building or rendering it throws |
| Builders.Builder.Build | lib/builder.js:226-253 | returns exactly what `Built` specifies: nested builders built first, then the type called on the record's object or the collection's array |
| Builders.Written | lib/builder.js:105 | after a field is written it is among the enumerated properties, and no earlier property is lost |
| Builders.Finalise | lib/builder.js:232-247 | each slot becomes its value or its nested builder's instance, in order, and the first error is thrown |
| Builders.AllThrow | lib/builder.js:232-247 | finalising throws exactly when one of the nested builders throws |
| Builders.AllBuilt | lib/builder.js:232-247 | the finalised values come in slot order, each what its slot builds to |
| Builders.BuiltInOrder | lib/builder.js:232-247 | after finalising all slots, each position holds what that slot builds to |
| Builders.RecordBuildThrows | lib/builder.js:238-249 | a nested builder that throws makes the record builder's build throw |
| Builders.RecordBuild | lib/builder.js:238-252 | a record builder's build passes the type one object whose keys are the written fields in first-written order, each holding what its slot builds to |
| Builders.RecordFinalised | lib/builder.js:238-252 | the same, with the finalised values named |
| Builders.CollectionBuildThrows | lib/builder.js:230-236 | a nested builder that throws makes the collection builder's build throw |
| Builders.CollectionBuild | lib/builder.js:230-252 | a collection builder's build calls the type on one array of the built elements, in order |
| Builders.ConstructInstance | lib/type.js:66-118 | what a record, literal or collection type returns is an instance of that type |
| Builders.TransformSettles | lib/builder.js:104 | a value the setter stored passes through the field's type again unchanged |
| Builders.InstancesKept | lib/type.js:298-310 | a collection called on an array of child instances holds exactly those instances |
| Builders.CollectionRebuilt | lib/builder.js:230-252 | a collection builder of stored child instances builds the collection of exactly those instances |
| Builders.EntriesKept | lib/type.js:94-117 | a record called on an object with distinct keys whose values its fields keep holds exactly those values |
| Builders.RecordRebuilt | lib/builder.js:238-252 | a record builder whose stored values its fields keep builds the record holding exactly those values |
| Builders.StoredEntries | lib/builder.js:238-249 | a record builder of stored values passes the type the object of those values in written order |
| Builders.SlotsKept | lib/builder.js:238-252 | the record the type makes of the builder's entries holds exactly the slots' values |
| Builders.OrderedKept | lib/type.js:94-117 | a record called on entries listed once each, in any order, holds exactly their values |
| Builders.OrderedEntries | lib/type.js:94-117 | entries listed once each have distinct keys, each holding a value its field keeps |
| Util.Identity | lib/util.js:23-26 | `identity` returns its argument |
| Util.Lookup | lib/util.js:11 | a property is absent exactly when no entry has its key; a found value belongs to an entry with that key |
| Util.Extend | lib/util.js:3-16 | `extend` returns its first argument, whose properties become those of the sources assigned in turn; with no sources it is unchanged |
| Util.PutLookup | lib/util.js:11 | after `a[k] = v`, k holds v and every other property keeps its value |
| Util.LookupLast | lib/util.js:11 | when every entry for k holds v, k holds v or is absent |
| Util.RenamedLookup | lib/util.js:11 | replacing the value of k in place leaves every other property's value alone |
| Util.AssignLookup | lib/util.js:9-12 | after one source is copied, its properties hold its values and the others keep theirs |
| Util.MergeLookup | lib/util.js:7-13 | after `extend`, a property holds the value of the last source that has it; a property no source has keeps its value |
| Util.LaterOverrides | lib/util.js:7-13 | a later source overrides every earlier one |
| Util.LastFound | lib/util.js:7-13 | the value found is that of the last source having the key |
| Util.UntouchedKept | lib/util.js:7-13 | a property that no source has keeps the target's value |
| Util.NoneFound | lib/util.js:7-13 | when no source has the key, none is found |
| Util.MergeKeepsOrder | lib/util.js:7-13 | `extend` never moves a property: the target's properties keep their places, and new ones come after |
| Util.AssignKeepsOrder | lib/util.js:9-12 | copying one source keeps the target's properties in their places |

## Left out

- **Template compilation.** `template` (lib/type.js:4-20) compiles a format through doT. Here templates are given already parsed into text, substitutions and conditional blocks. A substitution renders `String(this[f])`, and a name that is not an argument of the compiled function throws a ReferenceError.
- **`inspect`.** `inspect` on types, instances, builders and setters (lib/type.js:140-159, lib/builder.js:8-16, 81-89, 110-113, 174-177, 221-224) only builds debugging text.
- **`tap` with a callback.** `tap(fn)` (lib/builder.js:70-79) calls an arbitrary callback. Only the default callback is modelled, as `Builders.Builder.Tap`; its console output is left out.
- **Unused helpers.** `pusher` and `proxy` (lib/builder.js:118-140) are never called.
- **Anonymous-name counter.** The global counter behind `anonName` (lib/type.js:29-35) is left out. The anonymous union in lib/statements.js:110 is named by its candidates without the counter suffix, and the anonymous collections of Insert are named "anonymous".
- **Float-to-text.** A number is modelled by its `String(n)` text. JavaScript's float-to-text conversion and numeric precision are not modelled.
- **Shared collection state.** A collection type keeps its elements in one variable, `vals`, shared by all its instances (lib/type.js:289, 302). So a later instance changes how an earlier one renders. The model keeps the elements in each instance, as the rendering evidently intends.
- **One-argument `collection(child)`.** This form (lib/type.js:281-287) shifts its arguments so that the child type also becomes `surrounds` and `delim`. Insert's fields are modelled with the defaults the shift was meant to reach: no brackets and ", ".
- **Key enumeration order.** `for…in` visits integer-like keys first, in ascending order. The model enumerates a plain object in its entry order, and CQL field names are never integer-like.
- Types.Enumerate: an instance's own properties are enumerated in declaration order (`OwnSlots`). `for…in` (lib/type.js:114) visits them in the order `set` assigned them, which is the order of the keys of the object the instance was built from. The order matters only when an instance of one record type is passed to another record constructor: it can change which error that constructor throws.
- Types.FieldIndex: only declared fields are found. The source looks keys up in the plain object `fields` (lib/type.js:50, 127-129), which also inherits the members of `Object.prototype`. A key `constructor` is coerced through `Object` instead of being rejected, and keys such as `toString` or `hasOwnProperty` throw a TypeError from `instanceof` rather than "Field … not found". Inherited members are not modelled.
- TypeLaws.UnknownKeyRejected: holds in the source for every key except the members inherited from `Object.prototype` (see `Types.FieldIndex`).
- TypeLaws.SetAllSucceeds: holds in the source for entry lists without keys inherited from `Object.prototype` (see `Types.FieldIndex`).
- **`isArgs`, `util` re-export, `new`-wrapping.** `isArgs` (lib/util.js:18-21), the re-export of Node's `util` (lib/util.js:28) and the `new ctor(arguments)` wrapping (lib/type.js:70-76, lib/builder.js:29-34) are left out. A type is modelled as called on its argument list directly.
- **`spec.constructor` generality.** Only the constructors the library itself declares are modelled: union, literal and collection, plus the generic builder `ctor` (lib/builder.js:36-44), whose spec never defines one.
- **Empty builder spec.** `__build`'s "must create build method" error (lib/builder.js:62-65) cannot happen, because every builder spec has `build`.
- Util.Extend: sources are passed as values, so a source that is the target object itself (aliasing) is not modelled.
- Builders.TransformSettles: proved only for coercions without nested unions (`Flat`). A union candidate that is itself a union could return an instance of a third type.
- Builders.RecordRebuilt: requires the record to declare several fields or at least one slot to be set. A single-field record given `{}` wraps it as a bare value (lib/type.js:97-107).

## Findings

| source | as written | input that shows it | evidently intended | confidence | as-written member | corrected member |
|---|---|---|---|---|---|---|
| lib/statements.js:130 | Truncate's template substitutes `{{tablename}}`, but the type declares only `table` | any Truncate instance, e.g. `Truncate({table: {table: 'users'}}).toString()` | `TRUNCATE <table>` | not executed | Statements.TruncateAsWrittenThrows | Statements.TruncateText |
| lib/statements.js:171 | Insert's template substitutes `{{columns}}`, but the field is declared as `column` (line 167) | any Insert instance whose table renders, e.g. one with only `table` set | `INSERT INTO <table> (<column>) VALUES (<values>)` | not executed | Statements.InsertAsWrittenThrows | Statements.InsertText |
