/**
 * The statement types of lib/statements.js, declared with the combinators of
 * module Types over the symbols of module Symbols, and what each renders.
 *
 * Two declared formats name a field the type does not have (Truncate's
 * `{{tablename}}`, Insert's `{{columns}}`); both are kept as written
 * (TruncateAsWritten, InsertAsWritten) next to the corrected declarations
 * Truncate and Insert, which name the declared fields.
 *
 * Insert's three fields use anonymous collections `collection(child)`. In
 * lib/type.js that one-argument form shifts its arguments and ends up with
 * the child type as the surrounds and as the delimiter; the declarations
 * here take the defaults the shift was evidently meant to reach (no
 * brackets, ', ').
 */
module Statements {
  import opened Wrappers
  import opened Types
  import opened Symbols
  import opened TypeLaws
  import opened SymbolText

  const CreateKeyspace: Ty :=
    Record("CreateKeyspace", [Field("keyspace", Of(Identifier)), Field("options", Of(Properties))],
           Template([Text("CREATE KEYSPACE "), Hole("keyspace"), Text(" WITH "), Hole("options")]))

  const Use: Ty := Record("Use", [Field("keyspace", Of(Identifier))], Template([Text("USE "), Hole("keyspace")]))

  const AlterKeyspace: Ty :=
    Record("AlterKeyspace", [Field("keyspace", Of(Identifier)), Field("options", Of(Properties))],
           Template([Text("ALTER KEYSPACE "), Hole("keyspace"), Text(" WITH "), Hole("options")]))

  const DropKeyspace: Ty := Record("DropKeyspace", [Field("keyspace", Of(Identifier))], Template([Text("DROP KEYSPACE "), Hole("keyspace")]))

  const PartitionKey: Ty := Collection("PartitionKey", Identifier, "()", ", ")

  const ClusterKeys: Ty := Collection("ClusterKeys", Identifier, "", ", ")

  const PrimaryKey: Ty :=
    Record("PrimaryKey", [Field("partitionKey", Of(PartitionKey)), Field("clusterKeys", Of(ClusterKeys))],
           Template([Text("PRIMARY KEY ("), Hole("partitionKey"), Text(", "), Hole("clusterKeys"), Text(")")]))

  const ColumnDefinition: Ty :=
    Record("ColumnDefinition", [Field("name", Of(Identifier)), Field("type", Of(TypeUnion))],
           Template([Hole("name"), Text(" "), Hole("type")]))

  /** Declares no field and no constructor. */
  const ClusteringOrder: Ty := Record("ClusteringOrder", [], Template([Text("CLUSTERING ORDER BY ()")]))

  const CompactStorage: Ty := Record("CompactStorage", [Field("value", Of(Literal("CompactStorage")))], Plain)

  /** The union exported as `Option`. */
  const OptionUnion: Ty := Union("Option", [CompactStorage, ClusteringOrder, Property])

  const ColumnDefinitions: Ty := Collection("ColumnDefinitions", ColumnDefinition, "", ", ")

  const Options: Ty := Collection("Options", OptionUnion, "", " AND ")

  const CreateTable: Ty :=
    Record("CreateTable",
           [Field("table", Of(TableName)), Field("primaryKey", Of(PrimaryKey)),
            Field("columns", Of(ColumnDefinitions)), Field("options", Of(Options))],
           Template([Text("CREATE TABLE "), Hole("table"), Text(" ("), Hole("columns"), Text(", "), Hole("primaryKey"), Text(")"),
                     When("options", [Text(" WITH "), Hole("options")])]))

  const AlterInstructionAlter: Ty :=
    Record("AlterInstructionAlter", [Field("column", Of(Identifier)), Field("type", Of(TypeUnion))],
           Template([Text("ALTER "), Hole("column"), Text(" TYPE "), Hole("type")]))

  const AlterInstructionAdd: Ty :=
    Record("AlterInstructionAdd", [Field("column", Of(Identifier)), Field("type", Of(TypeUnion))],
           Template([Text("ADD "), Hole("column"), Text(" "), Hole("type")]))

  const AlterInstructionWith: Ty :=
    Record("AlterInstructionWith", [Field("spec", Of(ColumnDefinitions))], Template([Text("WITH "), Hole("spec")]))

  /** An anonymous union: its name lists the candidates' names. */
  const AlterInstruction: Ty :=
    Union("union(AlterInstructionAlter|AlterInstructionAdd|AlterInstructionWith)",
          [AlterInstructionAlter, AlterInstructionAdd, AlterInstructionWith])

  const AlterTable: Ty :=
    Record("AlterTable", [Field("table", Of(TableName)), Field("instruction", Of(AlterInstruction))],
           Template([Text("ALTER TABLE "), Hole("table"), Text(" "), Hole("instruction")]))

  const DropTable: Ty := Record("DropTable", [Field("table", Of(TableName))], Template([Text("DROP TABLE "), Hole("table")]))

  /** Truncate as declared: its format names `tablename`, which is not a field. */
  const TruncateAsWritten: Ty := Record("Truncate", [Field("table", Of(TableName))], Template([Text("TRUNCATE "), Hole("tablename")]))

  /** Truncate with its format naming the declared field `table`. */
  const Truncate: Ty := Record("Truncate", [Field("table", Of(TableName))], Template([Text("TRUNCATE "), Hole("table")]))

  const CreateIndex: Ty :=
    Record("CreateIndex", [Field("index", Of(Identifier)), Field("table", Of(TableName)), Field("column", Of(Identifier))],
           Template([Text("CREATE INDEX "), When("index", [Hole("index"), Text(" ")]),
                     Text("ON "), Hole("table"), Text(" ("), Hole("column"), Text(")")]))

  const DropIndex: Ty := Record("DropIndex", [Field("index", Of(Identifier))], Template([Text("DROP INDEX "), Hole("index")]))

  const WriteTimestamp: Ty := Record("WriteTimestamp", [Field("timestamp", Of(IntConst))], Template([Text("TIMESTAMP "), Hole("timestamp")]))

  const WriteTTL: Ty := Record("WriteTTL", [Field("ttl", Of(IntConst))], Template([Text("TTL "), Hole("ttl")]))

  const WriteOption: Ty := Union("WriteOption", [WriteTimestamp, WriteTTL])

  const TermOrLiteral: Ty := Union("TermOrLiteral", [Term, CollectionLiteral])

  const Columns: Ty := Collection("Columns", Identifier, "", ", ")

  /** The fields of Insert, each an anonymous collection. */
  const InsertFields: seq<Field> :=
    [Field("table", Of(TableName)),
     Field("column", Of(Collection("anonymous", Identifier, "", ", "))),
     Field("values", Of(Collection("anonymous", TermOrLiteral, "", ", "))),
     Field("options", Of(Collection("anonymous", WriteOption, "", ", ")))]

  /** Insert as declared: its format names `columns`, while the field is `column`. */
  const InsertAsWritten: Ty :=
    Record("Insert", InsertFields,
           Template([Text("INSERT INTO "), Hole("table"), Text(" ("), Hole("columns"), Text(") VALUES ("), Hole("values"), Text(")"),
                     When("options", [Text(" USING "), Hole("options")])]))

  /** Insert with its format naming the declared field `column`. */
  const Insert: Ty :=
    Record("Insert", InsertFields,
           Template([Text("INSERT INTO "), Hole("table"), Text(" ("), Hole("column"), Text(") VALUES ("), Hole("values"), Text(")"),
                     When("options", [Text(" USING "), Hole("options")])]))

  /** The texts of the fields an instance holds, when each of them renders. */
  predicate Renders(slots: map<string, Value>, strs: map<string, string>) {
    slots.Keys == strs.Keys && forall f | f in slots :: ToStr(slots[f]) == Success(strs[f])
  }

  // ---------------------------------------------------------------------
  // Formats of two to eight segments, piece by piece
  // ---------------------------------------------------------------------

  function P(s: Segment, slots: map<string, Value>, strs: map<string, string>): string {
    FilledPiece(s, slots, strs)
  }

  lemma Pieces2(a: Segment, b: Segment, slots: map<string, Value>, strs: map<string, string>)
    ensures Filled([a, b], slots, strs) == P(a, slots, strs) + P(b, slots, strs)
  {
    FilledSnoc([a], b, slots, strs);
    assert [a] + [b] == [a, b];
  }

  lemma Pieces3(a: Segment, b: Segment, c: Segment, slots: map<string, Value>, strs: map<string, string>)
    ensures Filled([a, b, c], slots, strs) == P(a, slots, strs) + P(b, slots, strs) + P(c, slots, strs)
  {
    Pieces2(a, b, slots, strs);
    FilledSnoc([a, b], c, slots, strs);
    assert [a, b] + [c] == [a, b, c];
  }

  lemma Pieces4(a: Segment, b: Segment, c: Segment, d: Segment, slots: map<string, Value>, strs: map<string, string>)
    ensures Filled([a, b, c, d], slots, strs) == P(a, slots, strs) + P(b, slots, strs) + P(c, slots, strs) + P(d, slots, strs)
  {
    Pieces3(a, b, c, slots, strs);
    FilledSnoc([a, b, c], d, slots, strs);
    assert [a, b, c] + [d] == [a, b, c, d];
  }

  lemma Pieces5(a: Segment, b: Segment, c: Segment, d: Segment, e: Segment, slots: map<string, Value>, strs: map<string, string>)
    ensures Filled([a, b, c, d, e], slots, strs) ==
      P(a, slots, strs) + P(b, slots, strs) + P(c, slots, strs) + P(d, slots, strs) + P(e, slots, strs)
  {
    Pieces4(a, b, c, d, slots, strs);
    FilledSnoc([a, b, c, d], e, slots, strs);
    assert [a, b, c, d] + [e] == [a, b, c, d, e];
  }

  lemma Pieces6(a: Segment, b: Segment, c: Segment, d: Segment, e: Segment, f: Segment,
                slots: map<string, Value>, strs: map<string, string>)
    ensures Filled([a, b, c, d, e, f], slots, strs) ==
      P(a, slots, strs) + P(b, slots, strs) + P(c, slots, strs) + P(d, slots, strs) + P(e, slots, strs) + P(f, slots, strs)
  {
    Pieces5(a, b, c, d, e, slots, strs);
    FilledSnoc([a, b, c, d, e], f, slots, strs);
    assert [a, b, c, d, e] + [f] == [a, b, c, d, e, f];
  }

  lemma Pieces7(a: Segment, b: Segment, c: Segment, d: Segment, e: Segment, f: Segment, g: Segment,
                slots: map<string, Value>, strs: map<string, string>)
    ensures Filled([a, b, c, d, e, f, g], slots, strs) ==
      P(a, slots, strs) + P(b, slots, strs) + P(c, slots, strs) + P(d, slots, strs) + P(e, slots, strs) + P(f, slots, strs) +
      P(g, slots, strs)
  {
    Pieces6(a, b, c, d, e, f, slots, strs);
    FilledSnoc([a, b, c, d, e, f], g, slots, strs);
    assert [a, b, c, d, e, f] + [g] == [a, b, c, d, e, f, g];
  }

  lemma Pieces8(a: Segment, b: Segment, c: Segment, d: Segment, e: Segment, f: Segment, g: Segment, h: Segment,
                slots: map<string, Value>, strs: map<string, string>)
    ensures Filled([a, b, c, d, e, f, g, h], slots, strs) ==
      P(a, slots, strs) + P(b, slots, strs) + P(c, slots, strs) + P(d, slots, strs) + P(e, slots, strs) + P(f, slots, strs) +
      P(g, slots, strs) + P(h, slots, strs)
  {
    Pieces7(a, b, c, d, e, f, g, slots, strs);
    FilledSnoc([a, b, c, d, e, f, g], h, slots, strs);
    assert [a, b, c, d, e, f, g] + [h] == [a, b, c, d, e, f, g, h];
  }

  // ---------------------------------------------------------------------
  // Keyspace statements
  // ---------------------------------------------------------------------

  /** CREATE KEYSPACE renders the keyspace identifier's text and the options' text after its keywords. */
  lemma CreateKeyspaceText(slots: map<string, Value>, strs: map<string, string>)
    requires Renders(slots, strs)
    ensures ToStr(Rec(CreateKeyspace, slots)) ==
      Success("CREATE KEYSPACE " + FieldText(strs, "keyspace") + " WITH " + FieldText(strs, "options"))
  {
    TemplateRendering(CreateKeyspace, slots, strs);
    Pieces4(Text("CREATE KEYSPACE "), Hole("keyspace"), Text(" WITH "), Hole("options"), slots, strs);
  }

  /** ALTER KEYSPACE renders like CREATE KEYSPACE, with its own keywords. */
  lemma AlterKeyspaceText(slots: map<string, Value>, strs: map<string, string>)
    requires Renders(slots, strs)
    ensures ToStr(Rec(AlterKeyspace, slots)) ==
      Success("ALTER KEYSPACE " + FieldText(strs, "keyspace") + " WITH " + FieldText(strs, "options"))
  {
    TemplateRendering(AlterKeyspace, slots, strs);
    Pieces4(Text("ALTER KEYSPACE "), Hole("keyspace"), Text(" WITH "), Hole("options"), slots, strs);
  }

  /** USE renders the keyspace identifier's text after its keyword. */
  lemma UseText(slots: map<string, Value>, strs: map<string, string>)
    requires Renders(slots, strs)
    ensures ToStr(Rec(Use, slots)) == Success("USE " + FieldText(strs, "keyspace"))
  {
    TemplateRendering(Use, slots, strs);
    Pieces2(Text("USE "), Hole("keyspace"), slots, strs);
  }

  /** DROP KEYSPACE renders the keyspace identifier's text after its keywords. */
  lemma DropKeyspaceText(slots: map<string, Value>, strs: map<string, string>)
    requires Renders(slots, strs)
    ensures ToStr(Rec(DropKeyspace, slots)) == Success("DROP KEYSPACE " + FieldText(strs, "keyspace"))
  {
    TemplateRendering(DropKeyspace, slots, strs);
    Pieces2(Text("DROP KEYSPACE "), Hole("keyspace"), slots, strs);
  }

  // ---------------------------------------------------------------------
  // Tables
  // ---------------------------------------------------------------------

  /**
   * PartitionKey renders its identifiers joined by ", " inside '(' ')';
   * ClusterKeys joins them without brackets.
   */
  lemma KeyColumnsText(items: seq<Value>, texts: seq<string>)
    requires |texts| == |items| && forall i | 0 <= i < |items| :: ItemTexts(items)[i] == Success(texts[i])
    ensures ToStr(Coll(PartitionKey, items)) == Success("(" + Joined(texts, ", ") + ")")
    ensures ToStr(Coll(ClusterKeys, items)) == Success(Joined(texts, ", "))
  {
    CollectionRendering(PartitionKey, items, texts);
    CollectionRendering(ClusterKeys, items, texts);
    Brackets('(', ')');
    var body := Joined(texts, ", ");
    assert "" + body + "" == body;
  }

  /** PrimaryKey renders `PRIMARY KEY (<partitionKey>, <clusterKeys>)`. */
  lemma PrimaryKeyText(slots: map<string, Value>, strs: map<string, string>)
    requires Renders(slots, strs)
    ensures ToStr(Rec(PrimaryKey, slots)) ==
      Success("PRIMARY KEY (" + FieldText(strs, "partitionKey") + ", " + FieldText(strs, "clusterKeys") + ")")
  {
    TemplateRendering(PrimaryKey, slots, strs);
    Pieces5(Text("PRIMARY KEY ("), Hole("partitionKey"), Text(", "), Hole("clusterKeys"), Text(")"), slots, strs);
  }

  /** A column definition renders its name, a space, and its type. */
  lemma ColumnDefinitionText(slots: map<string, Value>, strs: map<string, string>)
    requires Renders(slots, strs)
    ensures ToStr(Rec(ColumnDefinition, slots)) == Success(FieldText(strs, "name") + " " + FieldText(strs, "type"))
  {
    TemplateRendering(ColumnDefinition, slots, strs);
    Pieces3(Hole("name"), Text(" "), Hole("type"), slots, strs);
  }

  /**
   * CREATE TABLE renders the table name, then the column definitions and
   * the primary key in parentheses, then ` WITH <options>` exactly when the
   * options field is truthy: always when it holds an Options instance, never
   * when it was not set.
   */
  lemma CreateTableText(slots: map<string, Value>, strs: map<string, string>)
    requires Renders(slots, strs)
    ensures ToStr(Rec(CreateTable, slots)) ==
      Success("CREATE TABLE " + FieldText(strs, "table") + " (" + FieldText(strs, "columns") + ", " + FieldText(strs, "primaryKey") + ")" +
              (if Truthy(SlotValue(slots, "options")) then " WITH " + FieldText(strs, "options") else ""))
  {
    assert AllBound(CreateTable.format.segments, FieldNames(CreateTable.fields)) by {
      var names := FieldNames(CreateTable.fields);
      assert names == ["table", "primaryKey", "columns", "options"];
      assert AllBound([Text(" WITH "), Hole("options")], names);
    }
    TemplateRendering(CreateTable, slots, strs);
    CreateTableFilled(slots, strs);
  }

  /** The CREATE TABLE format filled in, piece by piece. */
  lemma CreateTableFilled(slots: map<string, Value>, strs: map<string, string>)
    ensures Filled(CreateTable.format.segments, slots, strs) ==
      "CREATE TABLE " + FieldText(strs, "table") + " (" + FieldText(strs, "columns") + ", " + FieldText(strs, "primaryKey") + ")" +
      (if Truthy(SlotValue(slots, "options")) then " WITH " + FieldText(strs, "options") else "")
  {
    var with := When("options", [Text(" WITH "), Hole("options")]);
    Pieces8(Text("CREATE TABLE "), Hole("table"), Text(" ("), Hole("columns"), Text(", "), Hole("primaryKey"), Text(")"), with, slots, strs);
    Pieces2(Text(" WITH "), Hole("options"), slots, strs);
  }

  /** ALTER TABLE renders the table and the instruction after its keywords; DROP TABLE renders the table. */
  lemma AlterTableText(slots: map<string, Value>, strs: map<string, string>)
    requires Renders(slots, strs)
    ensures ToStr(Rec(AlterTable, slots)) == Success("ALTER TABLE " + FieldText(strs, "table") + " " + FieldText(strs, "instruction"))
    ensures ToStr(Rec(DropTable, slots)) == Success("DROP TABLE " + FieldText(strs, "table"))
  {
    TemplateRendering(AlterTable, slots, strs);
    Pieces4(Text("ALTER TABLE "), Hole("table"), Text(" "), Hole("instruction"), slots, strs);
    TemplateRendering(DropTable, slots, strs);
    Pieces2(Text("DROP TABLE "), Hole("table"), slots, strs);
  }

  /** The ALTER instruction renders `ALTER <column> TYPE <type>`. */
  lemma AlterInstructionAlterText(slots: map<string, Value>, strs: map<string, string>)
    requires Renders(slots, strs)
    ensures ToStr(Rec(AlterInstructionAlter, slots)) ==
      Success("ALTER " + FieldText(strs, "column") + " TYPE " + FieldText(strs, "type"))
  {
    TemplateRendering(AlterInstructionAlter, slots, strs);
    Pieces4(Text("ALTER "), Hole("column"), Text(" TYPE "), Hole("type"), slots, strs);
  }

  /** The ADD instruction renders `ADD <column> <type>`. */
  lemma AlterInstructionAddText(slots: map<string, Value>, strs: map<string, string>)
    requires Renders(slots, strs)
    ensures ToStr(Rec(AlterInstructionAdd, slots)) == Success("ADD " + FieldText(strs, "column") + " " + FieldText(strs, "type"))
  {
    TemplateRendering(AlterInstructionAdd, slots, strs);
    Pieces4(Text("ADD "), Hole("column"), Text(" "), Hole("type"), slots, strs);
  }

  /** The WITH instruction renders `WITH <spec>`. */
  lemma AlterInstructionWithText(slots: map<string, Value>, strs: map<string, string>)
    requires Renders(slots, strs)
    ensures ToStr(Rec(AlterInstructionWith, slots)) == Success("WITH " + FieldText(strs, "spec"))
  {
    TemplateRendering(AlterInstructionWith, slots, strs);
    Pieces2(Text("WITH "), Hole("spec"), slots, strs);
  }

  /**
   * CREATE INDEX renders the index name and a space only when the index
   * field is truthy, then `ON <table> (<column>)`.
   */
  lemma CreateIndexText(slots: map<string, Value>, strs: map<string, string>)
    requires Renders(slots, strs)
    ensures ToStr(Rec(CreateIndex, slots)) ==
      Success("CREATE INDEX " + (if Truthy(SlotValue(slots, "index")) then FieldText(strs, "index") + " " else "") +
              "ON " + FieldText(strs, "table") + " (" + FieldText(strs, "column") + ")")
  {
    var named := When("index", [Hole("index"), Text(" ")]);
    var names := FieldNames(CreateIndex.fields);
    assert names == ["index", "table", "column"];
    assert PieceBound(named, names) by {
      assert AllBound([Hole("index"), Text(" ")], names);
    }
    TemplateRendering(CreateIndex, slots, strs);
    Pieces7(Text("CREATE INDEX "), named, Text("ON "), Hole("table"), Text(" ("), Hole("column"), Text(")"), slots, strs);
    Pieces2(Hole("index"), Text(" "), slots, strs);
  }

  /** DROP INDEX renders the index after its keywords. */
  lemma DropIndexText(slots: map<string, Value>, strs: map<string, string>)
    requires Renders(slots, strs)
    ensures ToStr(Rec(DropIndex, slots)) == Success("DROP INDEX " + FieldText(strs, "index"))
  {
    TemplateRendering(DropIndex, slots, strs);
    Pieces2(Text("DROP INDEX "), Hole("index"), slots, strs);
  }

  // ---------------------------------------------------------------------
  // Options
  // ---------------------------------------------------------------------

  /** ClusteringOrder declares no fields, so its constructor throws for every argument list. */
  lemma ClusteringOrderNeverBuilt(args: seq<Value>)
    ensures Construct(ClusteringOrder, args) == Failure(ArityError(|args|, 0))
  {
    ArityRule(ClusteringOrder, args);
  }

  /**
   * Option never makes a ClusteringOrder: the only ClusteringOrder it can
   * return is one it was handed.
   * `option` is the Option union itself; it is passed as a parameter pinned
   * by `requires` so that the prover reasons about `Construct(option, …)`
   * through the general union lemmas instead of unfolding the whole
   * declaration of Option, which costs several times more.
   */
  lemma OptionNeverClusteringOrder(option: Ty, args: seq<Value>, r: Value)
    requires option == OptionUnion && Construct(option, args) == Success(r)
    ensures r.Rec? && r.ty == ClusteringOrder ==> |args| == 1 && r == args[0]
  {
    FieldlessNeverChosen(option, args, r, 1);
  }

  /**
   * Given one value without an own `value` key, CompactStorage accepts
   * exactly the string "CompactStorage" and the literal instance itself,
   * renders it unchanged, and is the first choice of Option.
   */
  lemma CompactStorageLiteral(v: Value)
    requires !(IsObject(v) && HasOwn(v, "value"))
    ensures Construct(CompactStorage, [v]).Success? <==> v == Str("CompactStorage") || v == Lit("CompactStorage")
    ensures v == Lit("CompactStorage") ==>
      Construct(CompactStorage, [v]) == Success(Rec(CompactStorage, map["value" := Lit("CompactStorage")]))
    ensures v == Str("CompactStorage") ==>
      (Construct(CompactStorage, [v]) == Success(Rec(CompactStorage, map["value" := Lit("CompactStorage")])) &&
       Construct(OptionUnion, [v]) == Success(Rec(CompactStorage, map["value" := Lit("CompactStorage")])) &&
       ToStr(Rec(CompactStorage, map["value" := Lit("CompactStorage")])) == Success("CompactStorage"))
  {
    BareValueWrapped(CompactStorage, v);
    LiteralCheck("CompactStorage", [v]);
    var r := Rec(CompactStorage, map["value" := Lit("CompactStorage")]);
    DefaultRendering(CompactStorage, r.slots);
    if v == Str("CompactStorage") {
      assert FirstAccepting(OptionUnion.candidates, [v], 0, r);
      UnionDispatch(OptionUnion, [v], r);
    }
  }

  /**
   * AlterInstructionAlter and AlterInstructionAdd declare the same fields
   * and Alter comes first, so the instruction union never makes an Add
   * instance: the only Add it returns is one it was handed.
   * `instruction` is the instruction union itself, passed as a pinned
   * parameter for the same reason as `option` in OptionNeverClusteringOrder.
   */
  lemma AlterShadowsAdd(instruction: Ty, args: seq<Value>, r: Value)
    requires instruction == AlterInstruction && Construct(instruction, args) == Success(r)
    ensures r.Rec? && r.ty == AlterInstructionAdd ==> |args| == 1 && r == args[0]
  {
    ShadowedNeverChosen(instruction, args, r, 0, 1);
  }

  /**
   * Arguments that AlterInstructionAdd accepts make an AlterInstructionAlter
   * instead. (`instruction` is pinned as in AlterShadowsAdd.)
   */
  lemma AlterChosenOverAdd(instruction: Ty, args: seq<Value>)
    requires instruction == AlterInstruction
    requires !(|args| == 1 && exists i | 0 <= i < 3 :: InstanceOf(args[0], instruction.candidates[i]))
    requires Construct(AlterInstructionAdd, args).Success?
    ensures Construct(instruction, args).Success?
    ensures Construct(instruction, args).value.Rec? && Construct(instruction, args).value.ty == AlterInstructionAlter
  {
    ConstructSameFields(AlterInstructionAlter, AlterInstructionAdd, args);
    FirstCandidateWins(instruction, args);
    RecordInstance(AlterInstructionAlter, args, Construct(AlterInstructionAlter, args).value);
  }

  /** WriteOption tries WriteTimestamp first, so a bare integer text becomes a timestamp. */
  lemma WriteOptionTimestamp(n: string)
    requires IsIntText(n)
    ensures Construct(WriteOption, [Str(n)]) == Success(Rec(WriteTimestamp, map["timestamp" := Single(IntConst, Str(n))]))
  {
    IntConstAccepts(Str(n));
    var stamp := Rec(WriteTimestamp, map["timestamp" := Single(IntConst, Str(n))]);
    BareValueWrapped(WriteTimestamp, Str(n));
    assert FirstAccepting(WriteOption.candidates, [Str(n)], 0, stamp);
    UnionDispatch(WriteOption, [Str(n)], stamp);
  }

  /** `{ttl: n}` fails as a timestamp (it has no integer value) and becomes a WriteTTL. */
  lemma WriteOptionTTL(n: string)
    requires IsIntText(n)
    ensures Construct(WriteOption, [Obj([("ttl", Str(n))])]) == Success(Rec(WriteTTL, map["ttl" := Single(IntConst, Str(n))]))
  {
    var entries := [("ttl", Str(n))];
    var o := Obj(entries);
    var ttl := Rec(WriteTTL, map["ttl" := Single(IntConst, Str(n))]);
    HasOwnObject(entries, "timestamp");
    BareValueWrapped(WriteTimestamp, o);
    assert Construct(WriteTimestamp, [o]).Failure?;
    WriteTTLBuilt(n);
    assert FirstAccepting(WriteOption.candidates, [o], 1, ttl);
    UnionDispatch(WriteOption, [o], ttl);
  }

  /** The TTL record built from `{ttl: n}` holds n as an integer literal. */
  lemma WriteTTLBuilt(n: string)
    requires IsIntText(n)
    ensures Construct(WriteTTL, [Obj([("ttl", Str(n))])]) == Success(Rec(WriteTTL, map["ttl" := Single(IntConst, Str(n))]))
  {
    IntConstAccepts(Str(n));
    var entries := [("ttl", Str(n))];
    var o := Obj(entries);
    HasOwnObject(entries, "value");
    HasOwnObject(entries, "ttl");
    BareValueWrapped(IntConst, o);
    assert RecordArgument(WriteTTL.fields, o) == o;
    assert Enumerate(o) == entries;
    assert SetField(WriteTTL, "ttl", Str(n)) == Success(Single(IntConst, Str(n)));
    assert entries[1..] == [];
    assert SetAll(WriteTTL, entries, map[]) == SetAll(WriteTTL, [], map["ttl" := Single(IntConst, Str(n))]);
  }

  /** A timestamp option renders `TIMESTAMP n`. */
  lemma WriteTimestampText(n: string)
    requires IsIntText(n)
    ensures ToStr(Rec(WriteTimestamp, map["timestamp" := Single(IntConst, Str(n))])) == Success("TIMESTAMP " + n)
  {
    IntConstAccepts(Str(n));
    var stamp := map["timestamp" := Single(IntConst, Str(n))];
    TemplateRendering(WriteTimestamp, stamp, map["timestamp" := n]);
    Pieces2(Text("TIMESTAMP "), Hole("timestamp"), stamp, map["timestamp" := n]);
  }

  /** A TTL option renders `TTL n`. */
  lemma WriteTTLText(n: string)
    requires IsIntText(n)
    ensures ToStr(Rec(WriteTTL, map["ttl" := Single(IntConst, Str(n))])) == Success("TTL " + n)
  {
    IntConstAccepts(Str(n));
    var ttl := map["ttl" := Single(IntConst, Str(n))];
    TemplateRendering(WriteTTL, ttl, map["ttl" := n]);
    Pieces2(Text("TTL "), Hole("ttl"), ttl, map["ttl" := n]);
  }

  // ---------------------------------------------------------------------
  // TRUNCATE and INSERT: the formats as declared, and corrected
  // ---------------------------------------------------------------------

  /** Truncate as declared throws a ReferenceError for `tablename` whenever it is rendered, whatever it holds. */
  lemma TruncateAsWrittenThrows(slots: map<string, Value>)
    ensures ToStr(Rec(TruncateAsWritten, slots)) == Failure(ReferenceError("tablename"))
  {
    var texts := map k | k in slots :: ToStr(slots[k]);
    EvaluateCons(Text("TRUNCATE "), [Hole("tablename")], ["table"], slots, texts);
    UnboundNameThrows("tablename", [], ["table"], slots, texts);
    assert [Hole("tablename")] + [] == [Hole("tablename")];
  }

  /** Truncate, corrected, renders `TRUNCATE <table>`. */
  lemma TruncateText(slots: map<string, Value>, strs: map<string, string>)
    requires Renders(slots, strs)
    ensures ToStr(Rec(Truncate, slots)) == Success("TRUNCATE " + FieldText(strs, "table"))
  {
    TemplateRendering(Truncate, slots, strs);
    Pieces2(Text("TRUNCATE "), Hole("table"), slots, strs);
  }

  /**
   * Insert as declared never renders: once the table renders, the
   * substitution of `columns` throws a ReferenceError.
   */
  lemma InsertAsWrittenThrows(slots: map<string, Value>)
    ensures ToStr(Rec(InsertAsWritten, slots)).Failure?
    ensures ("table" !in slots || ToStr(slots["table"]).Success?) ==>
      ToStr(Rec(InsertAsWritten, slots)) == Failure(ReferenceError("columns"))
  {
    var texts := map k | k in slots :: ToStr(slots[k]);
    var names := FieldNames(InsertFields);
    assert names == ["table", "column", "values", "options"];
    assert ToStr(Rec(InsertAsWritten, slots)) == Evaluate(InsertAsWritten.format.segments, names, slots, texts);
    ColumnsUnbound(names, slots, texts);
    assert "table" in slots ==> texts["table"] == ToStr(slots["table"]);
  }

  /** Insert as declared, at the level of its format string: the table, then the unbound `columns`. */
  lemma ColumnsUnbound(names: seq<string>, slots: map<string, Value>, texts: map<string, Result<string, Err>>)
    requires names == ["table", "column", "values", "options"]
    ensures Evaluate(InsertAsWritten.format.segments, names, slots, texts) ==
      (var table :- SlotText(texts, "table"); Failure(ReferenceError("columns")))
  {
    var head := [Text("INSERT INTO "), Hole("table"), Text(" (")];
    var tail := [Text(") VALUES ("), Hole("values"), Text(")"), When("options", [Text(" USING "), Hole("options")])];
    assert InsertAsWritten.format.segments == head + ([Hole("columns")] + tail);
    EvaluateAppend(head, [Hole("columns")] + tail, names, slots, texts);
    UnboundNameThrows("columns", tail, names, slots, texts);
    EvaluateCons(Text("INSERT INTO "), [Hole("table"), Text(" (")], names, slots, texts);
    EvaluateCons(Hole("table"), [Text(" (")], names, slots, texts);
  }

  /**
   * Insert, corrected, renders `INSERT INTO <table> (<column>) VALUES
   * (<values>)`, then ` USING <options>` exactly when options is truthy.
   */
  lemma InsertText(slots: map<string, Value>, strs: map<string, string>)
    requires Renders(slots, strs)
    ensures ToStr(Rec(Insert, slots)) ==
      Success("INSERT INTO " + FieldText(strs, "table") + " (" + FieldText(strs, "column") + ") VALUES (" + FieldText(strs, "values") + ")" +
              (if Truthy(SlotValue(slots, "options")) then " USING " + FieldText(strs, "options") else ""))
  {
    assert AllBound(Insert.format.segments, FieldNames(Insert.fields)) by {
      var names := FieldNames(InsertFields);
      assert names == ["table", "column", "values", "options"];
      assert AllBound([Text(" USING "), Hole("options")], names);
    }
    TemplateRendering(Insert, slots, strs);
    InsertFilled(slots, strs);
  }

  /** The corrected INSERT format filled in, piece by piece. */
  lemma InsertFilled(slots: map<string, Value>, strs: map<string, string>)
    ensures Filled(Insert.format.segments, slots, strs) ==
      "INSERT INTO " + FieldText(strs, "table") + " (" + FieldText(strs, "column") + ") VALUES (" + FieldText(strs, "values") + ")" +
      (if Truthy(SlotValue(slots, "options")) then " USING " + FieldText(strs, "options") else "")
  {
    var using := When("options", [Text(" USING "), Hole("options")]);
    Pieces8(Text("INSERT INTO "), Hole("table"), Text(" ("), Hole("column"), Text(") VALUES ("), Hole("values"), Text(")"), using, slots, strs);
    Pieces2(Text(" USING "), Hole("options"), slots, strs);
  }
}
