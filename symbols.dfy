/**
 * The leaf symbols of lib/symbols.js, declared with the combinators of
 * module Types, and what each accepts and how it renders.
 */
module Symbols {
  import opened Wrappers
  import opened Types
  import opened SymbolText
  import TypeLaws

  const Identifier: Ty := Record("Identifier", [Field("value", Check(Primitive(StringKind)))], QuotedIdentifier)

  const TableName: Ty := Record("TableName", [Field("keyspace", Of(Identifier)), Field("table", Of(Identifier))], QualifiedTable)

  const StringConst: Ty := Record("StringConst", [Field("value", Check(Primitive(StringKind)))], QuotedString)

  const IntConst: Ty := Record("IntConst", [Field("value", Check(IntPattern))], Plain)

  const FloatConst: Ty := Record("FloatConst", [Field("value", Check(FloatPattern))], Plain)

  const NumberConst: Ty := Union("NumberConst", [IntConst, FloatConst])

  const UUIDConst: Ty := Record("UUIDConst", [Field("value", Check(UuidPattern))], Plain)

  const BooleanConst: Ty := Record("BooleanConst", [Field("value", Check(Primitive(BooleanKind)))], Plain)

  const Q: Ty := Record("Q", [Field("value", Of(Literal("?")))], Plain)

  const FinalTerm: Ty := Union("FinalTerm", [NumberConst, UUIDConst, StringConst, BooleanConst])

  const Term: Ty := Union("Term", [Q, FinalTerm])

  const IntTerm: Ty := Union("IntTerm", [IntConst, Q])

  const FinalTermPair: Ty :=
    Record("FinalTermPair", [Field("key", Of(FinalTerm)), Field("value", Of(FinalTerm))],
           Template([Hole("key"), Text(": "), Hole("value")]))

  const MapLiteral: Ty := Collection("MapLiteral", FinalTermPair, "{}", ", ")

  const SetLiteral: Ty := Collection("SetLiteral", FinalTerm, "{}", ", ")

  const ListLiteral: Ty := Collection("ListLiteral", FinalTerm, "[]", ", ")

  const CollectionLiteral: Ty := Union("CollectionLiteral", [MapLiteral, SetLiteral, ListLiteral])

  /** The union exported as `Value`. */
  const ValueUnion: Ty := Union("Value", [NumberConst, BooleanConst, StringConst, Identifier])

  /** The anonymous union of a property's value: `union(Value, MapLiteral)`. */
  const PropertyValue: Ty := Union("union(Value|MapLiteral)", [ValueUnion, MapLiteral])

  const Property: Ty :=
    Record("Property", [Field("key", Of(Identifier)), Field("value", Of(PropertyValue))],
           Template([Hole("key"), Text(" = "), Hole("value")]))

  const Properties: Ty := Collection("Properties", Property, "", " AND ")

  const NativeTypeNames: seq<string> :=
    ["ascii", "bigint", "blob", "boolean", "counter", "decimal", "double", "float",
     "inet", "int", "text", "timestamp", "timeuuid", "uuid", "varchar", "varint"]

  const NativeType: Ty := Union("NativeType", seq(|NativeTypeNames|, i requires 0 <= i < |NativeTypeNames| => Literal(NativeTypeNames[i])))

  const ListType: Ty := Record("ListType", [Field("value", Of(NativeType))], Template([Text("list<"), Hole("value"), Text(">")]))

  const SetType: Ty := Record("SetType", [Field("value", Of(NativeType))], Template([Text("set<"), Hole("value"), Text(">")]))

  const MapType: Ty :=
    Record("MapType", [Field("keyType", Of(NativeType)), Field("valueType", Of(NativeType))],
           Template([Text("map<"), Hole("keyType"), Text(", "), Hole("valueType"), Text(">")]))

  const CollectionType: Ty := Union("CollectionType", [ListType, SetType, MapType])

  /** The union exported as `Type`. */
  const TypeUnion: Ty := Union("Type", [NativeType, CollectionType, StringConst])

  /** The instance a single-field record makes of the value `v` stored in its only field. */
  function Single(t: Ty, v: Value): Value
    requires t.Record?
  {
    Rec(t, map["value" := v])
  }

  // ---------------------------------------------------------------------
  // Identifier and TableName
  // ---------------------------------------------------------------------

  /**
   * `Identifier(s)` holds the string s; it renders '' for the empty string
   * and otherwise s between '"' with each '"' doubled, which reads back to s.
   */
  lemma IdentifierQuoted(s: string)
    ensures Construct(Identifier, [Str(s)]) == Success(Single(Identifier, Str(s)))
    ensures ToStr(Single(Identifier, Str(s))) == Success(if s == "" then "" else Quote(s, '"'))
    ensures s != "" ==> Unquote(ToStr(Single(Identifier, Str(s))).value, '"') == Some(s)
  {
    TypeLaws.BareValueWrapped(Identifier, Str(s));
    if s != "" {
      UnquoteQuote(s, '"');
    }
  }

  /**
   * Identifier rejects every value that is not a string, unless it is an
   * object with its own `value`: null, undefined, numbers, booleans, arrays,
   * and objects without `value` are all wrapped as `{value: v}` and refused.
   */
  lemma IdentifierRejects(v: Value)
    requires !(IsObject(v) && HasOwn(v, "value")) && !v.Str?
    ensures Construct(Identifier, [v]) == Failure(NotPrimitive(StringKind))
  {
    TypeLaws.BareValueWrapped(Identifier, v);
  }

  /** A '"' inside an identifier is doubled: `Identifier('this"thing')` renders as `"this""thing"`. */
  lemma IdentifierEscapesQuote(a: string, b: string)
    requires '"' !in a && '"' !in b
    ensures ToStr(Single(Identifier, Str(a + "\"" + b))) == Success("\"" + a + "\"\"" + b + "\"")
  {
    IdentifierQuoted(a + "\"" + b);
    QuoteOneInner(a, b, '"');
  }

  /**
   * TableName renders its keyspace's text and a '.' before the table's text
   * when the keyspace is set and renders non-empty, and the table's text alone otherwise.
   */
  lemma TableNameRendering(slots: map<string, Value>)
    ensures ToStr(Rec(TableName, slots)) ==
      (var ks :- if Truthy(SlotValue(slots, "keyspace")) then ToStr(slots["keyspace"]) else Success("");
       var table :- if "table" in slots then ToStr(slots["table"]) else Success("undefined");
       Success((if ks != "" then ks + "." else "") + table))
  {
    var texts := map k | k in slots :: ToStr(slots[k]);
    assert ToStr(Rec(TableName, slots)) == RenderRecord(TableName, slots, texts);
  }

  /**
   * `TableName({keyspace: k, table: t})` holds both names as identifiers.
   */
  lemma TableNameQualified(k: string, t: string)
    ensures Construct(TableName, [Obj([("keyspace", Str(k)), ("table", Str(t))])]) ==
      Success(Rec(TableName, map["keyspace" := Single(Identifier, Str(k)), "table" := Single(Identifier, Str(t))]))
  {
    IdentifierQuoted(k);
    IdentifierQuoted(t);
    var ik, it := Single(Identifier, Str(k)), Single(Identifier, Str(t));
    var entries := [("keyspace", Str(k)), ("table", Str(t))];
    var o := Obj(entries);
    assert RecordArgument(TableName.fields, o) == o;
    assert Enumerate(o) == entries;
    assert Construct(TableName, [o]) == SetAll(TableName, entries, map[]);
    assert FieldIndex(TableName.fields, "keyspace") == 0;
    assert FieldIndex(TableName.fields, "table") == 1;
    assert SetField(TableName, "keyspace", Str(k)) == Success(ik);
    assert SetField(TableName, "table", Str(t)) == Success(it);
    assert entries[1..] == [("table", Str(t))] && entries[1..][1..] == [];
    assert SetAll(TableName, entries, map[]) == SetAll(TableName, entries[1..], map["keyspace" := ik]);
    assert SetAll(TableName, entries[1..], map["keyspace" := ik]) ==
      SetAll(TableName, [], map["keyspace" := ik, "table" := it]);
  }

  /** A qualified table renders `"k"."t"`; with an empty keyspace it renders the table alone. */
  lemma TableNameQualifiedText(k: string, t: string)
    ensures ToStr(Rec(TableName, map["keyspace" := Single(Identifier, Str(k)), "table" := Single(Identifier, Str(t))])) ==
      Success(if k == "" then ToStr(Single(Identifier, Str(t))).value else Quote(k, '"') + "." + ToStr(Single(Identifier, Str(t))).value)
  {
    IdentifierQuoted(k);
    IdentifierQuoted(t);
    var ik, it := Single(Identifier, Str(k)), Single(Identifier, Str(t));
    TableNameRendering(map["keyspace" := ik, "table" := it]);
    assert Truthy(ik);
    assert "" + ToStr(it).value == ToStr(it).value;
  }

  /** `TableName({table: t})` holds the table alone. */
  lemma TableNameUnqualified(t: string)
    ensures Construct(TableName, [Obj([("table", Str(t))])]) == Success(Rec(TableName, map["table" := Single(Identifier, Str(t))]))
  {
    IdentifierQuoted(t);
    var it := Single(Identifier, Str(t));
    var entries := [("table", Str(t))];
    var o := Obj(entries);
    assert RecordArgument(TableName.fields, o) == o;
    assert Enumerate(o) == entries;
    assert Construct(TableName, [o]) == SetAll(TableName, entries, map[]);
    assert FieldIndex(TableName.fields, "table") == 1;
    assert SetField(TableName, "table", Str(t)) == Success(it);
    assert entries[1..] == [];
    assert SetAll(TableName, entries, map[]) == SetAll(TableName, [], map["table" := it]);
  }

  /** A table name without a keyspace renders as the table identifier alone, with no '.'. */
  lemma TableNameUnqualifiedText(t: string)
    ensures ToStr(Rec(TableName, map["table" := Single(Identifier, Str(t))])) == ToStr(Single(Identifier, Str(t)))
  {
    IdentifierQuoted(t);
    var it := Single(Identifier, Str(t));
    TableNameRendering(map["table" := it]);
    assert "" + ToStr(it).value == ToStr(it).value;
  }

  // ---------------------------------------------------------------------
  // Constants
  // ---------------------------------------------------------------------

  /**
   * Of the values that are not objects with their own `value`, StringConst
   * accepts exactly the strings, and renders them between single quotes with
   * each single quote doubled.
   */
  lemma StringConstQuoted(v: Value)
    requires !(IsObject(v) && HasOwn(v, "value"))
    ensures Construct(StringConst, [v]).Success? <==> v.Str?
    ensures v.Str? ==> (Construct(StringConst, [v]) == Success(Single(StringConst, v)) &&
      ToStr(Single(StringConst, v)) == Success(Quote(v.s, '\'')))
  {
    TypeLaws.BareValueWrapped(StringConst, v);
  }

  /** A single quote inside a string constant is doubled: `StringConst("'string")` renders as `'''string'`. */
  lemma StringConstEscapesQuote(a: string, b: string)
    requires '\'' !in a && '\'' !in b
    ensures ToStr(Single(StringConst, Str(a + "'" + b))) == Success("'" + a + "''" + b + "'")
  {
    StringConstQuoted(Str(a + "'" + b));
    QuoteOneInner(a, b, '\'');
  }

  /**
   * IntConst accepts a string or number exactly when its text is an
   * optional '-' and one or more digits; it stores that text and renders it.
   */
  lemma IntConstAccepts(v: Value)
    requires v.Str? || v.Num?
    ensures var text := if v.Str? then v.s else v.text;
      (Construct(IntConst, [v]).Success? <==> IsIntText(text)) &&
      (IsIntText(text) ==> Construct(IntConst, [v]) == Success(Single(IntConst, Str(text))) &&
                           ToStr(Single(IntConst, Str(text))) == Success(text))
  {
    TypeLaws.BareValueWrapped(IntConst, v);
  }

  /** IntConst rejects float texts. */
  lemma IntConstRejectsFloat(s: string)
    requires IsFloatText(s)
    ensures Construct(IntConst, [Str(s)]).Failure?
  {
    IntConstAccepts(Str(s));
    if IsIntText(s) {
      IntTextIsNotFloat(s);
    }
  }

  /** FloatConst accepts a string or number exactly when its text matches the float pattern, and stores and renders that text. */
  lemma FloatConstAccepts(v: Value)
    requires v.Str? || v.Num?
    ensures var text := if v.Str? then v.s else v.text;
      (Construct(FloatConst, [v]).Success? <==> IsFloatText(text)) &&
      (IsFloatText(text) ==> Construct(FloatConst, [v]) == Success(Single(FloatConst, Str(text))) &&
                             ToStr(Single(FloatConst, Str(text))) == Success(text))
  {
    TypeLaws.BareValueWrapped(FloatConst, v);
  }

  /** The float pattern needs a '.', so `10` is rejected; `42.2344234` is accepted. */
  lemma FloatConstExamples()
    ensures Construct(FloatConst, [Num("10")]).Failure?
    ensures Construct(FloatConst, [Num("42.2344234")]).Success?
  {
    FloatConstAccepts(Num("10"));
    IntTextIsNotFloat("10");
    var d := "42.2344234";
    assert IsFloatText(d) by {
      assert Unsigned(d) == d;
      assert d[..2] == "42" && d[2 + 1..] == "2344234";
      assert d[2] == '.' && AllDigits(d[..2]) && AllDigits(d[2 + 1..]);
    }
    FloatConstAccepts(Num(d));
  }

  /** UUIDConst accepts exactly the strings in the 8-4-4-4-12 hex layout, and nothing that is not a string. */
  lemma UUIDConstAccepts(v: Value)
    requires !(IsObject(v) && HasOwn(v, "value"))
    ensures Construct(UUIDConst, [v]).Success? <==> v.Str? && IsUuid(v.s)
    ensures Construct(UUIDConst, [v]).Success? ==> Construct(UUIDConst, [v]) == Success(Single(UUIDConst, v))
  {
    TypeLaws.BareValueWrapped(UUIDConst, v);
  }

  // ---------------------------------------------------------------------
  // Unions
  // ---------------------------------------------------------------------

  /** NumberConst tries IntConst first: an integer text becomes an IntConst, a float text a FloatConst. */
  lemma NumberConstOrder(s: string)
    ensures IsIntText(s) ==> Construct(NumberConst, [Str(s)]) == Success(Single(IntConst, Str(s)))
    ensures IsFloatText(s) ==> Construct(NumberConst, [Str(s)]) == Success(Single(FloatConst, Str(s)))
    ensures !IsIntText(s) && !IsFloatText(s) ==> Construct(NumberConst, [Str(s)]).Failure?
  {
    IntConstAccepts(Str(s));
    FloatConstAccepts(Str(s));
    if IsIntText(s) {
      IntTextIsNotFloat(s);
    }
    if IsFloatText(s) {
      if IsIntText(s) {
        IntTextIsNotFloat(s);
      }
      assert TypeLaws.FirstAccepting(NumberConst.candidates, [Str(s)], 1, Single(FloatConst, Str(s)));
      TypeLaws.UnionDispatch(NumberConst, [Str(s)], Single(FloatConst, Str(s)));
    } else {
      TypeLaws.UnionDispatch(NumberConst, [Str(s)], Str(s));
    }
  }

  /**
   * FinalTerm tries NumberConst, UUIDConst, StringConst and BooleanConst in
   * that order: an integer text becomes an IntConst, a float text a
   * FloatConst and a UUID text a UUIDConst, each rendering the text unquoted;
   * only a string that is none of these becomes a StringConst, rendered
   * quoted.
   */
  lemma FinalTermOrder(s: string)
    ensures IsIntText(s) ==> (Construct(FinalTerm, [Str(s)]) == Success(Single(IntConst, Str(s))) &&
      ToStr(Single(IntConst, Str(s))) == Success(s))
    ensures IsFloatText(s) ==> (Construct(FinalTerm, [Str(s)]) == Success(Single(FloatConst, Str(s))) &&
      ToStr(Single(FloatConst, Str(s))) == Success(s))
    ensures IsUuid(s) ==> (Construct(FinalTerm, [Str(s)]) == Success(Single(UUIDConst, Str(s))) &&
      ToStr(Single(UUIDConst, Str(s))) == Success(s))
    ensures !IsIntText(s) && !IsFloatText(s) && !IsUuid(s) ==>
      (Construct(FinalTerm, [Str(s)]) == Success(Single(StringConst, Str(s))) &&
       ToStr(Single(StringConst, Str(s))) == Success(Quote(s, '\'')))
  {
    if IsUuid(s) {
      UuidIsNotNumber(s);
    }
    if IsIntText(s) || IsFloatText(s) {
      FinalTermNumber(s);
    } else if IsUuid(s) {
      FinalTermUuid(s);
    } else {
      FinalTermString(s);
    }
  }

  /** `FinalTermOrder` for a number text: NumberConst, the first candidate, takes it. */
  lemma FinalTermNumber(s: string)
    requires IsIntText(s) || IsFloatText(s)
    ensures IsIntText(s) ==> (Construct(FinalTerm, [Str(s)]) == Success(Single(IntConst, Str(s))) &&
      ToStr(Single(IntConst, Str(s))) == Success(s))
    ensures IsFloatText(s) ==> (Construct(FinalTerm, [Str(s)]) == Success(Single(FloatConst, Str(s))) &&
      ToStr(Single(FloatConst, Str(s))) == Success(s))
  {
    NumberConstOrder(s);
    IntConstAccepts(Str(s));
    FloatConstAccepts(Str(s));
    var args := [Str(s)];
    var r := Construct(NumberConst, args).value;
    assert TypeLaws.FirstAccepting(FinalTerm.candidates, args, 0, r);
    TypeLaws.UnionDispatch(FinalTerm, args, r);
  }

  /** `FinalTermOrder` for a UUID text: NumberConst throws, UUIDConst takes it. */
  lemma FinalTermUuid(s: string)
    requires IsUuid(s)
    ensures Construct(FinalTerm, [Str(s)]) == Success(Single(UUIDConst, Str(s)))
    ensures ToStr(Single(UUIDConst, Str(s))) == Success(s)
  {
    UuidIsNotNumber(s);
    NumberConstOrder(s);
    UUIDConstAccepts(Str(s));
    var args := [Str(s)];
    var r := Single(UUIDConst, Str(s));
    assert TypeLaws.FirstAccepting(FinalTerm.candidates, args, 1, r);
    TypeLaws.UnionDispatch(FinalTerm, args, r);
    TypeLaws.DefaultRendering(UUIDConst, r.slots);
  }

  /** `FinalTermOrder` for any other string: NumberConst and UUIDConst throw, StringConst takes it. */
  lemma FinalTermString(s: string)
    requires !IsIntText(s) && !IsFloatText(s) && !IsUuid(s)
    ensures Construct(FinalTerm, [Str(s)]) == Success(Single(StringConst, Str(s)))
    ensures ToStr(Single(StringConst, Str(s))) == Success(Quote(s, '\''))
  {
    NumberConstOrder(s);
    UUIDConstAccepts(Str(s));
    StringConstQuoted(Str(s));
    var args := [Str(s)];
    var r := Single(StringConst, Str(s));
    assert TypeLaws.FirstAccepting(FinalTerm.candidates, args, 2, r);
    TypeLaws.UnionDispatch(FinalTerm, args, r);
  }

  /** A boolean is no number, UUID or string, so FinalTerm makes it a BooleanConst, rendered `true` or `false`. */
  lemma FinalTermBoolean(b: bool)
    ensures Construct(FinalTerm, [Bool(b)]) == Success(Single(BooleanConst, Bool(b)))
    ensures ToStr(Single(BooleanConst, Bool(b))) == Success(if b then "true" else "false")
  {
    var args := [Bool(b)];
    var r := Single(BooleanConst, Bool(b));
    NumberConstRejectsBoolean(b);
    UUIDConstAccepts(Bool(b));
    StringConstQuoted(Bool(b));
    TypeLaws.BareValueWrapped(BooleanConst, Bool(b));
    assert TypeLaws.FirstAccepting(FinalTerm.candidates, args, 3, r);
    TypeLaws.UnionDispatch(FinalTerm, args, r);
    TypeLaws.DefaultRendering(BooleanConst, r.slots);
  }

  /** Neither IntConst nor FloatConst accepts a boolean, so NumberConst throws. */
  lemma NumberConstRejectsBoolean(b: bool)
    ensures Construct(NumberConst, [Bool(b)]) == Failure(NoMatch("NumberConst", [Bool(b)]))
  {
    TypeLaws.BareValueWrapped(IntConst, Bool(b));
    TypeLaws.BareValueWrapped(FloatConst, Bool(b));
    TypeLaws.UnionDispatch(NumberConst, [Bool(b)], Bool(b));
  }

  /** A union of literals accepts exactly its listed strings, each as itself. */
  lemma {:induction false} LiteralsTried(u: Ty, i: nat, s: string)
    requires u.Union? && i <= |u.candidates| && forall j | 0 <= j < |u.candidates| :: u.candidates[j].Literal?
    ensures TryCandidates(u, i, [Str(s)]) ==
      if exists j | i <= j < |u.candidates| :: u.candidates[j].value == s then Success(Lit(s))
      else Failure(NoMatch(u.name, [Str(s)]))
    decreases |u.candidates| - i
  {
    if i < |u.candidates| {
      LiteralsTried(u, i + 1, s);
      if u.candidates[i].value != s {
        if exists j | i <= j < |u.candidates| :: u.candidates[j].value == s {
          var j :| i <= j < |u.candidates| && u.candidates[j].value == s;
          assert j != i;
        }
      }
    }
  }

  /** NativeType accepts exactly the sixteen listed type names and renders each unchanged. */
  lemma NativeTypeNames16(s: string)
    ensures Construct(NativeType, [Str(s)]).Success? <==> s in NativeTypeNames
    ensures s in NativeTypeNames ==> Construct(NativeType, [Str(s)]) == Success(Lit(s)) && ToStr(Lit(s)) == Success(s)
  {
    LiteralsTried(NativeType, 0, s);
    if s in NativeTypeNames {
      var j :| 0 <= j < |NativeTypeNames| && NativeTypeNames[j] == s;
      assert NativeType.candidates[j].value == s;
    }
  }

  // ---------------------------------------------------------------------
  // Collections
  // ---------------------------------------------------------------------

  /**
   * MapLiteral and SetLiteral render inside '{' '}', joining the elements
   * with ", ".
   */
  lemma CollectionLiteralBrackets(items: seq<Value>, texts: seq<string>)
    requires |texts| == |items| && forall i | 0 <= i < |items| :: TypeLaws.ItemTexts(items)[i] == Success(texts[i])
    ensures ToStr(Coll(MapLiteral, items)) == Success("{" + TypeLaws.Joined(texts, ", ") + "}")
    ensures ToStr(Coll(SetLiteral, items)) == Success("{" + TypeLaws.Joined(texts, ", ") + "}")
  {
    TypeLaws.CollectionRendering(MapLiteral, items, texts);
    TypeLaws.CollectionRendering(SetLiteral, items, texts);
    TypeLaws.Brackets('{', '}');
  }

  /** ListLiteral renders inside '[' ']' joined by ", "; Properties join with " AND " and no brackets. */
  lemma ListAndPropertiesText(items: seq<Value>, texts: seq<string>)
    requires |texts| == |items| && forall i | 0 <= i < |items| :: TypeLaws.ItemTexts(items)[i] == Success(texts[i])
    ensures ToStr(Coll(ListLiteral, items)) == Success("[" + TypeLaws.Joined(texts, ", ") + "]")
    ensures ToStr(Coll(Properties, items)) == Success(TypeLaws.Joined(texts, " AND "))
  {
    TypeLaws.CollectionRendering(ListLiteral, items, texts);
    TypeLaws.CollectionRendering(Properties, items, texts);
    TypeLaws.Brackets('[', ']');
    var body := TypeLaws.Joined(texts, " AND ");
    assert "" + body + "" == body;
  }
}
