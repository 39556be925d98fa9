/**
 * The type combinators of lib/type.js: record types made by `type`, and the
 * `primitive`, `literal`, `union` and `collection` combinators, together with
 * the JavaScript values they accept and the instances they produce.
 *
 * A declared type is a `Ty` value. JavaScript's `new`/`instanceof` machinery
 * is replaced by explicit tags: an instance carries the type that made it, and
 * two types are the same type when they are the same declaration. The
 * constructors are specified by the function `Construct`, and `Instantiate`
 * is the step-by-step version with the loops the source has. Rendering
 * (`toString`) is the function `ToStr`.
 */
module Types {
  import opened Wrappers
  import SymbolText

  /** The three classifications `type.primitive` distinguishes by `typeof`. */
  datatype PrimKind = StringKind | NumberKind | BooleanKind

  /**
   * A field coercion that is a plain function rather than a declared type:
   * `type.primitive(K)`, and the `value` functions of IntConst, FloatConst and
   * UUIDConst in lib/symbols.js.
   */
  datatype Validator = Primitive(kind: PrimKind) | IntPattern | FloatPattern | UuidPattern

  /**
   * A compiled format string: literal text, a `{{field}}` substitution, and a
   * `{{?field}}…{{?}}` block emitted only when the field's value is truthy.
   */
  datatype Segment = Text(text: string) | Hole(field: string) | When(field: string, body: seq<Segment>)

  /**
   * How a record type renders: no format (its first field), a format string,
   * or one of the format functions that lib/symbols.js declares.
   */
  datatype Format =
    | Plain
    | Template(segments: seq<Segment>)
    | QuotedIdentifier   // Identifier
    | QualifiedTable     // TableName
    | QuotedString       // StringConst

  /** What a field's value is passed through: a validator or a declared type. */
  datatype Coercion = Check(validator: Validator) | Of(ty: Ty)

  datatype Field = Field(name: string, coercion: Coercion)

  /** A declared type. */
  datatype Ty =
    | Record(name: string, fields: seq<Field>, format: Format)
    | Literal(value: string)
    | Union(name: string, candidates: seq<Ty>)
    | Collection(name: string, child: Ty, surrounds: string, delim: string)

  type RecordTy = t: Ty | t.Record? witness Record("", [], Plain)

  type CollectionTy = t: Ty | t.Collection? witness Collection("", Literal(""), "", ", ")

  /**
   * A JavaScript value. A number is held as the text `String(n)` gives it; a
   * plain object as its entries in the order `for…in` visits them. `Rec`,
   * `Lit` and `Coll` are instances made by a record, literal or collection
   * type; a union makes no instances of its own.
   */
  datatype Value =
    | Str(s: string)
    | Num(text: string)
    | Bool(b: bool)
    | Null
    | Undef
    | Obj(entries: seq<(string, Value)>)
    | Arr(items: seq<Value>)
    | Rec(ty: RecordTy, slots: map<string, Value>)
    | Lit(literal: string)
    | Coll(kind: CollectionTy, items: seq<Value>)

  /** What each kind of thrown error says. */
  datatype Err =
    | ArityError(found: nat, expected: nat)        // "Invalid constructor length"
    | NotAnObject(typeName: string)                 // "Expect constructor argument to be object …"
    | FieldNotFound(key: string, typeName: string)  // "Field … not found in spec for type …"
    | NotPrimitive(kind: PrimKind)                  // "… must be instance of …"
    | NotInteger                                     // "Must be an integer value"
    | NotUuid                                        // "Must be UUID value"
    | LiteralMismatch(literal: string)              // "Must be …"
    | NoMatch(unionName: string, args: seq<Value>)  // "No types matched arguments for union type …"
    | ReferenceError(name: string)                  // a format string names no declared field
    | NoReplace                                      // Identifier's format on a value without `replace`

  function TypeName(t: Ty): string {
    match t
    case Record(name, _, _) => name
    case Literal(value) => "\"" + value + "\""
    case Union(name, _) => name
    case Collection(name, _, _, _) => name
  }

  /**
   * The candidate a union exposes as its property `name`: one property is
   * assigned per candidate, under the candidate's type name, in order, so a
   * later candidate of the same name replaces an earlier one.
   */
  function CandidateNamed(candidates: seq<Ty>, name: string): Option<Ty> {
    NamedBefore(candidates, name, |candidates|)
  }

  /** The last of the first `n` candidates whose type name is `name`. */
  function NamedBefore(candidates: seq<Ty>, name: string, n: nat): Option<Ty>
    requires n <= |candidates|
  {
    if n == 0 then None
    else if TypeName(candidates[n - 1]) == name then Some(candidates[n - 1])
    else NamedBefore(candidates, name, n - 1)
  }

  // ---------------------------------------------------------------------
  // The JavaScript operations the combinators rely on
  // ---------------------------------------------------------------------

  /** `typeof v`. */
  function TypeOf(v: Value): string {
    match v
    case Str(_) => "string"
    case Num(_) => "number"
    case Bool(_) => "boolean"
    case Undef => "undefined"
    case _ => "object"
  }

  /** `typeof v === 'object' && v !== null`. */
  predicate IsObject(v: Value) {
    TypeOf(v) == "object" && !v.Null?
  }

  /** `v.hasOwnProperty(key)` for an object `v`. */
  predicate HasOwn(v: Value, key: string) {
    match v
    case Obj(entries) => exists i | 0 <= i < |entries| :: entries[i].0 == key
    case Arr(items) => key == "length" || exists i | 0 <= i < |items| :: SymbolText.NatText(i) == key
    case Rec(_, slots) => key in slots
    case _ => false
  }

  /**
   * The enumerable members every instance inherits from its type's prototype
   * (`util.extend` assigns them as ordinary properties); their values are
   * functions, which the model does not represent.
   */
  const PrototypeMembers: seq<(string, Value)> := [("inspect", Undef), ("toString", Undef)]

  /** The set fields of a record instance, in declaration order. */
  function OwnSlots(fields: seq<Field>, slots: map<string, Value>): seq<(string, Value)> {
    if fields == [] then []
    else
      var k := fields[0].name;
      (if k in slots then [(k, slots[k])] else []) + OwnSlots(fields[1..], slots)
  }

  /** The key/value pairs `for (var i in v)` visits. */
  function Enumerate(v: Value): seq<(string, Value)> {
    match v
    case Obj(entries) => entries
    case Arr(items) => seq(|items|, i requires 0 <= i < |items| => (SymbolText.NatText(i), items[i]))
    case Rec(t, slots) => OwnSlots(t.fields, slots) + PrototypeMembers
    case Lit(_) => PrototypeMembers
    case Coll(_, _) => PrototypeMembers
    case _ => []
  }

  /** `v instanceof t`. */
  predicate InstanceOf(v: Value, t: Ty) {
    match v
    case Rec(rt, _) => rt == t
    case Lit(x) => t == Literal(x)
    case Coll(ct, _) => ct == t
    case _ => false
  }

  /** JavaScript truthiness. */
  predicate Truthy(v: Value) {
    match v
    case Str(s) => s != ""
    case Num(text) => text != "0" && text != "NaN"
    case Bool(b) => b
    case Null => false
    case Undef => false
    case _ => true
  }

  // ---------------------------------------------------------------------
  // Construction (the `ctor` of lib/type.js and the combinators' constructors)
  // ---------------------------------------------------------------------

  function KindName(k: PrimKind): string {
    match k
    case StringKind => "string"
    case NumberKind => "number"
    case BooleanKind => "boolean"
  }

  /** A field validator applied to one value. */
  function Validate(c: Validator, v: Value): Result<Value, Err> {
    match c
    case Primitive(k) =>
      if TypeOf(v) == KindName(k) then Success(v) else Failure(NotPrimitive(k))
    case IntPattern =>
      if v.Str? && SymbolText.IsIntText(v.s) then Success(v)
      else if v.Num? && SymbolText.IsIntText(v.text) then Success(Str(v.text))
      else Failure(NotInteger)
    case FloatPattern =>
      // FloatConst's validator throws the same message as IntConst's.
      if v.Str? && SymbolText.IsFloatText(v.s) then Success(v)
      else if v.Num? && SymbolText.IsFloatText(v.text) then Success(Str(v.text))
      else Failure(NotInteger)
    case UuidPattern =>
      if v.Str? && SymbolText.IsUuid(v.s) then Success(v) else Failure(NotUuid)
  }

  /** The index of the declared field called `key`, or -1 (`fields[key]` is undefined). */
  function FieldIndex(fields: seq<Field>, key: string): (i: int)
    ensures -1 <= i < |fields|
    ensures 0 <= i ==> fields[i].name == key && forall j | 0 <= j < i :: fields[j].name != key
    ensures (i == -1) == (forall j | 0 <= j < |fields| :: fields[j].name != key)
  {
    if fields == [] then -1
    else if fields[0].name == key then 0
    else
      var j := FieldIndex(fields[1..], key);
      if j < 0 then -1 else j + 1
  }

  /**
   * A single-field record wraps its argument as `{field: arg}` when the
   * argument is not an object that has the field as an own key.
   */
  function RecordArgument(fields: seq<Field>, arg: Value): Value {
    if |fields| == 1 && (!IsObject(arg) || !HasOwn(arg, fields[0].name))
    then Obj([(fields[0].name, arg)])
    else arg
  }

  /** The argument list a collection constructor maps over. */
  function Elements(args: seq<Value>): seq<Value> {
    if |args| == 1 && args[0].Arr? then args[0].items else args
  }

  /** `new t(...args)`, or the error it throws. */
  function Construct(t: Ty, args: seq<Value>): Result<Value, Err>
    decreases t, 3
  {
    match t
    case Record(name, fields, _) =>
      if |fields| == 0 || |args| != 1 then
        Failure(ArityError(|args|, if |fields| == 0 then 0 else 1))
      else
        var arg := RecordArgument(fields, args[0]);
        if !IsObject(arg) then Failure(NotAnObject(name))
        else SetAll(t, Enumerate(arg), map[])
    case Literal(value) =>
      if |args| > 0 && args[0] == Str(value) then Success(Lit(value))
      else Failure(LiteralMismatch(value))
    case Union(_, candidates) =>
      if |args| == 1 && exists i | 0 <= i < |candidates| :: InstanceOf(args[0], candidates[i])
      then Success(args[0])
      else TryCandidates(t, 0, args)
    case Collection(_, _, _, _) =>
      CoerceAll(t, Elements(args), [])
  }

  /**
   * `set(obj, key, value)` for every entry in turn, onto the instance whose
   * fields so far are `slots`; the first error thrown stops construction.
   */
  function SetAll(t: RecordTy, entries: seq<(string, Value)>, slots: map<string, Value>): Result<Value, Err>
    decreases t, 2, |entries|
  {
    if entries == [] then Success(Rec(t, slots))
    else
      var v :- SetField(t, entries[0].0, entries[0].1);
      SetAll(t, entries[1..], slots[entries[0].0 := v])
  }

  /** The value `set` stores for `key`, or the error it throws. */
  function SetField(t: RecordTy, key: string, v: Value): Result<Value, Err>
    decreases t, 1
  {
    var i := FieldIndex(t.fields, key);
    if i < 0 then Failure(FieldNotFound(key, t.name))
    else Coerce(t.fields[i].coercion, v)
  }

  /** `value instanceof c ? value : c(value)`. */
  function Coerce(c: Coercion, v: Value): Result<Value, Err>
    decreases c, 0
  {
    match c
    case Check(validator) => Validate(validator, v)
    case Of(t) => if InstanceOf(v, t) then Success(v) else Construct(t, [v])
  }

  /** The union's candidates from index `i` on, tried in order; the first that does not throw wins. */
  function TryCandidates(u: Ty, i: nat, args: seq<Value>): Result<Value, Err>
    requires u.Union? && i <= |u.candidates|
    decreases u, 1, |u.candidates| - i
  {
    if i == |u.candidates| then Failure(NoMatch(u.name, args))
    else
      match Construct(u.candidates[i], args)
      case Success(v) => Success(v)
      case Failure(_) => TryCandidates(u, i + 1, args)
  }

  /** The collection's elements, each kept if already a child instance and coerced otherwise. */
  function CoerceAll(t: CollectionTy, elements: seq<Value>, done: seq<Value>): Result<Value, Err>
    decreases t, 1, |elements|
  {
    if elements == [] then Success(Coll(t, done))
    else
      var e := elements[0];
      var v :- if InstanceOf(e, t.child) then Success(e) else Construct(t.child, [e]);
      CoerceAll(t, elements[1..], done + [v])
  }

  // ---------------------------------------------------------------------
  // Rendering (`toString`, and JavaScript's `String(v)`)
  // ---------------------------------------------------------------------

  function FieldNames(fields: seq<Field>): (names: seq<string>)
    ensures |names| == |fields| && forall i | 0 <= i < |fields| :: names[i] == fields[i].name
  {
    if fields == [] then [] else [fields[0].name] + FieldNames(fields[1..])
  }

  /** A field's value on an instance: `undefined` when it was never set. */
  function SlotValue(slots: map<string, Value>, name: string): Value {
    if name in slots then slots[name] else Undef
  }

  /** `String(this[name])`, looked up in the precomputed texts of the set fields. */
  function SlotText(texts: map<string, Result<string, Err>>, name: string): Result<string, Err> {
    if name in texts then texts[name] else Success("undefined")
  }

  /** Strings joined by `sep`, stopping at the first element whose conversion throws. */
  function Join(parts: seq<Result<string, Err>>, sep: string): Result<string, Err> {
    if parts == [] then Success("")
    else
      var first :- parts[0];
      if |parts| == 1 then Success(first)
      else
        var rest :- Join(parts[1..], sep);
        Success(first + sep + rest)
  }

  /** `surrounds[0] || ''` and `surrounds[1] || ''`. */
  function Opening(surrounds: string): string {
    if |surrounds| > 0 then surrounds[..1] else ""
  }

  function Closing(surrounds: string): string {
    if |surrounds| > 1 then surrounds[1..2] else ""
  }

  /**
   * A compiled format string applied to the instance's fields. `names` are
   * the template's parameters (the declared field names); a name outside
   * them is an unbound variable and throws when reached.
   */
  function Evaluate(segments: seq<Segment>, names: seq<string>, slots: map<string, Value>,
                    texts: map<string, Result<string, Err>>): Result<string, Err>
    decreases segments
  {
    if segments == [] then Success("")
    else
      var head :- Piece(segments[0], names, slots, texts);
      var rest :- Evaluate(segments[1..], names, slots, texts);
      Success(head + rest)
  }

  /** The text one segment of a format string contributes. */
  function Piece(segment: Segment, names: seq<string>, slots: map<string, Value>,
                 texts: map<string, Result<string, Err>>): Result<string, Err>
    decreases segment
  {
    match segment
    case Text(s) => Success(s)
    case Hole(f) => if f !in names then Failure(ReferenceError(f)) else SlotText(texts, f)
    case When(f, body) =>
      if f !in names then Failure(ReferenceError(f))
      else if Truthy(SlotValue(slots, f)) then Evaluate(body, names, slots, texts)
      else Success("")
  }

  /** A record instance's `toString`, given the texts of its set fields. */
  function RenderRecord(t: RecordTy, slots: map<string, Value>, texts: map<string, Result<string, Err>>): Result<string, Err>
    requires texts.Keys == slots.Keys
  {
    match t.format
    case Plain =>
      if |t.fields| == 0 then Success("")
      else
        var v := SlotValue(slots, t.fields[0].name);
        if v.Undef? || v.Null? then Success("") else SlotText(texts, t.fields[0].name)
    case Template(segments) =>
      Evaluate(segments, FieldNames(t.fields), slots, texts)
    case QuotedIdentifier =>
      var v := SlotValue(slots, "value");
      if !Truthy(v) then Success("")
      else if v.Str? then Success(SymbolText.Quote(v.s, '"'))
      else Failure(NoReplace)
    case QuotedString =>
      var s :- SlotText(texts, "value");
      Success(SymbolText.Quote(s, '\''))
    case QualifiedTable =>
      var ks :- if Truthy(SlotValue(slots, "keyspace")) then SlotText(texts, "keyspace") else Success("");
      var table :- SlotText(texts, "table");
      Success((if ks != "" then ks + "." else "") + table)
  }

  /** `String(v)`: for an instance, its type's rendering. */
  function ToStr(v: Value): Result<string, Err>
    decreases v
  {
    match v
    case Str(s) => Success(s)
    case Num(text) => Success(text)
    case Bool(b) => Success(if b then "true" else "false")
    case Null => Success("null")
    case Undef => Success("undefined")
    case Obj(_) => Success("[object Object]")
    case Arr(items) =>
      Join(seq(|items|, i requires 0 <= i < |items| =>
        if items[i].Null? || items[i].Undef? then Success("") else ToStr(items[i])), ",")
    case Rec(t, slots) =>
      RenderRecord(t, slots, map k | k in slots :: ToStr(slots[k]))
    case Lit(x) => Success(x)
    case Coll(t, items) =>
      var body :- Join(seq(|items|, i requires 0 <= i < |items| =>
        if items[i].Null? || items[i].Undef? then Success("") else ToStr(items[i])), t.delim);
      Success(Opening(t.surrounds) + body + Closing(t.surrounds))
  }

  // ---------------------------------------------------------------------
  // The constructors, step by step
  // ---------------------------------------------------------------------

  /** `new t(...args)`: what the constructor returns, or the error it throws. */
  method Instantiate(t: Ty, args: seq<Value>) returns (r: Result<Value, Err>)
    ensures r == Construct(t, args)
    decreases t, 3
  {
    match t
    case Record(name, fields, _) =>
      if |fields| == 0 || |args| != 1 {
        return Failure(ArityError(|args|, if |fields| == 0 then 0 else 1));
      }
      var arg := RecordArgument(fields, args[0]);
      if !IsObject(arg) {
        return Failure(NotAnObject(name));
      }
      r := Populate(t, Enumerate(arg));
    case Literal(value) =>
      if |args| > 0 && args[0] == Str(value) {
        r := Success(Lit(value));
      } else {
        r := Failure(LiteralMismatch(value));
      }
    case Union(_, _) =>
      r := Dispatch(t, args);
    case Collection(_, _, _, _) =>
      r := MapElements(t, Elements(args));
  }

  /** The loop `for (var i in arg) set(this, i, arg[i])` that fills a new record instance. */
  method Populate(t: RecordTy, entries: seq<(string, Value)>) returns (r: Result<Value, Err>)
    ensures r == SetAll(t, entries, map[])
    decreases t, 2
  {
    var slots: map<string, Value> := map[];
    var i := 0;
    while i < |entries|
      invariant 0 <= i <= |entries|
      invariant SetAll(t, entries, map[]) == SetAll(t, entries[i..], slots)
    {
      var v := Set(t, entries[i].0, entries[i].1);
      if v.Failure? {
        return Failure(v.error);
      }
      slots := slots[entries[i].0 := v.value];
      i := i + 1;
    }
    r := Success(Rec(t, slots));
  }

  /** `set(obj, key, value)`: the value stored for `key`, or the error thrown. */
  method Set(t: RecordTy, key: string, v: Value) returns (r: Result<Value, Err>)
    ensures r == SetField(t, key, v)
    decreases t, 1
  {
    var i := FieldIndex(t.fields, key);
    if i < 0 {
      return Failure(FieldNotFound(key, t.name));
    }
    match t.fields[i].coercion
    case Check(validator) =>
      r := Validate(validator, v);
    case Of(ft) =>
      if InstanceOf(v, ft) {
        r := Success(v);
      } else {
        r := Instantiate(ft, [v]);
      }
  }

  /** The union's constructor: an instance of a candidate is returned as is, otherwise each candidate is tried. */
  method Dispatch(u: Ty, args: seq<Value>) returns (r: Result<Value, Err>)
    requires u.Union?
    ensures r == Construct(u, args)
    decreases u, 2
  {
    var i := 0;
    if |args| == 1 {
      while i < |u.candidates|
        invariant 0 <= i <= |u.candidates|
        invariant forall j | 0 <= j < i :: !InstanceOf(args[0], u.candidates[j])
      {
        if InstanceOf(args[0], u.candidates[i]) {
          return Success(args[0]);
        }
        i := i + 1;
      }
    }
    i := 0;
    while i < |u.candidates|
      invariant 0 <= i <= |u.candidates|
      invariant Construct(u, args) == TryCandidates(u, i, args)
    {
      var attempt := Instantiate(u.candidates[i], args);
      if attempt.Success? {
        return attempt;
      }
      i := i + 1;
    }
    r := Failure(NoMatch(u.name, args));
  }

  /** `vals = args.map(...)`: each element kept if a child instance, coerced otherwise. */
  method MapElements(t: CollectionTy, elements: seq<Value>) returns (r: Result<Value, Err>)
    ensures r == CoerceAll(t, elements, [])
    decreases t, 2
  {
    var vals: seq<Value> := [];
    var i := 0;
    while i < |elements|
      invariant 0 <= i <= |elements|
      invariant CoerceAll(t, elements, []) == CoerceAll(t, elements[i..], vals)
    {
      var e := elements[i];
      var v: Result<Value, Err>;
      if InstanceOf(e, t.child) {
        v := Success(e);
      } else {
        v := Instantiate(t.child, [e]);
      }
      if v.Failure? {
        return Failure(v.error);
      }
      vals := vals + [v.value];
      i := i + 1;
    }
    r := Success(Coll(t, vals));
  }
}
