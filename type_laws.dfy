/**
 * What the combinators of lib/type.js promise, proved about the functions
 * of module Types: the record constructor's argument rules and the fields it
 * stores, the default rendering, the primitive and literal checks, union
 * dispatch and collection construction and rendering.
 */
module TypeLaws {
  import opened Wrappers
  import opened Types

  /** The keys of an object's entries. */
  function Keys(entries: seq<(string, Value)>): set<string> {
    set i | 0 <= i < |entries| :: entries[i].0
  }

  lemma HasOwnObject(entries: seq<(string, Value)>, key: string)
    ensures HasOwn(Obj(entries), key) <==> key in Keys(entries)
  {
    if key in Keys(entries) {
      var i :| 0 <= i < |entries| && entries[i].0 == key;
      assert entries[i].0 == key;
    }
  }

  // ---------------------------------------------------------------------
  // Records
  // ---------------------------------------------------------------------

  /** A record type takes exactly one argument, and a type without fields throws whatever it is given. */
  lemma ArityRule(t: Ty, args: seq<Value>)
    requires t.Record?
    ensures |args| != 1 ==> Construct(t, args) == Failure(ArityError(|args|, if |t.fields| == 0 then 0 else 1))
    ensures |t.fields| == 0 ==> Construct(t, args) == Failure(ArityError(|args|, 0))
  {
  }

  /**
   * For a single-field record, a bare value (or an object without the field
   * as an own key) is treated as `{field: value}`: the result is the record
   * holding only that field, set to the value's coercion.
   */
  lemma BareValueWrapped(t: Ty, v: Value)
    requires t.Record? && |t.fields| == 1
    requires !IsObject(v) || !HasOwn(v, t.fields[0].name)
    ensures Construct(t, [v]) == Construct(t, [Obj([(t.fields[0].name, v)])])
    ensures Construct(t, [v]) ==
      (var stored :- Coerce(t.fields[0].coercion, v); Success(Rec(t, map[t.fields[0].name := stored])))
  {
    var f := t.fields[0].name;
    var arg := Obj([(f, v)]);
    HasOwnObject([(f, v)], f);
    assert [(f, v)][0].0 == f;
    assert RecordArgument(t.fields, v) == arg && RecordArgument(t.fields, arg) == arg;
    assert FieldIndex(t.fields, f) == 0;
    var c := Coerce(t.fields[0].coercion, v);
    assert SetField(t, f, v) == c;
    assert [(f, v)][1..] == [];
    if c.Success? {
      assert SetAll(t, [(f, v)], map[]) == SetAll(t, [], map[f := c.value]);
    }
  }

  /** A record with several fields rejects null and every non-object argument. */
  lemma NonObjectRejected(t: Ty, v: Value)
    requires t.Record? && |t.fields| > 1 && !IsObject(v)
    ensures Construct(t, [v]) == Failure(NotAnObject(t.name))
  {
  }

  /** Setting the entries succeeds exactly when every key names a declared field and every value coerces. */
  lemma {:induction false} SetAllSucceeds(t: RecordTy, entries: seq<(string, Value)>, slots: map<string, Value>)
    ensures SetAll(t, entries, slots).Success? <==>
      forall i | 0 <= i < |entries| :: SetField(t, entries[i].0, entries[i].1).Success?
    decreases |entries|
  {
    if entries != [] {
      var first := SetField(t, entries[0].0, entries[0].1);
      if first.Success? {
        var rest := entries[1..];
        SetAllSucceeds(t, rest, slots[entries[0].0 := first.value]);
        assert forall i | 1 <= i < |entries| :: entries[i] == rest[i - 1];
      }
    }
  }

  /** A key that is not a declared field makes construction throw. */
  lemma UnknownKeyRejected(t: RecordTy, entries: seq<(string, Value)>, slots: map<string, Value>, i: nat)
    requires i < |entries| && FieldIndex(t.fields, entries[i].0) < 0
    ensures SetAll(t, entries, slots).Failure?
  {
    SetAllSucceeds(t, entries, slots);
    assert SetField(t, entries[i].0, entries[i].1).Failure?;
  }

  /**
   * What setting the entries stores: exactly the keys given (besides those
   * already set), and for each key the coercion of the last value given for it.
   */
  lemma {:induction false} SetAllStores(t: RecordTy, entries: seq<(string, Value)>, slots: map<string, Value>, r: Value)
    requires SetAll(t, entries, slots) == Success(r)
    ensures r.Rec? && r.ty == t
    ensures r.slots.Keys == slots.Keys + Keys(entries)
    ensures forall k | k in slots && k !in Keys(entries) :: r.slots[k] == slots[k]
    ensures forall i | 0 <= i < |entries| && entries[i].0 !in Keys(entries[i + 1..]) ::
      SetField(t, entries[i].0, entries[i].1) == Success(r.slots[entries[i].0])
    decreases |entries|
  {
    if entries != [] {
      var k := entries[0].0;
      var v := SetField(t, k, entries[0].1).value;
      var rest := entries[1..];
      SetAllStores(t, rest, slots[k := v], r);
      assert Keys(entries) == {k} + Keys(rest) by {
        assert forall i | 1 <= i < |entries| :: entries[i] == rest[i - 1];
      }
      forall i | 0 <= i < |entries| && entries[i].0 !in Keys(entries[i + 1..])
        ensures SetField(t, entries[i].0, entries[i].1) == Success(r.slots[entries[i].0])
      {
        if i > 0 {
          assert entries[i] == rest[i - 1];
          assert entries[i + 1..] == rest[i..];
        } else {
          assert entries[1..] == rest;
        }
      }
    }
  }

  /**
   * What a record constructor stores when given an object that the
   * single-field rule does not wrap: the given keys and no others, each
   * holding the field coercion of its value.
   */
  lemma StoredFields(t: Ty, entries: seq<(string, Value)>, r: Value)
    requires t.Record? && (|t.fields| > 1 || (|t.fields| == 1 && t.fields[0].name in Keys(entries)))
    requires Construct(t, [Obj(entries)]) == Success(r)
    ensures r.Rec? && r.ty == t && r.slots.Keys == Keys(entries)
    ensures forall i | 0 <= i < |entries| && entries[i].0 !in Keys(entries[i + 1..]) ::
      SetField(t, entries[i].0, entries[i].1) == Success(r.slots[entries[i].0])
  {
    if |t.fields| == 1 {
      HasOwnObject(entries, t.fields[0].name);
    }
    SetAllStores(t, entries, map[], r);
  }

  /** A record constructor that does not throw makes an instance of its own type. */
  lemma RecordInstance(t: Ty, args: seq<Value>, r: Value)
    requires t.Record? && Construct(t, args) == Success(r)
    ensures r.Rec? && r.ty == t
  {
    var arg := RecordArgument(t.fields, args[0]);
    SetAllStores(t, Enumerate(arg), map[], r);
  }

  /**
   * Setting fields depends on the declared fields and not on the type's
   * name or format: two records declaring the same fields store the same
   * slots from the same entries, and fail on the same entries.
   */
  lemma {:induction false} SetAllSameFields(t1: RecordTy, t2: RecordTy, entries: seq<(string, Value)>, slots: map<string, Value>)
    requires t1.fields == t2.fields
    ensures SetAll(t1, entries, slots).Success? <==> SetAll(t2, entries, slots).Success?
    ensures SetAll(t1, entries, slots).Success? ==> (SetAll(t1, entries, slots).value.Rec? &&
      SetAll(t2, entries, slots).value == Rec(t2, SetAll(t1, entries, slots).value.slots))
    decreases |entries|
  {
    if entries != [] {
      var k := entries[0].0;
      assert SetField(t1, k, entries[0].1).Success? <==> SetField(t2, k, entries[0].1).Success?;
      if SetField(t1, k, entries[0].1).Success? {
        assert SetField(t1, k, entries[0].1) == SetField(t2, k, entries[0].1);
        SetAllSameFields(t1, t2, entries[1..], slots[k := SetField(t1, k, entries[0].1).value]);
      }
    }
  }

  /** Two records declaring the same fields accept the same arguments and store the same slots. */
  lemma ConstructSameFields(t1: Ty, t2: Ty, args: seq<Value>)
    requires t1.Record? && t2.Record? && t1.fields == t2.fields
    ensures Construct(t1, args).Success? <==> Construct(t2, args).Success?
    ensures Construct(t1, args).Success? ==> (Construct(t1, args).value.Rec? &&
      Construct(t2, args).value == Rec(t2, Construct(t1, args).value.slots))
  {
    if |t1.fields| > 0 && |args| == 1 {
      var arg := RecordArgument(t1.fields, args[0]);
      if IsObject(arg) {
        SetAllSameFields(t1, t2, Enumerate(arg), map[]);
      }
    }
  }

  /** A value that is already an instance of the field's type is stored unchanged. */
  lemma InstanceKept(t: Ty, v: Value)
    requires InstanceOf(v, t)
    ensures Coerce(Of(t), v) == Success(v)
  {
  }

  /** With no format, a record renders its first field, or '' when that field is undefined or null. */
  lemma DefaultRendering(t: Ty, slots: map<string, Value>)
    requires t.Record? && t.format.Plain? && |t.fields| > 0
    ensures var v := SlotValue(slots, t.fields[0].name);
      ToStr(Rec(t, slots)) == if v.Undef? || v.Null? then Success("") else ToStr(v)
  {
  }

  /**
   * A record with one field and no format, built from a string its field
   * keeps, holds that string and renders back exactly that string.
   */
  lemma PlainRoundTrip(t: Ty, s: string)
    requires t.Record? && t.format.Plain? && |t.fields| == 1
    requires Coerce(t.fields[0].coercion, Str(s)) == Success(Str(s))
    ensures Construct(t, [Str(s)]) == Success(Rec(t, map[t.fields[0].name := Str(s)]))
    ensures ToStr(Rec(t, map[t.fields[0].name := Str(s)])) == Success(s)
  {
    BareValueWrapped(t, Str(s));
    DefaultRendering(t, map[t.fields[0].name := Str(s)]);
  }

  // ---------------------------------------------------------------------
  // Format strings
  // ---------------------------------------------------------------------

  /** A format string renders piecewise: the two halves in order, the first error winning. */
  lemma {:induction false} EvaluateAppend(a: seq<Segment>, b: seq<Segment>, names: seq<string>,
                                          slots: map<string, Value>, texts: map<string, Result<string, Err>>)
    ensures Evaluate(a + b, names, slots, texts) ==
      (var x :- Evaluate(a, names, slots, texts); var y :- Evaluate(b, names, slots, texts); Success(x + y))
    decreases |a|
  {
    if a == [] {
      assert a + b == b;
      var y := Evaluate(b, names, slots, texts);
      if y.Success? {
        assert "" + y.value == y.value;
      }
    } else {
      assert (a + b)[0] == a[0] && (a + b)[1..] == a[1..] + b;
      EvaluateAppend(a[1..], b, names, slots, texts);
      var h := Piece(a[0], names, slots, texts);
      var r := Evaluate(a[1..], names, slots, texts);
      var y := Evaluate(b, names, slots, texts);
      if h.Success? && r.Success? && y.Success? {
        assert h.value + (r.value + y.value) == (h.value + r.value) + y.value;
      }
    }
  }

  lemma EvaluateCons(s: Segment, rest: seq<Segment>, names: seq<string>,
                     slots: map<string, Value>, texts: map<string, Result<string, Err>>)
    ensures Evaluate([s] + rest, names, slots, texts) ==
      (var x :- Piece(s, names, slots, texts); var y :- Evaluate(rest, names, slots, texts); Success(x + y))
  {
    assert ([s] + rest)[0] == s && ([s] + rest)[1..] == rest;
  }

  /** A `{{?field}}…{{?}}` block renders its body when the field is truthy and nothing otherwise. */
  lemma ConditionalBlock(f: string, body: seq<Segment>, names: seq<string>,
                         slots: map<string, Value>, texts: map<string, Result<string, Err>>)
    requires f in names
    ensures Truthy(SlotValue(slots, f)) ==> Evaluate([When(f, body)], names, slots, texts) == Evaluate(body, names, slots, texts)
    ensures !Truthy(SlotValue(slots, f)) ==> Evaluate([When(f, body)], names, slots, texts) == Success("")
  {
    assert [When(f, body)][1..] == [];
    var r := Evaluate(body, names, slots, texts);
    if r.Success? {
      assert r.value + "" == r.value;
    }
    if !Truthy(SlotValue(slots, f)) {
      assert Piece(When(f, body), names, slots, texts) == Success("");
      assert "" + "" == "";
    }
  }

  /** Every field a format names, in a substitution or a block guard, is one of `names`. */
  predicate AllBound(segments: seq<Segment>, names: seq<string>)
    decreases segments
  {
    forall i | 0 <= i < |segments| :: PieceBound(segments[i], names)
  }

  predicate PieceBound(segment: Segment, names: seq<string>)
    decreases segment
  {
    match segment
    case Text(_) => true
    case Hole(f) => f in names
    case When(f, body) => f in names && AllBound(body, names)
  }

  /** The text of field `f` among the field texts `strs`, or "undefined" for a field never set. */
  function FieldText(strs: map<string, string>, f: string): string {
    if f in strs then strs[f] else "undefined"
  }

  /**
   * What a format string renders to when every set field renders to its
   * text in `strs`: literal text as written, each substitution the field's
   * text, each block its body when the guard field is truthy.
   */
  function Filled(segments: seq<Segment>, slots: map<string, Value>, strs: map<string, string>): string
    decreases segments
  {
    if segments == [] then ""
    else if |segments| == 1 then FilledPiece(segments[0], slots, strs)
    else FilledPiece(segments[0], slots, strs) + Filled(segments[1..], slots, strs)
  }

  function FilledPiece(segment: Segment, slots: map<string, Value>, strs: map<string, string>): string
    decreases segment
  {
    match segment
    case Text(s) => s
    case Hole(f) => FieldText(strs, f)
    case When(f, body) => if Truthy(SlotValue(slots, f)) then Filled(body, slots, strs) else ""
  }

  /** A format string whose names are all declared renders as Filled once every set field renders. */
  lemma {:induction false} EvaluateFilled(segments: seq<Segment>, names: seq<string>, slots: map<string, Value>,
                                          texts: map<string, Result<string, Err>>, strs: map<string, string>)
    requires AllBound(segments, names)
    requires texts.Keys == strs.Keys && forall f | f in texts :: texts[f] == Success(strs[f])
    ensures Evaluate(segments, names, slots, texts) == Success(Filled(segments, slots, strs))
    decreases segments
  {
    if segments != [] {
      assert PieceBound(segments[0], names);
      PieceFilled(segments[0], names, slots, texts, strs);
      EvaluateFilled(segments[1..], names, slots, texts, strs);
      if |segments| == 1 {
        var head := FilledPiece(segments[0], slots, strs);
        assert head + "" == head;
      }
    }
  }

  lemma {:induction false} PieceFilled(segment: Segment, names: seq<string>, slots: map<string, Value>,
                                       texts: map<string, Result<string, Err>>, strs: map<string, string>)
    requires PieceBound(segment, names)
    requires texts.Keys == strs.Keys && forall f | f in texts :: texts[f] == Success(strs[f])
    ensures Piece(segment, names, slots, texts) == Success(FilledPiece(segment, slots, strs))
    decreases segment
  {
    match segment
    case Text(_) =>
    case Hole(f) =>
    case When(f, body) =>
      if Truthy(SlotValue(slots, f)) {
        EvaluateFilled(body, names, slots, texts, strs);
      }
  }

  /** Filled renders a format string segment by segment, from the left. */
  lemma {:induction false} FilledSnoc(init: seq<Segment>, s: Segment, slots: map<string, Value>, strs: map<string, string>)
    requires init != []
    ensures Filled(init + [s], slots, strs) == Filled(init, slots, strs) + FilledPiece(s, slots, strs)
    decreases |init|
  {
    var all := init + [s];
    assert all[0] == init[0] && all[1..] == init[1..] + [s];
    if |init| > 1 {
      FilledSnoc(init[1..], s, slots, strs);
      var a, b, c := FilledPiece(init[0], slots, strs), Filled(init[1..], slots, strs), FilledPiece(s, slots, strs);
      assert a + (b + c) == (a + b) + c;
    }
  }

  /**
   * A record with a format string renders Filled: its text, each field's
   * text at that field's substitution, blocks kept exactly when their guard
   * field is truthy.
   */
  lemma TemplateRendering(t: Ty, slots: map<string, Value>, strs: map<string, string>)
    requires t.Record? && t.format.Template? && AllBound(t.format.segments, FieldNames(t.fields))
    requires slots.Keys == strs.Keys && forall f | f in slots :: ToStr(slots[f]) == Success(strs[f])
    ensures ToStr(Rec(t, slots)) == Success(Filled(t.format.segments, slots, strs))
  {
    var texts := map k | k in slots :: ToStr(slots[k]);
    EvaluateFilled(t.format.segments, FieldNames(t.fields), slots, texts, strs);
  }

  /** A substitution naming no declared field throws, whatever the instance holds. */
  lemma UnboundNameThrows(f: string, rest: seq<Segment>, names: seq<string>,
                          slots: map<string, Value>, texts: map<string, Result<string, Err>>)
    requires f !in names
    ensures Evaluate([Hole(f)] + rest, names, slots, texts) == Failure(ReferenceError(f))
  {
    assert ([Hole(f)] + rest)[0] == Hole(f);
  }

  // ---------------------------------------------------------------------
  // primitive and literal
  // ---------------------------------------------------------------------

  /**
   * `primitive(String)` keeps exactly the strings, `primitive(Number)` the
   * numbers and `primitive(Boolean)` the booleans; every other value, null and
   * objects included, makes it throw.
   */
  lemma PrimitiveCheck(v: Value)
    ensures Validate(Primitive(StringKind), v) == if v.Str? then Success(v) else Failure(NotPrimitive(StringKind))
    ensures Validate(Primitive(NumberKind), v) == if v.Num? then Success(v) else Failure(NotPrimitive(NumberKind))
    ensures Validate(Primitive(BooleanKind), v) == if v.Bool? then Success(v) else Failure(NotPrimitive(BooleanKind))
  {
  }

  /** `literal(x)` accepts exactly the string x as its first argument, and its instance renders x. */
  lemma LiteralCheck(x: string, args: seq<Value>)
    ensures Construct(Literal(x), args).Success? <==> |args| > 0 && args[0] == Str(x)
    ensures Construct(Literal(x), args).Success? ==> Construct(Literal(x), args).value == Lit(x)
    ensures ToStr(Lit(x)) == Success(x)
  {
  }

  // ---------------------------------------------------------------------
  // union
  // ---------------------------------------------------------------------

  /** Candidate `j` is the first, in declaration order, whose constructor accepts `args`, and it returns `r`. */
  predicate FirstAccepting(candidates: seq<Ty>, args: seq<Value>, j: int, r: Value) {
    0 <= j < |candidates| && Construct(candidates[j], args) == Success(r) &&
    forall k | 0 <= k < j :: Construct(candidates[k], args).Failure?
  }

  lemma {:induction false} TryCandidatesFirst(u: Ty, i: nat, args: seq<Value>, r: Value)
    requires u.Union? && i <= |u.candidates|
    requires forall k | 0 <= k < i :: Construct(u.candidates[k], args).Failure?
    ensures TryCandidates(u, i, args) == Success(r) <==> exists j :: FirstAccepting(u.candidates, args, j, r)
    ensures TryCandidates(u, i, args).Failure? ==> TryCandidates(u, i, args) == Failure(NoMatch(u.name, args))
    decreases |u.candidates| - i
  {
    if i == |u.candidates| {
    } else if Construct(u.candidates[i], args).Success? {
      if Construct(u.candidates[i], args) == Success(r) {
        assert FirstAccepting(u.candidates, args, i, r);
      }
    } else {
      TryCandidatesFirst(u, i + 1, args, r);
    }
  }

  /**
   * Union dispatch: one argument that is already an instance of a candidate
   * is returned unchanged; otherwise the result is the first candidate, in
   * declaration order, whose constructor accepts the arguments, and when none
   * does the union throws NoMatch.
   */
  lemma UnionDispatch(u: Ty, args: seq<Value>, r: Value)
    requires u.Union?
    ensures (|args| == 1 && exists i | 0 <= i < |u.candidates| :: InstanceOf(args[0], u.candidates[i])) ==>
      Construct(u, args) == Success(args[0])
    ensures !(|args| == 1 && exists i | 0 <= i < |u.candidates| :: InstanceOf(args[0], u.candidates[i])) ==>
      (Construct(u, args) == Success(r) <==> exists j :: FirstAccepting(u.candidates, args, j, r))
    ensures !(|args| == 1 && exists i | 0 <= i < |u.candidates| :: InstanceOf(args[0], u.candidates[i])) ==>
      (Construct(u, args).Failure? <==> forall j | 0 <= j < |u.candidates| :: Construct(u.candidates[j], args).Failure?)
    ensures Construct(u, args).Failure? ==> Construct(u, args) == Failure(NoMatch(u.name, args))
  {
    TryCandidatesFirst(u, 0, args, r);
    if !(|args| == 1 && exists i | 0 <= i < |u.candidates| :: InstanceOf(args[0], u.candidates[i])) {
      if Construct(u, args).Success? {
        var s := Construct(u, args).value;
        TryCandidatesFirst(u, 0, args, s);
        var j :| FirstAccepting(u.candidates, args, j, s);
        assert Construct(u.candidates[j], args).Success?;
      } else if !forall j | 0 <= j < |u.candidates| :: Construct(u.candidates[j], args).Failure? {
        var j :| 0 <= j < |u.candidates| && Construct(u.candidates[j], args).Success?;
        FirstExists(u.candidates, args, j);
        var j', s :| FirstAccepting(u.candidates, args, j', s);
        TryCandidatesFirst(u, 0, args, s);
      }
    }
  }

  /**
   * A union of records that does not return its argument returns an
   * instance of the first candidate that accepts the arguments.
   */
  lemma RecordUnionChoice(u: Ty, args: seq<Value>, r: Value)
    requires u.Union? && forall k | 0 <= k < |u.candidates| :: u.candidates[k].Record?
    requires Construct(u, args) == Success(r)
    requires !(|args| == 1 && exists i | 0 <= i < |u.candidates| :: InstanceOf(args[0], u.candidates[i]))
    ensures exists k :: FirstAccepting(u.candidates, args, k, r) && r.Rec? && r.ty == u.candidates[k]
  {
    UnionDispatch(u, args, r);
    var k :| FirstAccepting(u.candidates, args, k, r);
    RecordInstance(u.candidates[k], args, r);
  }

  /** The first candidate wins whenever it accepts the arguments. */
  lemma FirstCandidateWins(u: Ty, args: seq<Value>)
    requires u.Union? && |u.candidates| > 0 && Construct(u.candidates[0], args).Success?
    requires !(|args| == 1 && exists i | 0 <= i < |u.candidates| :: InstanceOf(args[0], u.candidates[i]))
    ensures Construct(u, args) == Construct(u.candidates[0], args)
  {
    var r := Construct(u.candidates[0], args).value;
    assert FirstAccepting(u.candidates, args, 0, r);
    UnionDispatch(u, args, r);
  }

  /**
   * A record candidate without fields never constructs, so the only
   * instance of it a union of records returns is one it was handed.
   */
  lemma FieldlessNeverChosen(u: Ty, args: seq<Value>, r: Value, j: nat)
    requires u.Union? && forall k | 0 <= k < |u.candidates| :: u.candidates[k].Record?
    requires j < |u.candidates| && |u.candidates[j].fields| == 0
    requires Construct(u, args) == Success(r)
    ensures r.Rec? && r.ty == u.candidates[j] ==> |args| == 1 && r == args[0]
  {
    UnionDispatch(u, args, r);
    if !(|args| == 1 && exists i | 0 <= i < |u.candidates| :: InstanceOf(args[0], u.candidates[i])) {
      RecordUnionChoice(u, args, r);
      var k :| FirstAccepting(u.candidates, args, k, r) && r.Rec? && r.ty == u.candidates[k];
      ArityRule(u.candidates[k], args);
    }
  }

  /**
   * Of two record candidates declaring the same fields, the later one is
   * never the one a union chooses: whatever it accepts, the earlier
   * accepts first; the only instance of it returned is one handed in.
   */
  lemma ShadowedNeverChosen(u: Ty, args: seq<Value>, r: Value, i: nat, j: nat)
    requires u.Union? && forall k | 0 <= k < |u.candidates| :: u.candidates[k].Record?
    requires i < j < |u.candidates| && u.candidates[i].fields == u.candidates[j].fields
    requires forall k | 0 <= k < j :: u.candidates[k] != u.candidates[j]
    requires Construct(u, args) == Success(r)
    ensures r.Rec? && r.ty == u.candidates[j] ==> |args| == 1 && r == args[0]
  {
    UnionDispatch(u, args, r);
    if !(|args| == 1 && exists i | 0 <= i < |u.candidates| :: InstanceOf(args[0], u.candidates[i])) {
      RecordUnionChoice(u, args, r);
      var k :| FirstAccepting(u.candidates, args, k, r) && r.Rec? && r.ty == u.candidates[k];
      ConstructSameFields(u.candidates[i], u.candidates[j], args);
    }
  }

  /** If some candidate accepts the arguments, a first one does. */
  lemma {:induction false} FirstExists(candidates: seq<Ty>, args: seq<Value>, j: int)
    requires 0 <= j < |candidates| && Construct(candidates[j], args).Success?
    ensures exists j', s :: FirstAccepting(candidates, args, j', s)
    decreases j
  {
    if forall k | 0 <= k < j :: Construct(candidates[k], args).Failure? {
      assert FirstAccepting(candidates, args, j, Construct(candidates[j], args).value);
    } else {
      var k :| 0 <= k < j && Construct(candidates[k], args).Success?;
      FirstExists(candidates, args, k);
    }
  }

  /** A candidate whose type name no other candidate shares is exposed on the union under that name. */
  lemma CandidateByName(candidates: seq<Ty>, i: nat)
    requires i < |candidates|
    requires forall j | 0 <= j < |candidates| && j != i :: TypeName(candidates[j]) != TypeName(candidates[i])
    ensures CandidateNamed(candidates, TypeName(candidates[i])) == Some(candidates[i])
  {
    NamedAt(candidates, TypeName(candidates[i]), i, |candidates|);
  }

  /** `CandidateByName` among the first `n` candidates, by induction on `n`. */
  lemma {:induction false} NamedAt(candidates: seq<Ty>, name: string, i: nat, n: nat)
    requires i < n <= |candidates| && TypeName(candidates[i]) == name
    requires forall j | i < j < n :: TypeName(candidates[j]) != name
    ensures NamedBefore(candidates, name, n) == Some(candidates[i])
    decreases n
  {
    if i != n - 1 {
      assert TypeName(candidates[n - 1]) != name;
      NamedAt(candidates, name, i, n - 1);
    }
  }

  // ---------------------------------------------------------------------
  // collection
  // ---------------------------------------------------------------------

  /** Element `e` as a collection stores it: unchanged when a child instance, constructed otherwise. */
  predicate StoredElement(child: Ty, e: Value, stored: Value) {
    if InstanceOf(e, child) then stored == e else Construct(child, [e]) == Success(stored)
  }

  /**
   * A collection instance holds one element per argument, in order, each
   * kept or coerced into the child type; construction succeeds exactly when
   * every element that is not a child instance can be constructed.
   */
  lemma {:induction false} CollectionElements(t: CollectionTy, elements: seq<Value>, done: seq<Value>)
    ensures CoerceAll(t, elements, done).Success? <==>
      forall i | 0 <= i < |elements| :: InstanceOf(elements[i], t.child) || Construct(t.child, [elements[i]]).Success?
    ensures CoerceAll(t, elements, done).Success? ==>
      var r := CoerceAll(t, elements, done).value;
      r.Coll? && r.kind == t && |r.items| == |done| + |elements| && r.items[..|done|] == done &&
      forall i | 0 <= i < |elements| :: StoredElement(t.child, elements[i], r.items[|done| + i])
    decreases |elements|
  {
    if elements != [] {
      var e := elements[0];
      var first := if InstanceOf(e, t.child) then Success(e) else Construct(t.child, [e]);
      if first.Success? {
        var rest := elements[1..];
        CollectionElements(t, rest, done + [first.value]);
        assert forall i | 1 <= i < |elements| :: elements[i] == rest[i - 1];
        if CoerceAll(t, elements, done).Success? {
          var r := CoerceAll(t, elements, done).value;
          assert r.items[..|done| + 1][..|done|] == r.items[..|done|];
          forall i | 0 <= i < |elements| ensures StoredElement(t.child, elements[i], r.items[|done| + i]) {
            if i == 0 {
              assert r.items[|done|] == (done + [first.value])[|done|];
            } else {
              assert |done + [first.value]| + (i - 1) == |done| + i;
            }
          }
        }
      }
    }
  }

  /** The collection constructor maps over the elements of a single array argument, or over the argument list. */
  lemma CollectionArguments(t: Ty, args: seq<Value>)
    requires t.Collection?
    ensures |args| == 1 && args[0].Arr? ==> Construct(t, args) == CoerceAll(t, args[0].items, [])
    ensures !(|args| == 1 && args[0].Arr?) ==> Construct(t, args) == CoerceAll(t, args, [])
  {
  }

  /** Texts joined by `sep`. */
  function Joined(parts: seq<string>, sep: string): string {
    if parts == [] then ""
    else if |parts| == 1 then parts[0]
    else parts[0] + sep + Joined(parts[1..], sep)
  }

  /** The rendered elements of a collection, when each renders without throwing. */
  function ItemTexts(items: seq<Value>): seq<Result<string, Err>> {
    seq(|items|, i requires 0 <= i < |items| =>
      if items[i].Null? || items[i].Undef? then Success("") else ToStr(items[i]))
  }

  lemma {:induction false} JoinSucceeds(parts: seq<Result<string, Err>>, texts: seq<string>, sep: string)
    requires |parts| == |texts| && forall i | 0 <= i < |parts| :: parts[i] == Success(texts[i])
    ensures Join(parts, sep) == Success(Joined(texts, sep))
    decreases |parts|
  {
    if |parts| > 1 {
      JoinSucceeds(parts[1..], texts[1..], sep);
    }
  }

  /**
   * A collection renders its first bracket, its elements' texts joined by its
   * delimiter, then its second bracket; an empty one renders the brackets only.
   */
  lemma CollectionRendering(t: CollectionTy, items: seq<Value>, texts: seq<string>)
    requires |texts| == |items| && forall i | 0 <= i < |items| :: ItemTexts(items)[i] == Success(texts[i])
    ensures ToStr(Coll(t, items)) == Success(Opening(t.surrounds) + Joined(texts, t.delim) + Closing(t.surrounds))
  {
    JoinSucceeds(ItemTexts(items), texts, t.delim);
    assert ItemTexts(items) == seq(|items|, i requires 0 <= i < |items| =>
      if items[i].Null? || items[i].Undef? then Success("") else ToStr(items[i]));
  }

  /** The brackets are the first two characters of `surrounds`, each '' when missing. */
  lemma Brackets(a: char, b: char)
    ensures Opening([a, b]) == [a] && Closing([a, b]) == [b]
    ensures Opening("") == "" && Closing("") == ""
  {
  }
}
