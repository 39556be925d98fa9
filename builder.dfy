/**
 * The fluent builders of lib/builder.js. `builderFromType(t)` gives, for a
 * record type, one accessor per declared field, and for a collection type a
 * `value` method that appends elements; `build` finalises the builder (and
 * every nested builder) into an instance by calling the type, and
 * `toString` renders that instance.
 *
 * A builder is an object of class `Builder`. What a builder is for is its
 * `target`: the field coercion it was made from (`Of(t)` for a declared
 * type, `Check(v)` for a validator function, whose builder has no accessors).
 * The `__name__` properties an accessor writes are the map `slots`, and the
 * order in which they were first written is `order` (the order `for…in`
 * visits them); the `__values__` array of a collection builder is `values`.
 * A slot or value holds either a value or a nested builder, whose `end()` is
 * `parent`.
 */
module Builders {
  import opened Wrappers
  import opened Types
  import TypeLaws

  /** A `__name__` property or an element of `__values__`: a value, or a nested builder. */
  datatype Slot = Stored(value: Value) | Nested(child: Builder)

  // ---------------------------------------------------------------------
  // Targets
  // ---------------------------------------------------------------------

  /** The target is a record type, and `name` one of its fields: the builder has an accessor `name`. */
  predicate IsField(target: Coercion, name: string) {
    target.Of? && target.ty.Record? && FieldIndex(target.ty.fields, name) >= 0
  }

  /** `fields[name]`: what the accessor `name` coerces through, and what its nested builder targets. */
  function FieldCoercion(target: Coercion, name: string): Coercion
    requires IsField(target, name)
  {
    target.ty.fields[FieldIndex(target.ty.fields, name)].coercion
  }

  /** The target is a collection type: the builder has the `value` method. */
  predicate IsCollection(target: Coercion) {
    target.Of? && target.ty.Collection?
  }

  /**
   * `transform.call(this, value)` in `setter`, and `t(args)` in `build`:
   * the field's type or validator called on the value, with no `instanceof`
   * shortcut.
   */
  function Transform(c: Coercion, v: Value): Result<Value, Err> {
    match c
    case Check(validator) => Validate(validator, v)
    case Of(t) => Construct(t, [v])
  }

  /** How deeply builders can nest below a builder for this target. */
  function Height(c: Coercion): nat
    decreases c, 2
  {
    match c
    case Check(_) => 0
    case Of(t) => TyHeight(t)
  }

  function TyHeight(t: Ty): nat
    decreases t, 1
  {
    match t
    case Record(_, _, _) => 1 + FieldsHeight(t, 0)
    case Collection(_, child, _, _) => 1 + TyHeight(child)
    case _ => 0
  }

  function FieldsHeight(t: Ty, i: nat): nat
    requires t.Record? && i <= |t.fields|
    decreases t, 0, |t.fields| - i
  {
    if i == |t.fields| then 0
    else
      var h := Height(t.fields[i].coercion);
      var rest := FieldsHeight(t, i + 1);
      if h < rest then rest else h
  }

  lemma {:induction false} FieldsHeightBound(t: Ty, i: nat, j: nat)
    requires t.Record? && i <= j < |t.fields|
    ensures Height(t.fields[j].coercion) <= FieldsHeight(t, i)
    decreases j - i
  {
    if i < j {
      FieldsHeightBound(t, i + 1, j);
    }
  }

  /** A nested builder for a field targets something strictly lower than its parent. */
  lemma FieldLower(target: Coercion, name: string)
    requires IsField(target, name)
    ensures Height(FieldCoercion(target, name)) < Height(target)
  {
    FieldsHeightBound(target.ty, 0, FieldIndex(target.ty.fields, name));
  }

  // ---------------------------------------------------------------------
  // Builders
  // ---------------------------------------------------------------------

  class Builder {
    /** The coercion this builder was derived from. */
    const target: Coercion
    /** What `end()` returns: the builder that created this one, if any. */
    const parent: Builder?
    /** The fields set or descended into, in the order they were first written. */
    var order: seq<string>
    var slots: map<string, Slot>
    /** A collection builder's `__values__`. */
    var values: seq<Slot>

    /**
     * The builder's shape: `order` lists the slots once each, only declared
     * fields have slots, only a collection builder has values, and every
     * nested builder was created by this one for the field's coercion (or the
     * collection's child type) and is itself well formed.
     */
    ghost predicate Valid()
      reads *
      decreases Height(target)
    {
      (forall k | k in slots :: k in order) &&
      (forall i | 0 <= i < |order| :: order[i] in slots) &&
      (forall i, j | 0 <= i < j < |order| :: order[i] != order[j]) &&
      (forall k | k in slots :: IsField(target, k)) &&
      (values != [] ==> IsCollection(target)) &&
      (forall k | k in slots && slots[k].Nested? ::
        var c := slots[k].child;
        c.parent == this && c.target == FieldCoercion(target, k) &&
        Height(c.target) < Height(target) && c.Valid()) &&
      (forall i | 0 <= i < |values| && values[i].Nested? ::
        var c := values[i].child;
        c.parent == this && c.target == Of(target.ty.child) &&
        Height(c.target) < Height(target) && c.Valid())
    }

    /** Nothing set, descended or appended yet. */
    predicate Empty()
      reads this
    {
      order == [] && slots == map[] && values == []
    }

    /** `bldr()` or `b()`: a fresh builder for `target`, whose `end()` is `parent`. */
    constructor (target: Coercion, parent: Builder?)
      ensures this.target == target && this.parent == parent
      ensures Empty() && Valid()
    {
      this.target := target;
      this.parent := parent;
      order := [];
      slots := map[];
      values := [];
    }

    /**
     * The accessor `name(...)` of a record builder: with no arguments it
     * descends into the field, with arguments it sets the field from the
     * first one.
     */
    method Field(name: string, args: seq<Value>) returns (r: Result<Builder, Err>)
      requires Valid() && IsField(target, name)
      modifies this
      ensures Valid()
      ensures forall x: Builder | old(allocated(x)) && old(x.Valid()) :: x.Valid()
      ensures values == old(values)
      ensures |args| == 0 && old(name in slots && slots[name].Nested?) ==>
        r == Success(old(slots[name].child)) && order == old(order) && slots == old(slots)
      ensures |args| == 0 && !old(name in slots && slots[name].Nested?) ==>
        r.Success? && fresh(r.value) && r.value.target == FieldCoercion(target, name) &&
        r.value.parent == this && r.value.Empty() &&
        order == Written(old(order), name) && slots == old(slots)[name := Nested(r.value)]
      ensures |args| > 0 && Transform(FieldCoercion(target, name), args[0]).Success? ==>
        r == Success(this) && order == Written(old(order), name) &&
        slots == old(slots)[name := Stored(Transform(FieldCoercion(target, name), args[0]).value)]
      ensures |args| > 0 && Transform(FieldCoercion(target, name), args[0]).Failure? ==>
        r == Failure(Transform(FieldCoercion(target, name), args[0]).error) && order == old(order) && slots == old(slots)
    {
      if |args| == 0 {
        var c := Descend(name);
        r := Success(c);
      } else {
        r := Set(name, args[0]);
      }
    }

    /**
     * The accessor called with no arguments: a nested builder already in
     * the slot is returned as it is; otherwise a fresh one for the field's
     * coercion, whose `end()` is this builder, replaces whatever the slot
     * held.
     */
    method Descend(name: string) returns (c: Builder)
      requires Valid() && IsField(target, name)
      modifies this
      ensures Valid()
      ensures forall x: Builder | old(allocated(x)) && old(x.Valid()) :: x.Valid()
      ensures values == old(values)
      ensures old(name in slots && slots[name].Nested?) ==>
        c == old(slots[name].child) && order == old(order) && slots == old(slots)
      ensures !old(name in slots && slots[name].Nested?) ==>
        fresh(c) && c.target == FieldCoercion(target, name) && c.parent == this && c.Empty() &&
        order == Written(old(order), name) && slots == old(slots)[name := Nested(c)]
    {
      FieldLower(target, name);
      if name in slots && slots[name].Nested? {
        c := slots[name].child;
      } else {
        c := new Builder(FieldCoercion(target, name), this);
        order := Written(order, name);
        slots := slots[name := Nested(c)];
        EmptyValid(c);
        LowerStillValid(this);
        SlotWrittenValid(this, old(order), old(slots), name);
        OthersStillValid(this);
      }
    }

    /**
     * `setter('__name__', fields[name])`: the value passed through the
     * field's coercion is stored in the slot, and the builder itself is
     * returned; when the coercion throws, nothing changes.
     */
    method Set(name: string, v: Value) returns (r: Result<Builder, Err>)
      requires Valid() && IsField(target, name)
      modifies this
      ensures Valid()
      ensures forall x: Builder | old(allocated(x)) && old(x.Valid()) :: x.Valid()
      ensures values == old(values)
      ensures Transform(FieldCoercion(target, name), v).Success? ==>
        r == Success(this) && order == Written(old(order), name) &&
        slots == old(slots)[name := Stored(Transform(FieldCoercion(target, name), v).value)]
      ensures Transform(FieldCoercion(target, name), v).Failure? ==>
        r == Failure(Transform(FieldCoercion(target, name), v).error) && order == old(order) && slots == old(slots)
    {
      var x := Transform(FieldCoercion(target, name), v);
      if x.Failure? {
        return Failure(x.error);
      }
      order := Written(order, name);
      slots := slots[name := Stored(x.value)];
      r := Success(this);
      FieldLower(target, name);
      LowerStillValid(this);
      SlotWrittenValid(this, old(order), old(slots), name);
      OthersStillValid(this);
    }

    /**
     * `value(...)` of a collection builder. With arguments, the collection's
     * child type is called on them and the instance appended, and the
     * builder itself is returned; when the child type throws, nothing
     * changes. With no arguments a fresh builder for the child type, whose
     * `end()` is this builder, is appended and returned.
     */
    method Append(args: seq<Value>) returns (r: Result<Builder, Err>)
      requires Valid() && IsCollection(target)
      modifies this
      ensures Valid()
      ensures forall x: Builder | old(allocated(x)) && old(x.Valid()) :: x.Valid()
      ensures order == old(order) && slots == old(slots)
      ensures |args| == 0 ==>
        r.Success? && fresh(r.value) && r.value.target == Of(target.ty.child) &&
        r.value.parent == this && r.value.Empty() && values == old(values) + [Nested(r.value)]
      ensures |args| > 0 && Construct(target.ty.child, args).Success? ==>
        r == Success(this) && values == old(values) + [Stored(Construct(target.ty.child, args).value)]
      ensures |args| > 0 && Construct(target.ty.child, args).Failure? ==>
        r == Failure(Construct(target.ty.child, args).error) && values == old(values)
    {
      if |args| > 0 {
        var x := Instantiate(target.ty.child, args);
        if x.Failure? {
          return Failure(x.error);
        }
        values := values + [Stored(x.value)];
        r := Success(this);
      } else {
        var c := new Builder(Of(target.ty.child), this);
        values := values + [Nested(c)];
        EmptyValid(c);
        r := Success(c);
      }
      assert Height(target) == 1 + Height(Of(target.ty.child));
      LowerStillValid(this);
      OthersStillValid(this);
    }

    /** `end()` of a nested builder: the builder that created it. */
    method End() returns (p: Builder)
      requires parent != null
      ensures p == parent
    {
      p := parent;
    }

    /** `toString()`: the built instance rendered, or the error building or rendering throws. */
    method ToString() returns (r: Result<string, Err>)
      requires Valid()
      ensures Built(this).Failure? ==> r == Failure(Built(this).error)
      ensures Built(this).Success? ==> r == ToStr(Built(this).value)
    {
      var v := Build();
      if v.Failure? {
        return Failure(v.error);
      }
      r := ToStr(v.value);
    }

    /**
     * `tap()` with its default callback: the builder is rendered (the text
     * goes to the console) and returned, so it throws exactly when building
     * or rendering throws.
     */
    method Tap() returns (r: Result<Builder, Err>)
      requires Valid()
      ensures Built(this).Failure? ==> r == Failure(Built(this).error)
      ensures Built(this).Success? && ToStr(Built(this).value).Failure? ==> r == Failure(ToStr(Built(this).value).error)
      ensures Built(this).Success? && ToStr(Built(this).value).Success? ==> r == Success(this)
    {
      var s := ToString();
      if s.Failure? {
        return Failure(s.error);
      }
      r := Success(this);
    }

    /** `__build()`: the instance the builder makes, or the error thrown. */
    method Build() returns (r: Result<Value, Err>)
      requires Valid()
      ensures r == Built(this)
      decreases Height(target), 2
    {
      if IsCollection(target) {
        var items := Finalise(values, Height(target));
        if items.Failure? {
          return Failure(items.error);
        }
        r := Instantiate(target.ty, [Arr(items.value)]);
      } else {
        var vals := Finalise(Props(order, slots), Height(target));
        if vals.Failure? {
          return Failure(vals.error);
        }
        var arg := Obj(Pairs(order, vals.value));
        match target {
          case Check(validator) =>
            r := Validate(validator, arg);
          case Of(t) =>
            r := Instantiate(t, [arg]);
        }
      }
    }
  }

  /** `order` after the field `name` is written: a property keeps the place it was first given. */
  function Written(order: seq<string>, name: string): (r: seq<string>)
    ensures name in r && forall k | k in order :: k in r
  {
    if name in order then order else order + [name]
  }

  /**
   * The builders up to height `h` that were well formed are still well
   * formed, when every builder either kept its fields, or is well formed, or
   * lies higher than all of them.
   */
  twostate lemma {:induction false} StillValid(h: nat)
    requires forall y: Builder | old(allocated(y)) ::
      (y.order == old(y.order) && y.slots == old(y.slots) && y.values == old(y.values)) ||
      y.Valid() || h < Height(y.target)
    ensures forall x: Builder | old(allocated(x)) && old(x.Valid()) && Height(x.target) <= h :: x.Valid()
    decreases h
  {
    if h > 0 {
      StillValid(h - 1);
    }
    forall x: Builder | old(allocated(x)) && old(x.Valid()) && Height(x.target) <= h
      ensures x.Valid()
    {
      if !x.Valid() {
        assert x.slots == old(x.slots) && x.values == old(x.values);
      }
    }
  }

  /** The builders strictly below `b` that were well formed still are, when only the fields of `b` changed. */
  twostate lemma LowerStillValid(b: Builder)
    requires Height(b.target) > 0
    requires forall y: Builder | old(allocated(y)) && y != b ::
      y.order == old(y.order) && y.slots == old(y.slots) && y.values == old(y.values)
    ensures forall x: Builder | old(allocated(x)) && old(x.Valid()) && Height(x.target) < Height(b.target) :: x.Valid()
  {
    StillValid(Height(b.target) - 1);
  }

  /**
   * A record builder is well formed after one slot is written, when its
   * slots before were well formed and every nested builder it now holds
   * belongs to it, lies lower and is well formed.
   */
  lemma SlotWrittenValid(b: Builder, order0: seq<string>, slots0: map<string, Slot>, name: string)
    requires IsField(b.target, name) && name in b.slots && b.values == []
    requires b.order == Written(order0, name) && b.slots == slots0[name := b.slots[name]]
    requires (forall k | k in slots0 :: k in order0) && forall i | 0 <= i < |order0| :: order0[i] in slots0
    requires forall i, j | 0 <= i < j < |order0| :: order0[i] != order0[j]
    requires forall k | k in slots0 :: IsField(b.target, k)
    requires forall k | k in b.slots && b.slots[k].Nested? ::
      (b.slots[k].child.parent == b && b.slots[k].child.target == FieldCoercion(b.target, k) &&
       Height(b.slots[k].child.target) < Height(b.target) && b.slots[k].child.Valid())
    ensures b.Valid()
  {
  }

  /** A builder with nothing set, descended or appended is well formed. */
  lemma EmptyValid(b: Builder)
    requires b.Empty()
    ensures b.Valid()
  {
  }

  /** Every builder that was well formed still is, when only the fields of `b` changed and `b` is well formed. */
  twostate lemma OthersStillValid(b: Builder)
    requires b.Valid()
    requires forall y: Builder | old(allocated(y)) && y != b ::
      y.order == old(y.order) && y.slots == old(y.slots) && y.values == old(y.values)
    ensures forall x: Builder | old(allocated(x)) && old(x.Valid()) :: x.Valid()
  {
    forall x: Builder | old(allocated(x)) && old(x.Valid()) ensures x.Valid() {
      StillValid(Height(x.target));
    }
  }

  // ---------------------------------------------------------------------
  // What `build` computes
  // ---------------------------------------------------------------------

  /** The slots of a record builder, taken in `order`. */
  function Props(order: seq<string>, slots: map<string, Slot>): (ss: seq<Slot>)
    requires forall k | k in order :: k in slots
    ensures |ss| == |order| && forall j | 0 <= j < |order| :: ss[j] == slots[order[j]]
  {
    seq(|order|, j requires 0 <= j < |order| => slots[order[j]])
  }

  /** The entries of the object `build` passes to a record type: each key with its value. */
  function Pairs(keys: seq<string>, vals: seq<Value>): (es: seq<(string, Value)>)
    requires |keys| == |vals|
    ensures |es| == |keys| && forall j | 0 <= j < |keys| :: es[j] == (keys[j], vals[j])
  {
    seq(|keys|, j requires 0 <= j < |keys| => (keys[j], vals[j]))
  }

  /** Every nested builder among `ss` is well formed and lies below height `h`. */
  ghost predicate Lower(ss: seq<Slot>, h: nat)
    reads *
  {
    forall j | 0 <= j < |ss| && ss[j].Nested? :: ss[j].child.Valid() && Height(ss[j].child.target) < h
  }

  /**
   * `__build()`: the value each slot or element stands for (nested builders
   * finalised first), passed to the target as a single object (a record,
   * keyed by field name in `order`) or a single array (a collection).
   */
  ghost function Built(b: Builder): Result<Value, Err>
    reads *
    requires b.Valid()
    decreases Height(b.target) + 1, 2
  {
    var h := Height(b.target);
    if IsCollection(b.target) then
      var items :- BuiltAll(b.values, h, 0, []);
      Construct(b.target.ty, [Arr(items)])
    else
      var vals :- BuiltAll(Props(b.order, b.slots), h, 0, []);
      Transform(b.target, Obj(Pairs(b.order, vals)))
  }

  /** What `build` makes of a slot or element: a stored value as it is, a nested builder's instance. */
  ghost function SlotResult(s: Slot): Result<Value, Err>
    reads *
    requires s.Nested? ==> s.child.Valid()
    decreases if s.Nested? then Height(s.child.target) + 1 else 0, 3
  {
    match s
    case Stored(x) => Success(x)
    case Nested(c) => Built(c)
  }

  /** The slots `ss[i..]` finalised after `done`, or the first error a nested build throws. */
  ghost function BuiltAll(ss: seq<Slot>, h: nat, i: nat, done: seq<Value>): (r: Result<seq<Value>, Err>)
    reads *
    requires Lower(ss, h) && i <= |ss|
    ensures r.Success? ==> |r.value| == |done| + |ss| - i
    decreases h + 1, 1, |ss| - i
  {
    if i == |ss| then Success(done)
    else
      var v :- SlotResult(ss[i]);
      BuiltAll(ss, h, i + 1, done + [v])
  }

  /**
   * `v instanceof BaseBuilder ? v.__build() : v` over the values of a
   * collection builder, or over the `__name__` properties of a record
   * builder: the values, nested builders finalised in turn.
   */
  method Finalise(ss: seq<Slot>, h: nat) returns (r: Result<seq<Value>, Err>)
    requires Lower(ss, h)
    ensures r == BuiltAll(ss, h, 0, [])
    decreases h, 1
  {
    var vals: seq<Value> := [];
    var i := 0;
    while i < |ss|
      invariant 0 <= i <= |ss|
      invariant BuiltAll(ss, h, 0, []) == BuiltAll(ss, h, i, vals)
    {
      var v: Result<Value, Err>;
      match ss[i] {
        case Stored(x) =>
          v := Success(x);
        case Nested(c) =>
          v := c.Build();
      }
      if v.Failure? {
        return Failure(v.error);
      }
      vals := vals + [v.value];
      i := i + 1;
    }
    r := Success(vals);
  }

  // ---------------------------------------------------------------------
  // What `build` passes to the type
  // ---------------------------------------------------------------------

  /** Finalising throws exactly when one of the nested builders does. */
  lemma {:induction false} AllThrow(ss: seq<Slot>, h: nat, i: nat, done: seq<Value>)
    requires Lower(ss, h) && i <= |ss|
    ensures BuiltAll(ss, h, i, done).Failure? <==> exists j | i <= j < |ss| :: SlotResult(ss[j]).Failure?
    decreases |ss| - i
  {
    if i < |ss| && SlotResult(ss[i]).Success? {
      AllThrow(ss, h, i + 1, done + [SlotResult(ss[i]).value]);
    }
  }

  /** Finalised values come in the order of the slots, each what its slot builds to. */
  lemma {:induction false} AllBuilt(ss: seq<Slot>, h: nat, i: nat, done: seq<Value>)
    requires Lower(ss, h) && i <= |ss|
    requires BuiltAll(ss, h, i, done).Success?
    ensures var vs := BuiltAll(ss, h, i, done).value;
      vs[..|done|] == done && forall j | i <= j < |ss| :: SlotResult(ss[j]) == Success(vs[|done| + j - i])
    decreases |ss| - i
  {
    if i < |ss| {
      var next := done + [SlotResult(ss[i]).value];
      AllBuilt(ss, h, i + 1, next);
      var vs := BuiltAll(ss, h, i, done).value;
      assert vs[..|next|][..|done|] == vs[..|done|];
      assert vs[|done|] == next[|done|];
    }
  }

  /** Finalising all the slots gives, at each position, what that slot builds. */
  lemma BuiltInOrder(ss: seq<Slot>, h: nat)
    requires Lower(ss, h) && BuiltAll(ss, h, 0, []).Success?
    ensures forall j | 0 <= j < |ss| :: SlotResult(ss[j]) == Success(BuiltAll(ss, h, 0, []).value[j])
  {
    AllBuilt(ss, h, 0, []);
    forall j | 0 <= j < |ss| ensures SlotResult(ss[j]) == Success(BuiltAll(ss, h, 0, []).value[j]) {
      assert 0 + j - 0 == j;
    }
  }

  /** A nested builder of a record builder that throws when built makes the record's build throw. */
  lemma RecordBuildThrows(b: Builder, j: nat)
    requires b.Valid() && !IsCollection(b.target)
    requires j < |b.order| && SlotResult(b.slots[b.order[j]]).Failure?
    ensures Built(b).Failure?
  {
    var ss := Props(b.order, b.slots);
    AllThrow(ss, Height(b.target), 0, []);
    assert SlotResult(ss[j]).Failure?;
  }

  /**
   * `build` on a record builder passes one object whose keys are exactly the
   * fields set or descended into, in the order they were first written, each
   * holding the stored value or the nested builder's instance.
   */
  lemma RecordBuild(b: Builder)
    requires b.Valid() && !IsCollection(b.target)
    requires forall j | 0 <= j < |b.order| :: SlotResult(b.slots[b.order[j]]).Success?
    ensures exists es: seq<(string, Value)> ::
      |es| == |b.order| &&
      (forall j | 0 <= j < |b.order| :: es[j].0 == b.order[j] && SlotResult(b.slots[b.order[j]]) == Success(es[j].1)) &&
      Built(b) == Transform(b.target, Obj(es))
  {
    var vals := BuiltAll(Props(b.order, b.slots), Height(b.target), 0, []);
    RecordFinalised(b);
    var es := Pairs(b.order, vals.value);
    assert forall j | 0 <= j < |b.order| :: es[j].0 == b.order[j] && SlotResult(b.slots[b.order[j]]) == Success(es[j].1);
    assert |es| == |b.order| && Built(b) == Transform(b.target, Obj(es));
  }

  /** `RecordBuild`, with the finalised values named. */
  lemma RecordFinalised(b: Builder)
    requires b.Valid() && !IsCollection(b.target)
    requires forall j | 0 <= j < |b.order| :: SlotResult(b.slots[b.order[j]]).Success?
    ensures var vals := BuiltAll(Props(b.order, b.slots), Height(b.target), 0, []);
      vals.Success? && |vals.value| == |b.order| &&
      (forall j | 0 <= j < |b.order| :: SlotResult(b.slots[b.order[j]]) == Success(vals.value[j])) &&
      Built(b) == Transform(b.target, Obj(Pairs(b.order, vals.value)))
  {
    var ss := Props(b.order, b.slots);
    var h := Height(b.target);
    assert BuiltAll(ss, h, 0, []).Success? by {
      AllThrow(ss, h, 0, []);
      assert forall j | 0 <= j < |ss| :: SlotResult(ss[j]).Success?;
    }
    BuiltInOrder(ss, h);
    forall j | 0 <= j < |b.order| ensures SlotResult(b.slots[b.order[j]]) == Success(BuiltAll(ss, h, 0, []).value[j]) {
      assert ss[j] == b.slots[b.order[j]];
    }
    RecordBuilt(b);
  }

  /** `build` on a record builder whose slots all finalise: the type called on the object of their values. */
  lemma RecordBuilt(b: Builder)
    requires b.Valid() && !IsCollection(b.target)
    requires BuiltAll(Props(b.order, b.slots), Height(b.target), 0, []).Success?
    ensures Built(b) == Transform(b.target, Obj(Pairs(b.order, BuiltAll(Props(b.order, b.slots), Height(b.target), 0, []).value)))
  {
  }

  /** A nested builder of a collection builder that throws when built makes the collection's build throw. */
  lemma CollectionBuildThrows(b: Builder, j: nat)
    requires b.Valid() && IsCollection(b.target)
    requires j < |b.values| && SlotResult(b.values[j]).Failure?
    ensures Built(b).Failure?
  {
    AllThrow(b.values, Height(b.target), 0, []);
  }

  /**
   * `build` on a collection builder passes one array holding the values in
   * the order they were appended, nested builders finalised.
   */
  lemma CollectionBuild(b: Builder)
    requires b.Valid() && IsCollection(b.target)
    requires forall j | 0 <= j < |b.values| :: SlotResult(b.values[j]).Success?
    ensures exists vs: seq<Value> ::
      |vs| == |b.values| && (forall j | 0 <= j < |b.values| :: SlotResult(b.values[j]) == Success(vs[j])) &&
      Built(b) == Construct(b.target.ty, [Arr(vs)])
  {
    var h := Height(b.target);
    AllThrow(b.values, h, 0, []);
    BuiltInOrder(b.values, h);
  }

  // ---------------------------------------------------------------------
  // Round trips: what was set or appended is what the instance holds
  // ---------------------------------------------------------------------

  /** An instance made by a record, literal or collection type is an instance of that type. */
  lemma ConstructInstance(t: Ty, args: seq<Value>, x: Value)
    requires !t.Union? && Construct(t, args) == Success(x)
    ensures InstanceOf(x, t)
  {
    match t
    case Record(_, _, _) =>
      TypeLaws.RecordInstance(t, args, x);
    case Literal(_) =>
    case Collection(_, _, _, _) =>
      TypeLaws.CollectionElements(t, Elements(args), []);
  }

  /** A coercion whose results are instances of its type or of one of its candidates, or a validator. */
  predicate Flat(c: Coercion) {
    c.Of? ==> !c.ty.Union? || forall k | 0 <= k < |c.ty.candidates| :: !c.ty.candidates[k].Union?
  }

  /**
   * A value the setter stored passes through the field's coercion again
   * unchanged: `build` hands the type back exactly what was set.
   */
  lemma TransformSettles(c: Coercion, v: Value, x: Value)
    requires Flat(c) && Transform(c, v) == Success(x)
    ensures Coerce(c, x) == Success(x)
  {
    match c
    case Check(_) =>
    case Of(t) =>
      if !t.Union? {
        ConstructInstance(t, [v], x);
      } else {
        TypeLaws.UnionDispatch(t, [v], x);
        if !exists i | 0 <= i < |t.candidates| :: InstanceOf(v, t.candidates[i]) {
          var j :| TypeLaws.FirstAccepting(t.candidates, [v], j, x);
          ConstructInstance(t.candidates[j], [v], x);
        }
        TypeLaws.UnionDispatch(t, [x], x);
      }
  }

  /** The values of slots that all hold values. */
  function StoredValues(ss: seq<Slot>): (vs: seq<Value>)
    requires forall j | 0 <= j < |ss| :: ss[j].Stored?
    ensures |vs| == |ss| && forall j | 0 <= j < |ss| :: vs[j] == ss[j].value
  {
    seq(|ss|, j requires 0 <= j < |ss| && ss[j].Stored? => ss[j].value)
  }

  /** A collection called on an array of child instances holds exactly those instances. */
  lemma InstancesKept(t: Ty, vs: seq<Value>)
    requires t.Collection? && forall j | 0 <= j < |vs| :: InstanceOf(vs[j], t.child)
    ensures Construct(t, [Arr(vs)]) == Success(Coll(t, vs))
  {
    TypeLaws.CollectionElements(t, vs, []);
    var r := CoerceAll(t, vs, []).value;
    assert r.items == vs by {
      forall i | 0 <= i < |vs| ensures r.items[i] == vs[i] {
        assert TypeLaws.StoredElement(t.child, vs[i], r.items[0 + i]);
      }
    }
  }

  /**
   * A collection builder whose values are all instances of the child type
   * (what `value(...)` appends for a record, literal or collection child)
   * builds the collection of exactly those values, in order; with nothing
   * appended, the empty collection.
   */
  lemma CollectionRebuilt(b: Builder)
    requires b.Valid() && IsCollection(b.target)
    requires forall j | 0 <= j < |b.values| :: b.values[j].Stored? && InstanceOf(b.values[j].value, b.target.ty.child)
    ensures Built(b) == Success(Coll(b.target.ty, StoredValues(b.values)))
  {
    CollectionBuild(b);
    var vs: seq<Value> :| |vs| == |b.values| && (forall j | 0 <= j < |b.values| :: SlotResult(b.values[j]) == Success(vs[j])) &&
      Built(b) == Construct(b.target.ty, [Arr(vs)]);
    assert vs == StoredValues(b.values);
    InstancesKept(b.target.ty, vs);
  }

  /** The values held by slots that all hold values. */
  function SlotValues(slots: map<string, Slot>): (m: map<string, Value>)
    requires forall k | k in slots :: slots[k].Stored?
    ensures m.Keys == slots.Keys && forall k | k in slots :: m[k] == slots[k].value
  {
    map k | k in slots :: slots[k].value
  }

  /**
   * A record called on an object with distinct keys, each holding a value
   * its field keeps as it is, holds exactly those values.
   */
  lemma EntriesKept(t: Ty, es: seq<(string, Value)>)
    requires t.Record? && (|t.fields| > 1 || (|t.fields| == 1 && |es| > 0 && es[0].0 == t.fields[0].name))
    requires forall i, j | 0 <= i < j < |es| :: es[i].0 != es[j].0
    requires forall j | 0 <= j < |es| :: SetField(t, es[j].0, es[j].1) == Success(es[j].1)
    ensures Construct(t, [Obj(es)]).Success?
    ensures var r := Construct(t, [Obj(es)]).value;
      r.Rec? && r.ty == t && r.slots.Keys == TypeLaws.Keys(es) && forall j | 0 <= j < |es| :: r.slots[es[j].0] == es[j].1
  {
    TypeLaws.SetAllSucceeds(t, es, map[]);
    TypeLaws.HasOwnObject(es, t.fields[0].name);
    assert Construct(t, [Obj(es)]) == SetAll(t, es, map[]);
    var r := SetAll(t, es, map[]).value;
    TypeLaws.StoredFields(t, es, r);
    forall j | 0 <= j < |es| ensures r.slots[es[j].0] == es[j].1 {
      assert es[j].0 !in TypeLaws.Keys(es[j + 1..]);
    }
  }

  /**
   * A record builder whose slots all hold values that pass through their
   * field's coercion unchanged (what the setter stores, by
   * `TransformSettles`) builds the instance holding exactly those values,
   * provided the single-field rule does not wrap the argument.
   */
  lemma RecordRebuilt(b: Builder)
    requires b.Valid() && b.target.Of? && b.target.ty.Record?
    requires forall k | k in b.slots ::
      (b.slots[k].Stored? && Coerce(FieldCoercion(b.target, k), b.slots[k].value) == Success(b.slots[k].value))
    requires |b.target.ty.fields| > 1 || b.order != []
    ensures Built(b) == Success(Rec(b.target.ty, SlotValues(b.slots)))
  {
    StoredEntries(b);
    var es: seq<(string, Value)> :| |es| == |b.order| &&
      (forall j | 0 <= j < |b.order| :: es[j] == (b.order[j], b.slots[b.order[j]].value)) &&
      Built(b) == Transform(b.target, Obj(es));
    SlotsKept(b.target, b.order, b.slots, es);
  }

  /** A record builder whose slots all hold values passes the type the object of those values. */
  lemma StoredEntries(b: Builder)
    requires b.Valid() && !IsCollection(b.target)
    requires forall k | k in b.slots :: b.slots[k].Stored?
    ensures exists es: seq<(string, Value)> ::
      |es| == |b.order| &&
      (forall j | 0 <= j < |b.order| :: es[j] == (b.order[j], b.slots[b.order[j]].value)) &&
      Built(b) == Transform(b.target, Obj(es))
  {
    RecordBuild(b);
    var es: seq<(string, Value)> :| |es| == |b.order| &&
      (forall j | 0 <= j < |b.order| :: es[j].0 == b.order[j] && SlotResult(b.slots[b.order[j]]) == Success(es[j].1)) &&
      Built(b) == Transform(b.target, Obj(es));
    forall j | 0 <= j < |es| ensures es[j] == (b.order[j], b.slots[b.order[j]].value) {
      assert b.slots[b.order[j]] == Stored(b.slots[b.order[j]].value);
    }
  }

  /** `RecordRebuilt` over the builder's order and slots alone. */
  lemma SlotsKept(target: Coercion, order: seq<string>, slots: map<string, Slot>, es: seq<(string, Value)>)
    requires target.Of? && target.ty.Record?
    requires (forall k | k in slots :: k in order) && forall i | 0 <= i < |order| :: order[i] in slots
    requires forall i, j | 0 <= i < j < |order| :: order[i] != order[j]
    requires forall k | k in slots ::
      (IsField(target, k) && slots[k].Stored? && Coerce(FieldCoercion(target, k), slots[k].value) == Success(slots[k].value))
    requires |target.ty.fields| > 1 || order != []
    requires |es| == |order| && forall j | 0 <= j < |order| :: es[j] == (order[j], slots[order[j]].value)
    ensures Construct(target.ty, [Obj(es)]) == Success(Rec(target.ty, SlotValues(slots)))
  {
    var t := target.ty;
    var vals := SlotValues(slots);
    forall k | k in vals ensures SetField(t, k, vals[k]) == Success(vals[k]) {
      assert IsField(target, k);
    }
    if |t.fields| == 1 {
      assert IsField(target, order[0]);
    }
    OrderedKept(t, order, vals, es);
  }

  /** The record-builder case of `RecordRebuilt`, over the fields' names and values alone. */
  lemma OrderedKept(t: Ty, order: seq<string>, vals: map<string, Value>, es: seq<(string, Value)>)
    requires t.Record? && (|t.fields| > 1 || (|t.fields| == 1 && |order| > 0 && order[0] == t.fields[0].name))
    requires forall i, j | 0 <= i < j < |order| :: order[i] != order[j]
    requires (forall k | k in vals :: k in order) && forall j | 0 <= j < |order| :: order[j] in vals
    requires |es| == |order| && forall j | 0 <= j < |es| :: es[j] == (order[j], vals[order[j]])
    requires forall k | k in vals :: SetField(t, k, vals[k]) == Success(vals[k])
    ensures Construct(t, [Obj(es)]) == Success(Rec(t, vals))
  {
    OrderedEntries(t, order, vals, es);
    EntriesKept(t, es);
    SameSlots(Construct(t, [Obj(es)]).value.slots, vals, es);
  }

  /** Two maps that agree with the same entries, key by key, are equal. */
  lemma SameSlots(m: map<string, Value>, vals: map<string, Value>, es: seq<(string, Value)>)
    requires m.Keys == TypeLaws.Keys(es) && vals.Keys == TypeLaws.Keys(es)
    requires forall j | 0 <= j < |es| :: m[es[j].0] == es[j].1 && vals[es[j].0] == es[j].1
    ensures m == vals
  {
    forall k | k in vals ensures m[k] == vals[k] {
      var j :| 0 <= j < |es| && es[j].0 == k;
    }
  }

  /** The entries `OrderedKept` passes have distinct keys, each holding a value its field keeps. */
  lemma OrderedEntries(t: Ty, order: seq<string>, vals: map<string, Value>, es: seq<(string, Value)>)
    requires t.Record? && (|t.fields| > 1 || (|t.fields| == 1 && |order| > 0 && order[0] == t.fields[0].name))
    requires forall i, j | 0 <= i < j < |order| :: order[i] != order[j]
    requires (forall k | k in vals :: k in order) && forall j | 0 <= j < |order| :: order[j] in vals
    requires |es| == |order| && forall j | 0 <= j < |es| :: es[j] == (order[j], vals[order[j]])
    requires forall k | k in vals :: SetField(t, k, vals[k]) == Success(vals[k])
    ensures TypeLaws.Keys(es) == vals.Keys && forall j | 0 <= j < |es| :: es[j].1 == vals[es[j].0]
    ensures |t.fields| > 1 || (|t.fields| == 1 && |es| > 0 && es[0].0 == t.fields[0].name)
    ensures forall i, j | 0 <= i < j < |es| :: es[i].0 != es[j].0
    ensures forall j | 0 <= j < |es| :: SetField(t, es[j].0, es[j].1) == Success(es[j].1)
  {
    forall i, j | 0 <= i < j < |es| ensures es[i].0 != es[j].0 {
      assert es[i].0 == order[i] && es[j].0 == order[j];
    }
    forall j | 0 <= j < |es| ensures SetField(t, es[j].0, es[j].1) == Success(es[j].1) {
      assert es[j] == (order[j], vals[order[j]]);
    }
    if |t.fields| == 1 {
      assert es[0].0 == order[0];
    }
    forall k | k in vals ensures k in TypeLaws.Keys(es) {
      var j :| 0 <= j < |order| && order[j] == k;
      assert es[j].0 == k;
    }
    forall j | 0 <= j < |es| ensures es[j].0 in vals && es[j].1 == vals[es[j].0] {
      assert es[j] == (order[j], vals[order[j]]);
    }
  }
}
