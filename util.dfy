/**
 * The helpers of lib/util.js: `identity`, and `extend`, which copies the
 * properties of each source object, in turn, onto its first argument and
 * returns that argument.
 *
 * An object is its properties in enumeration order: a list of entries.
 * Assigning `a[k] = v` replaces the value of an existing property in place
 * and appends a new one at the end.
 */
module Util {
  import opened Wrappers

  /** `identity(v)`: the argument itself. */
  function Identity<T>(v: T): (r: T)
    ensures r == v
  {
    v
  }

  /** The value of property `k`: the last entry that has that key. */
  function Lookup<V>(es: seq<(string, V)>, k: string): (r: Option<V>)
    ensures r.None? <==> forall i | 0 <= i < |es| :: es[i].0 != k
    ensures r.Some? ==> exists i | 0 <= i < |es| :: es[i] == (k, r.value)
  {
    if es == [] then None
    else if es[|es| - 1].0 == k then Some(es[|es| - 1].1)
    else Lookup(es[..|es| - 1], k)
  }

  /** `a[k] = v`: an existing property takes the new value where it is; a new one is appended. */
  function Put<V>(es: seq<(string, V)>, k: string, v: V): (r: seq<(string, V)>)
  {
    if exists i | 0 <= i < |es| :: es[i].0 == k then
      seq(|es|, i requires 0 <= i < |es| => if es[i].0 == k then (k, v) else es[i])
    else
      es + [(k, v)]
  }

  /** The inner loop of `extend`: every property of `src`, in enumeration order, assigned onto `es`. */
  function Assign<V>(es: seq<(string, V)>, src: seq<(string, V)>): seq<(string, V)>
  {
    if src == [] then es
    else
      var last := src[|src| - 1];
      Put(Assign(es, src[..|src| - 1]), last.0, last.1)
  }

  /** The outer loop of `extend`: each source assigned in turn. */
  function Merge<V>(es: seq<(string, V)>, sources: seq<seq<(string, V)>>): seq<(string, V)>
  {
    if sources == [] then es
    else Assign(Merge(es, sources[..|sources| - 1]), sources[|sources| - 1])
  }

  /** The value of `k` in the last source that has it, if any does. */
  function Found<V>(sources: seq<seq<(string, V)>>, k: string): Option<V>
  {
    if sources == [] then None
    else
      var here := Lookup(sources[|sources| - 1], k);
      if here.Some? then here else Found(sources[..|sources| - 1], k)
  }

  /** An object whose properties are assigned in place. */
  class Object<V> {
    var entries: seq<(string, V)>

    constructor (entries: seq<(string, V)>)
      ensures this.entries == entries
    {
      this.entries := entries;
    }
  }

  /**
   * `extend(a, ...rest)`: the properties of each source copied onto `a`, in
   * order; `a` itself is returned.
   */
  method Extend<V>(a: Object<V>, rest: seq<seq<(string, V)>>) returns (r: Object<V>)
    modifies a
    ensures r == a
    ensures a.entries == Merge(old(a.entries), rest)
    ensures rest == [] ==> a.entries == old(a.entries)
  {
    var i := 0;
    while i < |rest|
      invariant 0 <= i <= |rest|
      invariant a.entries == Merge(old(a.entries), rest[..i])
    {
      var src := rest[i];
      var j := 0;
      while j < |src|
        invariant 0 <= j <= |src|
        invariant a.entries == Assign(Merge(old(a.entries), rest[..i]), src[..j])
      {
        a.entries := Put(a.entries, src[j].0, src[j].1);
        assert src[..j + 1][..j] == src[..j];
        j := j + 1;
      }
      assert src[..j] == src;
      assert rest[..i + 1][..i] == rest[..i];
      i := i + 1;
    }
    assert rest[..i] == rest;
    r := a;
  }

  // ---------------------------------------------------------------------
  // What `extend` promises
  // ---------------------------------------------------------------------

  /** After `a[k] = v`, `k` holds `v` and every other property keeps its value. */
  lemma {:induction false} PutLookup<V>(es: seq<(string, V)>, k: string, v: V, k': string)
    ensures Lookup(Put(es, k, v), k') == if k' == k then Some(v) else Lookup(es, k')
  {
    var r := Put(es, k, v);
    if exists i | 0 <= i < |es| :: es[i].0 == k {
      if k' == k {
        var i :| 0 <= i < |es| && es[i].0 == k;
        assert r[i].0 == k;
        LookupLast(r, k, v);
      } else {
        RenamedLookup(es, k, v, k');
      }
    } else {
      assert r[..|es|] == es;
    }
  }

  /** When every entry with key `k` holds `v`, looking `k` up gives `v` or nothing. */
  lemma {:induction false} LookupLast<V>(es: seq<(string, V)>, k: string, v: V)
    requires forall i | 0 <= i < |es| && es[i].0 == k :: es[i].1 == v
    ensures Lookup(es, k) == None || Lookup(es, k) == Some(v)
  {
    if es != [] && es[|es| - 1].0 != k {
      LookupLast(es[..|es| - 1], k, v);
    }
  }

  /** Replacing the values of key `k` leaves the lookup of every other key as it was. */
  lemma {:induction false} RenamedLookup<V>(es: seq<(string, V)>, k: string, v: V, k': string)
    requires k' != k
    ensures Lookup(seq(|es|, i requires 0 <= i < |es| => if es[i].0 == k then (k, v) else es[i]), k') == Lookup(es, k')
  {
    var r := seq(|es|, i requires 0 <= i < |es| => if es[i].0 == k then (k, v) else es[i]);
    if es != [] {
      var init := es[..|es| - 1];
      var r' := seq(|init|, i requires 0 <= i < |init| => if init[i].0 == k then (k, v) else init[i]);
      assert r[..|r| - 1] == r';
      RenamedLookup(init, k, v, k');
    }
  }

  /** After one source is assigned, its properties hold its values and the others keep theirs. */
  lemma {:induction false} AssignLookup<V>(es: seq<(string, V)>, src: seq<(string, V)>, k: string)
    ensures Lookup(Assign(es, src), k) == if Lookup(src, k).Some? then Lookup(src, k) else Lookup(es, k)
  {
    if src != [] {
      var last := src[|src| - 1];
      AssignLookup(es, src[..|src| - 1], k);
      PutLookup(Assign(es, src[..|src| - 1]), last.0, last.1, k);
    }
  }

  /**
   * After `extend`, a property holds the value of the last source that has
   * it; a property no source has keeps the target's value.
   */
  lemma {:induction false} MergeLookup<V>(es: seq<(string, V)>, sources: seq<seq<(string, V)>>, k: string)
    ensures Lookup(Merge(es, sources), k) == if Found(sources, k).Some? then Found(sources, k) else Lookup(es, k)
  {
    if sources != [] {
      MergeLookup(es, sources[..|sources| - 1], k);
      AssignLookup(Merge(es, sources[..|sources| - 1]), sources[|sources| - 1], k);
    }
  }

  /** A later source overrides every earlier one: the last source that has `k` decides its value. */
  lemma {:induction false} LaterOverrides<V>(es: seq<(string, V)>, sources: seq<seq<(string, V)>>, i: nat, k: string)
    requires i < |sources| && Lookup(sources[i], k).Some?
    requires forall j | i < j < |sources| :: Lookup(sources[j], k).None?
    ensures Lookup(Merge(es, sources), k) == Lookup(sources[i], k)
  {
    MergeLookup(es, sources, k);
    LastFound(sources, i, k);
  }

  /** `Found` picks the last source that has the key. */
  lemma {:induction false} LastFound<V>(sources: seq<seq<(string, V)>>, i: nat, k: string)
    requires i < |sources| && Lookup(sources[i], k).Some?
    requires forall j | i < j < |sources| :: Lookup(sources[j], k).None?
    ensures Found(sources, k) == Lookup(sources[i], k)
  {
    if i < |sources| - 1 {
      var init := sources[..|sources| - 1];
      assert init[i] == sources[i];
      LastFound(init, i, k);
    }
  }

  /** A property that no source has keeps the target's value. */
  lemma UntouchedKept<V>(es: seq<(string, V)>, sources: seq<seq<(string, V)>>, k: string)
    requires forall j | 0 <= j < |sources| :: Lookup(sources[j], k).None?
    ensures Lookup(Merge(es, sources), k) == Lookup(es, k)
  {
    MergeLookup(es, sources, k);
    NoneFound(sources, k);
  }

  /** No source has the key, so none is found. */
  lemma {:induction false} NoneFound<V>(sources: seq<seq<(string, V)>>, k: string)
    requires forall j | 0 <= j < |sources| :: Lookup(sources[j], k).None?
    ensures Found(sources, k).None?
  {
    if sources != [] {
      NoneFound(sources[..|sources| - 1], k);
    }
  }

  /**
   * Assignment never moves a property: the target's properties stay where
   * they were, in their order, and new ones come after them.
   */
  lemma {:induction false} MergeKeepsOrder<V>(es: seq<(string, V)>, sources: seq<seq<(string, V)>>)
    ensures |Merge(es, sources)| >= |es|
    ensures forall i | 0 <= i < |es| :: Merge(es, sources)[i].0 == es[i].0
  {
    if sources != [] {
      MergeKeepsOrder(es, sources[..|sources| - 1]);
      AssignKeepsOrder(Merge(es, sources[..|sources| - 1]), sources[|sources| - 1]);
    }
  }

  /** One source assigned: the target's properties stay where they were. */
  lemma {:induction false} AssignKeepsOrder<V>(es: seq<(string, V)>, src: seq<(string, V)>)
    ensures |Assign(es, src)| >= |es|
    ensures forall i | 0 <= i < |es| :: Assign(es, src)[i].0 == es[i].0
  {
    if src != [] {
      AssignKeepsOrder(es, src[..|src| - 1]);
    }
  }
}
