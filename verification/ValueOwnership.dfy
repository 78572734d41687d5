/** Parameters as values of the C API (src_py/_lbug_capi.py).

  The engine copies the children of a list, map or struct, so whoever made them frees them, whether the
  container was made or an exception came first.
 */
module ValueOwnership {
  import opened Wrappers

  datatype Parameter =
    | Scalar(id: int)                       // None, numbers, bytes, dates and the like
    | Str(s: string)
    | List(items: seq<Parameter>)
    | Tuple(items: seq<Parameter>)
    | NdArray(items: seq<Parameter>)          // of one dimension or more
    | NdScalar(item: int)                   // of no dimension
    | Dict(entries: seq<Entry>)
    | Unsupported

  datatype Entry = Entry(key: Parameter, value: Parameter)

  /** What a native value holds. */
  datatype Native =
    | Leaf(v: Parameter)
    | ListOf(items: seq<Native>)
    | MapOf(keys: seq<Native>, values: seq<Native>)
    | StructOf(names: seq<string>, values: seq<Native>)

  datatype Error = TypeError | EngineError | EncodeError

  // ---------- What is meant to be built ----------

  function Lookup(entries: seq<Entry>, name: string): Option<Parameter> {
    if entries == [] then None
    else if entries[0].key == Str(name) then Some(entries[0].value)
    else Lookup(entries[1..], name)
  }

  /** A dict of the keys "key" and "value", in either order, with lists of one length. */
  predicate MapShaped(entries: seq<Entry>) {
    && |entries| == 2
    && Lookup(entries, "key").Some? && Lookup(entries, "value").Some?
    && Lookup(entries, "key").value.List? && Lookup(entries, "value").value.List?
    && |Lookup(entries, "key").value.items| == |Lookup(entries, "value").value.items|
  }

  predicate AllStrings(entries: seq<Entry>) {
    forall k :: 0 <= k < |entries| ==> entries[k].key.Str?
  }

  function Keys(entries: seq<Entry>): (keys: seq<Parameter>)
    ensures |keys| == |entries|
  {
    seq(|entries|, k requires 0 <= k < |entries| => entries[k].key)
  }

  function Values(entries: seq<Entry>): (values: seq<Parameter>)
    ensures |values| == |entries|
  {
    seq(|entries|, k requires 0 <= k < |entries| => entries[k].value)
  }

  function Names(entries: seq<Entry>): (names: seq<string>)
    requires AllStrings(entries)
    ensures |names| == |entries|
  {
    seq(|entries|, k requires 0 <= k < |entries| => entries[k].key.s)
  }

  /** n holds v. */
  ghost predicate Means(n: Native, v: Parameter)
    decreases v, 0
  {
    match v
    case Scalar(_) => n == Leaf(v)
    case Str(_) => n == Leaf(v)
    case NdScalar(_) => n == Leaf(v)
    case List(items) => n.ListOf? && MeansAll(n.items, items)
    case Tuple(items) => n.ListOf? && MeansAll(n.items, items)
    case NdArray(items) => n.ListOf? && MeansAll(n.items, items)
    case Dict(entries) =>
      if MapShaped(entries) then
        LookupSmaller(entries, "key"); LookupSmaller(entries, "value");
        && n.MapOf?
        && MeansAll(n.keys, Lookup(entries, "key").value.items)
        && MeansAll(n.values, Lookup(entries, "value").value.items)
      else if AllStrings(entries) then
        && n.StructOf? && n.names == Names(entries) && |n.values| == |entries|
        && (forall k :: 0 <= k < |entries| ==> Means(n.values[k], entries[k].value))
      else
        && n.MapOf? && |n.keys| == |n.values| == |entries|
        && (forall k :: 0 <= k < |entries| ==> Means(n.keys[k], entries[k].key) && Means(n.values[k], entries[k].value))
    case Unsupported => false
  }

  ghost predicate MeansAll(ns: seq<Native>, items: seq<Parameter>)
    decreases items, 1
  {
    |ns| == |items| && forall k :: 0 <= k < |items| ==> Means(ns[k], items[k])
  }

  lemma {:induction false} LookupSmaller(entries: seq<Entry>, name: string)
    ensures Lookup(entries, name).Some? ==>
              exists k :: 0 <= k < |entries| && Lookup(entries, name).value == entries[k].value
  {
    if entries != [] && entries[0].key != Str(name) {
      LookupSmaller(entries[1..], name);
    }
  }

  lemma ItemsSmaller(entries: seq<Entry>, name: string)
    requires Lookup(entries, name).Some? && Lookup(entries, name).value.List?
    ensures forall k :: 0 <= k < |Lookup(entries, name).value.items| ==>
              Lookup(entries, name).value.items[k] < Dict(entries)
  {
    LookupSmaller(entries, name);
    var j :| 0 <= j < |entries| && Lookup(entries, name).value == entries[j].value;
    assert entries[j].value < Dict(entries);
    forall k | 0 <= k < |entries[j].value.items| ensures entries[j].value.items[k] < Dict(entries) {
      assert entries[j].value.items[k] < entries[j].value;
    }
  }

  /** A value is held in one way only. */
  lemma {:induction false} MeansOneValue(n: Native, m: Native, v: Parameter)
    requires Means(n, v) && Means(m, v)
    ensures n == m
    decreases v, 0
  {
    match v
    case List(items) => AllOneValue(n.items, m.items, items);
    case Tuple(items) => AllOneValue(n.items, m.items, items);
    case NdArray(items) => AllOneValue(n.items, m.items, items);
    case Dict(entries) =>
      if MapShaped(entries) {
        ItemsSmaller(entries, "key");
        ItemsSmaller(entries, "value");
        EachOneValue(n.keys, m.keys, Lookup(entries, "key").value.items, v);
        EachOneValue(n.values, m.values, Lookup(entries, "value").value.items, v);
      } else if AllStrings(entries) {
        EachOneValue(n.values, m.values, Values(entries), v);
      } else {
        EachOneValue(n.keys, m.keys, Keys(entries), v);
        EachOneValue(n.values, m.values, Values(entries), v);
      }
    case _ =>
  }

  lemma {:induction false} AllOneValue(ns: seq<Native>, ms: seq<Native>, items: seq<Parameter>)
    requires MeansAll(ns, items) && MeansAll(ms, items)
    ensures ns == ms
    decreases items, 1
  {
    forall k | 0 <= k < |items| ensures ns[k] == ms[k] {
      MeansOneValue(ns[k], ms[k], items[k]);
    }
  }

  lemma {:induction false} EachOneValue(ns: seq<Native>, ms: seq<Native>, items: seq<Parameter>, parent: Parameter)
    requires MeansAll(ns, items) && MeansAll(ms, items) && forall k :: 0 <= k < |items| ==> items[k] < parent
    ensures ns == ms
    decreases parent, 0, 0
  {
    forall k | 0 <= k < |items| ensures ns[k] == ms[k] {
      MeansOneValue(ns[k], ms[k], items[k]);
    }
  }

  /** Some part of v has a type that no native value has. */
  ghost predicate HasUnsupported(v: Parameter)
    decreases v, 0
  {
    match v
    case Scalar(_) => false
    case Str(_) => false
    case NdScalar(_) => false
    case List(items) => AnyUnsupported(items)
    case Tuple(items) => AnyUnsupported(items)
    case NdArray(items) => AnyUnsupported(items)
    case Dict(entries) =>
      exists k :: 0 <= k < |entries| && (HasUnsupported(entries[k].key) || HasUnsupported(entries[k].value))
    case Unsupported => true
  }

  ghost predicate AnyUnsupported(items: seq<Parameter>)
    decreases items, 1
  {
    exists k :: 0 <= k < |items| && HasUnsupported(items[k])
  }

  lemma UnsupportedNext(items: seq<Parameter>, k: nat)
    requires k < |items|
    ensures AnyUnsupported(items[..k + 1]) <==> AnyUnsupported(items[..k]) || HasUnsupported(items[k])
    ensures HasUnsupported(items[k]) ==> AnyUnsupported(items)
  {
    hide HasUnsupported;
    assert items[..k + 1] == items[..k] + [items[k]] && items[..k + 1][k] == items[k];
    assert forall i :: 0 <= i < k ==> items[..k][i] == items[..k + 1][i];
  }

  lemma LookupInTwo(entries: seq<Entry>, name: string)
    requires |entries| == 2
    ensures Lookup(entries, name) ==
            if entries[0].key == Str(name) then Some(entries[0].value)
            else if entries[1].key == Str(name) then Some(entries[1].value) else None
  {
    var rest := entries[1..];
    assert rest[0] == entries[1] && Lookup(rest[1..], name) == None;
  }

  /** The parts that are converted are all the parts there are. */
  lemma MapParts(entries: seq<Entry>)
    requires MapShaped(entries)
    ensures HasUnsupported(Dict(entries)) <==>
              AnyUnsupported(Lookup(entries, "key").value.items) || AnyUnsupported(Lookup(entries, "value").value.items)
  {
    LookupInTwo(entries, "key");
    LookupInTwo(entries, "value");
    var keys, values := Lookup(entries, "key").value, Lookup(entries, "value").value;
    assert (entries[0] == Entry(Str("key"), keys) && entries[1] == Entry(Str("value"), values)) ||
           (entries[1] == Entry(Str("key"), keys) && entries[0] == Entry(Str("value"), values));
    assert !HasUnsupported(entries[0].key) && !HasUnsupported(entries[1].key);
    assert HasUnsupported(keys) <==> AnyUnsupported(keys.items);
    assert HasUnsupported(values) <==> AnyUnsupported(values.items);
  }

  lemma StructParts(entries: seq<Entry>)
    requires AllStrings(entries)
    ensures HasUnsupported(Dict(entries)) <==> AnyUnsupported(Values(entries))
  {
    assert forall k :: 0 <= k < |entries| ==> Values(entries)[k] == entries[k].value && !HasUnsupported(entries[k].key);
  }

  lemma PairParts(entries: seq<Entry>)
    ensures HasUnsupported(Dict(entries)) <==> AnyUnsupported(Keys(entries)) || AnyUnsupported(Values(entries))
  {
    assert forall k :: 0 <= k < |entries| ==>
             Keys(entries)[k] == entries[k].key && Values(entries)[k] == entries[k].value;
  }

  // ---------- The engine ----------

  /** The values that are alive, by pointer. Any call to create one may fail, and so may the encoding of a
      name; then nothing was made. failures counts these. */
  class Engine {
    var live: map<nat, Native>
    var next: nat
    ghost var failures: nat

    ghost predicate Valid()
      reads this
    {
      forall p :: p in live ==> p < next
    }

    constructor ()
      ensures Valid() && live == map[] && failures == 0
    {
      live, next, failures := map[], 0, 0;
    }

    method Create(n: Native, error: Error) returns (r: Result<nat, Error>)
      requires Valid()
      modifies this
      ensures Valid() && next >= old(next)
      ensures r.Err? ==> live == old(live) && r.error == error
      ensures r.Ok? ==> r.value >= old(next) && r.value !in old(live) && live == old(live)[r.value := n]
      ensures failures == old(failures) + if r.Err? then 1 else 0
    {
      if * {
        failures := failures + 1;
        return Err(error);
      }
      r := Ok(next);
      live, next := live[next := n], next + 1;
    }

    /** Encodes a name, which the interpreter may refuse. */
    method Encode(name: string) returns (ok: bool)
      modifies this`failures
      ensures failures == old(failures) + if ok then 0 else 1
    {
      ok := true;
      if * {
        failures := failures + 1;
        ok := false;
      }
    }

    /** Only a value that is alive can be freed. */
    method Destroy(p: nat)
      requires Valid() && p in live
      modifies this
      ensures Valid() && next == old(next) && failures == old(failures) && live == old(live) - {p}
    {
      live := live - {p};
    }
  }

  /** What the pointers hold. */
  function Held(live: map<nat, Native>, ptrs: seq<nat>): (ns: seq<Native>)
    requires forall k :: 0 <= k < |ptrs| ==> ptrs[k] in live
    ensures |ns| == |ptrs|
  {
    seq(|ptrs|, k requires 0 <= k < |ptrs| => live[ptrs[k]])
  }

  /** The pointers are all that has been added to before, each once. */
  ghost predicate Added(before: map<nat, Native>, live: map<nat, Native>, ptrs: multiset<nat>) {
    && (forall p :: ptrs[p] == if p in live && p !in before then 1 else 0)
    && (forall p :: p in before ==> p in live && live[p] == before[p])
  }

  /** finally: each pointer is freed once. */
  method DestroyAll(engine: Engine, ptrs: seq<nat>, ghost before: map<nat, Native>)
    requires engine.Valid() && Added(before, engine.live, multiset(ptrs))
    modifies engine
    ensures engine.Valid() && engine.next == old(engine.next) && engine.failures == old(engine.failures)
    ensures engine.live == before
  {
    assert ptrs[0..] == ptrs;
    for k := 0 to |ptrs|
      invariant engine.Valid() && engine.next == old(engine.next) && engine.failures == old(engine.failures)
      invariant Added(before, engine.live, multiset(ptrs[k..]))
    {
      assert ptrs[k..] == [ptrs[k]] + ptrs[k + 1..];
      assert ptrs[k] in multiset(ptrs[k..]);
      ghost var live := engine.live;
      engine.Destroy(ptrs[k]);
      AddedLess(before, live, multiset(ptrs[k + 1..]), ptrs[k]);
    }
    assert ptrs[|ptrs|..] == [];
    AllFreed(before, engine.live);
  }

  lemma AddedLess(before: map<nat, Native>, live: map<nat, Native>, ptrs: multiset<nat>, p: nat)
    requires Added(before, live, ptrs + multiset{p})
    ensures Added(before, live - {p}, ptrs)
  {
  }

  lemma AllFreed(before: map<nat, Native>, live: map<nat, Native>)
    requires Added(before, live, multiset{})
    ensures live == before
  {
  }

  /** A value is made of v, or none is left. */
  method ValueFromPython(engine: Engine, v: Parameter) returns (r: Result<nat, Error>)
    requires engine.Valid()
    modifies engine
    ensures engine.Valid() && engine.next >= old(engine.next)
    ensures engine.failures >= old(engine.failures)
    ensures r.Ok? <==> engine.failures == old(engine.failures) && !HasUnsupported(v)
    ensures r == Err(TypeError) ==> HasUnsupported(v)
    ensures r.Err? ==> engine.live == old(engine.live)
    ensures r.Ok? ==> Made(old(engine.live), engine.live, r.value) && Means(engine.live[r.value], v)
    decreases v, 1
  {
    match v {
      case Scalar(_) => r := engine.Create(Leaf(v), EngineError);
      case Str(_) => r := engine.Create(Leaf(v), EncodeError);
      case NdScalar(_) => r := engine.Create(Leaf(v), EngineError);
      case List(items) => r := ListFromPython(engine, v, items);
      case Tuple(items) => r := ListFromPython(engine, v, items);
      case NdArray(items) => r := ListFromPython(engine, v, items);
      case Dict(entries) =>
        if MapShaped(entries) {
          ItemsSmaller(entries, "key");
          ItemsSmaller(entries, "value");
          MapParts(entries);
          r := MapFromPython(engine, v, Lookup(entries, "key").value.items, Lookup(entries, "value").value.items);
        } else if AllStrings(entries) {
          StructParts(entries);
          r := StructFromPython(engine, v, entries);
        } else {
          PairParts(entries);
          r := MapFromPython(engine, v, Keys(entries), Values(entries));
        }
      case Unsupported => r := Err(TypeError);
    }
  }

  method ListFromPython(engine: Engine, ghost parent: Parameter, items: seq<Parameter>) returns (r: Result<nat, Error>)
    requires engine.Valid() && forall k :: 0 <= k < |items| ==> items[k] < parent
    modifies engine
    ensures engine.Valid() && engine.next >= old(engine.next)
    ensures engine.failures >= old(engine.failures)
    ensures r.Ok? <==> engine.failures == old(engine.failures) && !AnyUnsupported(items)
    ensures r == Err(TypeError) ==> AnyUnsupported(items)
    ensures r.Err? ==> engine.live == old(engine.live)
    ensures r.Ok? ==>
              && Made(old(engine.live), engine.live, r.value) && engine.live[r.value].ListOf?
              && MeansAll(engine.live[r.value].items, items)
    decreases parent, 0
  {
    ghost var before := engine.live;
    var ptrs, failure := ConvertAll(engine, parent, items);
    if failure.None? {
      r := engine.Create(ListOf(Held(engine.live, ptrs)), EngineError);
    } else {
      r := Err(failure.value);
    }
    Finally(engine, ptrs, before, r);
  }

  /** Converts the items until one of them fails. The pointers are of those before it. */
  method ConvertAll(engine: Engine, ghost parent: Parameter, items: seq<Parameter>)
      returns (ptrs: seq<nat>, failure: Option<Error>)
    requires engine.Valid() && forall k :: 0 <= k < |items| ==> items[k] < parent
    modifies engine
    ensures engine.Valid() && engine.next >= old(engine.next) && Added(old(engine.live), engine.live, multiset(ptrs))
    ensures engine.failures >= old(engine.failures)
    ensures failure.None? <==> engine.failures == old(engine.failures) && !AnyUnsupported(items)
    ensures failure == Some(TypeError) ==> AnyUnsupported(items)
    ensures failure.None? ==> HeldMeans(engine.live, ptrs, items)
    decreases parent, 0, 0
  {
    hide HasUnsupported, Means;
    ghost var before := engine.live;
    ptrs, failure := [], None;
    for k := 0 to |items|
      invariant engine.Valid() && engine.next >= old(engine.next) && engine.failures == old(engine.failures)
      invariant forall i :: 0 <= i < k ==> !HasUnsupported(items[i])
      invariant Added(before, engine.live, multiset(ptrs)) && HeldMeans(engine.live, ptrs, items[..k])
    {
      ghost var live := engine.live;
      var child := ValueFromPython(engine, items[k]);
      if child.Err? {
        failure := Some(child.error);
        return;
      }
      AddedNext(before, live, engine.live, multiset(ptrs), child.value);
      HeldNext(live, engine.live, ptrs, items, k, child.value);
      ptrs := ptrs + [child.value];
    }
    assert items[..|items|] == items;
  }

  /** The pointers are freed; what is left beside the values from before is the result, if there is one. */
  method Finally(engine: Engine, ptrs: seq<nat>, ghost before: map<nat, Native>, ghost r: Result<nat, Error>)
    requires engine.Valid()
    requires r.Err? ==> Added(before, engine.live, multiset(ptrs))
    requires r.Ok? ==>
               && r.value in engine.live && r.value !in ptrs && r.value !in before
               && Added(before, engine.live - {r.value}, multiset(ptrs))
    modifies engine
    ensures engine.Valid() && engine.next == old(engine.next) && engine.failures == old(engine.failures)
    ensures r.Err? ==> engine.live == before
    ensures r.Ok? ==> Made(before, engine.live, r.value) && engine.live[r.value] == old(engine.live[r.value])
  {
    ghost var kept := if r.Ok? then before[r.value := engine.live[r.value]] else before;
    DestroyAll(engine, ptrs, kept);
  }

  /** p is the one value more. */
  ghost predicate Made(before: map<nat, Native>, live: map<nat, Native>, p: nat) {
    && p !in before && p in live
    && forall q :: q != p ==> (q in live <==> q in before) && (q in live ==> live[q] == before[q])
  }

  ghost predicate HeldMeans(live: map<nat, Native>, ptrs: seq<nat>, items: seq<Parameter>) {
    && |ptrs| == |items|
    && forall k :: 0 <= k < |items| ==> ptrs[k] in live && Means(live[ptrs[k]], items[k])
  }

  lemma AddedNext(before: map<nat, Native>, live: map<nat, Native>, more: map<nat, Native>, ptrs: multiset<nat>, p: nat)
    requires Added(before, live, ptrs) && Made(live, more, p)
    ensures Added(before, more, ptrs + multiset{p})
  {
  }

  lemma HeldNext(live: map<nat, Native>, more: map<nat, Native>, ptrs: seq<nat>, items: seq<Parameter>, k: nat, p: nat)
    requires k < |items| && HeldMeans(live, ptrs, items[..k]) && Made(live, more, p) && Means(more[p], items[k])
    ensures HeldMeans(more, ptrs + [p], items[..k + 1])
  {
  }

  lemma HeldAll(live: map<nat, Native>, ptrs: seq<nat>, items: seq<Parameter>)
    requires HeldMeans(live, ptrs, items)
    ensures forall k :: 0 <= k < |ptrs| ==> ptrs[k] in live
    ensures MeansAll(Held(live, ptrs), items)
  {
  }

  lemma CreatedBeside(before: map<nat, Native>, live: map<nat, Native>, more: map<nat, Native>, ptrs: seq<nat>,
      r: Result<nat, Error>)
    requires Added(before, live, multiset(ptrs))
    requires r.Err? ==> more == live
    requires r.Ok? ==> r.value in more && r.value !in live && more == live[r.value := more[r.value]]
    ensures r.Err? ==> Added(before, more, multiset(ptrs))
    ensures r.Ok? ==> r.value !in ptrs && r.value !in before && Added(before, more - {r.value}, multiset(ptrs))
  {
    if r.Ok? {
      assert more - {r.value} == live;
      assert multiset(ptrs)[r.value] == 0;
    }
  }

  /** A map of the keys and values, in pairs. */
  method MapFromPython(engine: Engine, ghost parent: Parameter, keys: seq<Parameter>, values: seq<Parameter>)
      returns (r: Result<nat, Error>)
    requires engine.Valid() && |keys| == |values|
    requires forall k :: 0 <= k < |keys| ==> keys[k] < parent && values[k] < parent
    modifies engine
    ensures engine.Valid() && engine.next >= old(engine.next)
    ensures engine.failures >= old(engine.failures)
    ensures r.Ok? <==> engine.failures == old(engine.failures) && !AnyUnsupported(keys) && !AnyUnsupported(values)
    ensures r == Err(TypeError) ==> AnyUnsupported(keys) || AnyUnsupported(values)
    ensures r.Err? ==> engine.live == old(engine.live)
    ensures r.Ok? ==> Made(old(engine.live), engine.live, r.value) && engine.live[r.value].MapOf?
                      && MeansAll(engine.live[r.value].keys, keys) && MeansAll(engine.live[r.value].values, values)
    decreases parent, 0
  {
    hide *;
    ghost var before := engine.live;
    var keyPtrs, valuePtrs, failure := ConvertPairs(engine, parent, keys, values);
    if failure.None? {
      HeldAll(engine.live, keyPtrs, keys);
      HeldAll(engine.live, valuePtrs, values);
      ghost var live := engine.live;
      r := engine.Create(MapOf(Held(engine.live, keyPtrs), Held(engine.live, valuePtrs)), EngineError);
      CreatedBeside(before, live, engine.live, keyPtrs + valuePtrs, r);
    } else {
      r := Err(failure.value);
    }
    Finally(engine, keyPtrs + valuePtrs, before, r);
  }

  /** Converts keys and values in turn until one of them fails. */
  method ConvertPairs(engine: Engine, ghost parent: Parameter, keys: seq<Parameter>, values: seq<Parameter>)
      returns (keyPtrs: seq<nat>, valuePtrs: seq<nat>, failure: Option<Error>)
    requires engine.Valid() && |keys| == |values|
    requires forall k :: 0 <= k < |keys| ==> keys[k] < parent && values[k] < parent
    modifies engine
    ensures engine.Valid() && engine.next >= old(engine.next)
    ensures Added(old(engine.live), engine.live, multiset(keyPtrs + valuePtrs))
    ensures engine.failures >= old(engine.failures)
    ensures failure.None? <==>
              engine.failures == old(engine.failures) && !AnyUnsupported(keys) && !AnyUnsupported(values)
    ensures failure == Some(TypeError) ==> AnyUnsupported(keys) || AnyUnsupported(values)
    ensures failure.None? ==> HeldMeans(engine.live, keyPtrs, keys) && HeldMeans(engine.live, valuePtrs, values)
    decreases parent, 0, 0
  {
    hide *;
    ghost var before := engine.live;
    keyPtrs, valuePtrs, failure := [], [], None;
    NothingAdded(before);
    NoneUnsupported();
    assert keys[..0] == [] && values[..0] == [];
    for k := 0 to |keys|
      invariant engine.Valid() && engine.next >= old(engine.next) && engine.failures == old(engine.failures)
      invariant !AnyUnsupported(keys[..k]) && !AnyUnsupported(values[..k])
      invariant Added(before, engine.live, multiset(keyPtrs + valuePtrs))
      invariant HeldMeans(engine.live, keyPtrs, keys[..k]) && HeldMeans(engine.live, valuePtrs, values[..k])
    {
      ghost var live0 := engine.live;
      UnsupportedNext(keys, k);
      UnsupportedNext(values, k);
      var key := ValueFromPython(engine, keys[k]);
      if key.Err? {
        failure := Some(key.error);
        return;
      }
      ghost var live1 := engine.live;
      AddedNext(before, live0, live1, multiset(keyPtrs + valuePtrs), key.value);
      HeldNext(live0, live1, keyPtrs, keys, k, key.value);
      HeldKept(live0, live1, valuePtrs, values[..k], key.value);
      MoreKeys(keyPtrs, valuePtrs, key.value);
      keyPtrs := keyPtrs + [key.value];
      var value := ValueFromPython(engine, values[k]);
      if value.Err? {
        failure := Some(value.error);
        return;
      }
      AddedNext(before, live1, engine.live, multiset(keyPtrs + valuePtrs), value.value);
      HeldNext(live1, engine.live, valuePtrs, values, k, value.value);
      HeldKept(live1, engine.live, keyPtrs, keys[..k + 1], value.value);
      MoreValues(keyPtrs, valuePtrs, value.value);
      valuePtrs := valuePtrs + [value.value];
    }
    assert keys[..|keys|] == keys && values[..|keys|] == values;
  }

  lemma NoneUnsupported()
    ensures !AnyUnsupported([])
  {
  }

  lemma NothingAdded(live: map<nat, Native>)
    ensures HeldMeans(live, [], [])
    ensures var none: seq<nat> := []; Added(live, live, multiset(none + none))
  {
  }

  lemma MoreKeys(a: seq<nat>, b: seq<nat>, p: nat)
    ensures multiset((a + [p]) + b) == multiset(a + b) + multiset{p}
  {
  }

  lemma MoreValues(a: seq<nat>, b: seq<nat>, p: nat)
    ensures multiset(a + (b + [p])) == multiset(a + b) + multiset{p}
  {
  }

  lemma HeldKept(live: map<nat, Native>, more: map<nat, Native>, ptrs: seq<nat>, items: seq<Parameter>, p: nat)
    requires HeldMeans(live, ptrs, items) && Made(live, more, p)
    ensures HeldMeans(more, ptrs, items)
  {
  }

  /** A struct of the entries; encoding a name may fail too. */
  method StructFromPython(engine: Engine, ghost parent: Parameter, entries: seq<Entry>) returns (r: Result<nat, Error>)
    requires engine.Valid() && AllStrings(entries)
    requires forall k :: 0 <= k < |entries| ==> entries[k].value < parent
    modifies engine
    ensures engine.Valid() && engine.next >= old(engine.next)
    ensures engine.failures >= old(engine.failures)
    ensures r.Ok? <==> engine.failures == old(engine.failures) && !AnyUnsupported(Values(entries))
    ensures r == Err(TypeError) ==> AnyUnsupported(Values(entries))
    ensures r.Err? ==> engine.live == old(engine.live)
    ensures r.Ok? ==> Made(old(engine.live), engine.live, r.value) && engine.live[r.value].StructOf?
                      && engine.live[r.value].names == Names(entries)
                      && MeansAll(engine.live[r.value].values, Values(entries))
    decreases parent, 0
  {
    ghost var before := engine.live;
    var names, ptrs, failure := ConvertFields(engine, parent, entries);
    if failure.None? {
      r := engine.Create(StructOf(names, Held(engine.live, ptrs)), EngineError);
    } else {
      r := Err(failure.value);
    }
    Finally(engine, ptrs, before, r);
  }

  method ConvertFields(engine: Engine, ghost parent: Parameter, entries: seq<Entry>)
      returns (names: seq<string>, ptrs: seq<nat>, failure: Option<Error>)
    requires engine.Valid() && AllStrings(entries)
    requires forall k :: 0 <= k < |entries| ==> entries[k].value < parent
    modifies engine
    ensures engine.Valid() && engine.next >= old(engine.next) && Added(old(engine.live), engine.live, multiset(ptrs))
    ensures engine.failures >= old(engine.failures)
    ensures failure.None? <==> engine.failures == old(engine.failures) && !AnyUnsupported(Values(entries))
    ensures failure == Some(TypeError) ==> AnyUnsupported(Values(entries))
    ensures failure.None? ==> names == Names(entries) && HeldMeans(engine.live, ptrs, Values(entries))
    decreases parent, 0, 0
  {
    hide HasUnsupported, Means;
    ghost var before := engine.live;
    names, ptrs, failure := [], [], None;
    for k := 0 to |entries|
      invariant engine.Valid() && engine.next >= old(engine.next) && engine.failures == old(engine.failures)
      invariant forall i :: 0 <= i < k ==> !HasUnsupported(entries[i].value)
      invariant names == Names(entries)[..k]
      invariant Added(before, engine.live, multiset(ptrs)) && HeldMeans(engine.live, ptrs, Values(entries)[..k])
    {
      var encoded := engine.Encode(entries[k].key.s);
      if !encoded {
        failure := Some(EncodeError);
        return;
      }
      names := names + [entries[k].key.s];
      ghost var live := engine.live;
      assert Values(entries)[k] == entries[k].value;
      var child := ValueFromPython(engine, entries[k].value);
      if child.Err? {
        failure := Some(child.error);
        return;
      }
      AddedNext(before, live, engine.live, multiset(ptrs), child.value);
      HeldNext(live, engine.live, ptrs, Values(entries), k, child.value);
      ptrs := ptrs + [child.value];
    }
    assert Values(entries)[..|entries|] == Values(entries) && Names(entries)[..|entries|] == Names(entries);
  }
}
