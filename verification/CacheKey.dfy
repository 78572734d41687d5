/** The signature of a parameter determines the type inferred for it, so a cached statement fits every
    value that finds it (src_py/connection.py and src_cpp/py_connection.cpp).

  Lemmas about the entries of a dict switch automatic induction off also where they do not call
  themselves: its hypotheses over such sequences only get in the way of the verifier.
 */
module CacheKey {
  import opened Wrappers
  import opened PyTypes

  // ---------- The types that belong to a signature ----------

  /** The plain type of every regular value with this signature. */
  ghost function PlainType(sig: Signature, max: MaxType): Option<LogicalType>
    decreases sig, 0
  {
    match sig
    case AnySig => Some(AnyType)
    case BoolSig => Some(BoolType)
    case IntSig(w) => Some(IntegerType(w))
    case DoubleSig => Some(DoubleType)
    case StringSig => Some(StringType)
    case BlobSig => Some(BlobType)
    case UnknownSig(kind) => Some(TemporalType(kind))
    case PointerSig(_, _, _) => Some(PointerType)
    case ListSig(child) => ListOf(PlainType(child, max))
    case MapSig(key, value) =>
      var k, v := ListOf(PlainType(key, max)), ListOf(PlainType(value, max));
      if k.None? || v.None? || max(k.value, v.value).None? then None
      else Some(MapType(StringType, max(k.value, v.value).value))
    case StructSig(fields) =>
      var value := PlainMax(fields, AnyType, max);
      if value.None? then None
      else Some(MapType(if fields == [] then AnyType else StringType, value.value))
    case NamesSig(_) => None
  }

  ghost function PlainMax(fields: seq<SigField>, sofar: LogicalType, max: MaxType): Option<LogicalType>
    decreases fields, 1
  {
    if fields == [] then Some(sofar)
    else
      var t := PlainType(fields[0].sig, max);
      if t.None? || max(sofar, t.value).None? then None
      else PlainMax(fields[1..], max(sofar, t.value).value, max)
  }

  ghost function ListOf(t: Option<LogicalType>): Option<LogicalType> {
    if t.None? then None else Some(ListType(t.value))
  }

  /** Whether the look for a MAP fails on a struct of two fields. */
  ghost predicate MapCheckFails(fields: seq<SigField>, max: MaxType) {
    |fields| == 2 &&
    var t0 := PlainType(fields[0].sig, max);
    t0.None? || (t0.value.ListType? && PlainType(fields[1].sig, max).None?)
  }

  /** The parameter type of every regular value with this signature. */
  ghost function KeyType(sig: Signature, max: MaxType): Option<LogicalType>
    decreases sig, 0
  {
    match sig
    case ListSig(child) => ListOf(KeyType(child, max))
    case MapSig(key, value) =>
      var k, v := KeyType(key, max), KeyType(value, max);
      if PlainType(key, max).None? || PlainType(value, max).None? || k.None? || v.None? then None
      else Some(MapType(k.value, v.value))
    case StructSig(fields) =>
      var types := KeyFields(fields, max);
      if MapCheckFails(fields, max) || types.None? then None else Some(StructType(types.value))
    case _ => PlainType(sig, max)
  }

  ghost function KeyFields(fields: seq<SigField>, max: MaxType): Option<seq<(string, LogicalType)>>
    decreases fields, 1
  {
    if fields == [] then Some([])
    else
      var t, rest := KeyType(fields[0].sig, max), KeyFields(fields[1..], max);
      if t.None? || rest.None? then None else Some([(fields[0].name, t.value)] + rest.value)
  }

  // ---------- The values for which the two sides agree ----------

  ghost predicate IsNestedSig(sig: Signature) {
    sig.ListSig? || sig.MapSig? || sig.StructSig? || sig.NamesSig?
  }

  ghost predicate AllInts(items: seq<PyValue>) {
    forall k :: 0 <= k < |items| && items[k] != PyNone ==> items[k].PyInt?
  }

  /** Whether a null follows an item that is not null; with seen, such an item came before these. */
  predicate NullAfterItem(items: seq<PyValue>, seen: bool) {
    && items != []
    && (if items[0] == PyNone then seen || NullAfterItem(items[1..], seen) else NullAfterItem(items[1..], true))
  }

  /** All items that are not null have one signature. */
  ghost predicate OneSignature(items: seq<PyValue>, sig: Signature) {
    forall k :: 0 <= k < |items| && items[k] != PyNone ==> SignatureOf(items[k]) == sig
  }

  ghost predicate Uniform(items: seq<PyValue>) {
    AllInts(items) || exists sig :: OneSignature(items, sig)
  }

  /** Nulls do not follow lists or dicts. */
  ghost predicate NullsInOrder(items: seq<PyValue>) {
    FirstNonNull(items).Some? && IsNestedSig(SignatureOf(FirstNonNull(items).value)) ==> !NullAfterItem(items, false)
  }

  ghost predicate Regular(v: PyValue)
    decreases v
  {
    match v
    case PyInt(i) => FitsInt64(i)
    case PyList(items) => Uniform(items) && NullsInOrder(items) && forall k :: 0 <= k < |items| ==> Regular(items[k])
    case PyDict(entries) => forall k :: 0 <= k < |entries| ==> Regular(entries[k].value)
    case _ => true
  }

  // ---------- Proof ----------

  lemma {:induction false} MergedOfOne(items: seq<PyValue>, sofar: Option<Signature>, sig: Signature)
    requires forall k :: 0 <= k < |items| && items[k] != PyNone ==> SignatureOf(items[k]) == sig
    requires sofar == None || sofar == Some(sig)
    ensures MergedSignature(items, sofar) == if FirstNonNull(items).Some? then Some(sig) else sofar
  {
    if items != [] {
      MergedOfOne(items[1..], if items[0] == PyNone then sofar else Some(sig), sig);
      assert items[0] == PyNone ==> FirstNonNull(items) == FirstNonNull(items[1..]);
    }
  }

  lemma {:induction false} MergedOfInts(items: seq<PyValue>, sofar: Option<Signature>)
    requires AllInts(items) && (sofar.Some? ==> sofar.value.IntSig?)
    ensures MergedSignature(items, sofar).Some? ==> MergedSignature(items, sofar).value.IntSig?
    ensures MergedSignature(items, sofar).None? <==> sofar.None? && FirstNonNull(items).None?
  {
    if items != [] {
      var sig := SignatureOf(items[0]);
      MergedOfInts(items[1..], if items[0] == PyNone then sofar
                               else Some(if sofar.None? then sig else Merge(sofar.value, sig)));
    }
  }

  /** A list whose first item that is not null has signature sig is keyed by sig; ints by INT64. */
  lemma ListSignature(items: seq<PyValue>)
    requires Uniform(items) && FirstNonNull(items).Some?
    ensures var sig := SignatureOf(FirstNonNull(items).value);
            SignatureOf(PyList(items)) == ListSig(if sig.IntSig? then IntSig(INT64) else sig)
  {
    var first := FirstNonNull(items).value;
    var j :| 0 <= j < |items| && items[j] == first;
    if AllInts(items) {
      MergedOfInts(items, None);
    } else {
      var sig :| OneSignature(items, sig);
      MergedOfOne(items, None, sig);
    }
  }

  lemma EmptyListSignature(items: seq<PyValue>)
    requires FirstNonNull(items).None?
    ensures SignatureOf(PyList(items)) == ListSig(AnySig)
  {
    forall k | 0 <= k < |items| ensures items[k] == PyNone {
      assert items[k] in items;
    }
    MergedOfOne(items, None, AnySig);
  }

  lemma UniformIsHomogeneous(items: seq<PyValue>)
    requires Uniform(items) && FirstNonNull(items).Some?
    ensures var first := FirstNonNull(items).value;
            HomogeneousListType(items) ==
            if first.PyBool? then Some(ListType(BoolType))
            else if first.PyInt? then Some(ListType(IntegerType(INT64)))
            else if first.PyFloat? then Some(ListType(DoubleType)) else None
  {
  }

  lemma {:induction false} MaxOfSame(items: seq<PyValue>, sofar: LogicalType, t: Option<LogicalType>, max: MaxType)
    requires IsMaxType(max)
    requires forall k :: 0 <= k < |items| && items[k] != PyNone ==> LogicalTypeOf(items[k], max) == t
    requires sofar == AnyType || t == Some(sofar)
    ensures MaxOfItems(items, sofar, max) == if FirstNonNull(items).Some? then t else Some(sofar)
  {
    if items != [] {
      assert items[0] == PyNone ==> FirstNonNull(items) == FirstNonNull(items[1..]);
      if items[0] == PyNone {
        MaxOfSame(items[1..], sofar, t, max);
      } else if t.Some? {
        assert max(sofar, t.value) == t;
        MaxOfSame(items[1..], t.value, t, max);
      }
    }
  }

  lemma {:induction false} ChildOfSame(items: seq<PyValue>, sofar: LogicalType, t: Option<LogicalType>, max: MaxType)
    requires IsMaxType(max)
    requires forall k :: 0 <= k < |items| && items[k] != PyNone ==> ParameterType(items[k], max) == t
    requires sofar == AnyType || t == Some(sofar)
    ensures ChildParameterType(items, sofar, max) ==
            if t.Some? && IsNested(t.value) && NullAfterItem(items, sofar != AnyType) then MixedNesting
            else if FirstNonNull(items).None? then Child(sofar)
            else if t.None? then ChildThrows else Child(t.value)
  {
    if items != [] {
      assert items[0] == PyNone ==> FirstNonNull(items) == FirstNonNull(items[1..]);
      if items[0] == PyNone {
        assert ParameterType(items[0], max) == Some(AnyType);
        if !(t.Some? && IsNested(t.value) && sofar != AnyType) {
          ChildOfSame(items[1..], sofar, t, max);
        }
      } else if t.Some? {
        assert max(sofar, t.value) == t;
        ChildOfSame(items[1..], t.value, t, max);
      }
    }
  }

  ghost predicate Determined(v: PyValue, max: MaxType) {
    && LogicalTypeOf(v, max) == PlainType(SignatureOf(v), max)
    && ParameterType(v, max) == KeyType(SignatureOf(v), max)
  }

  lemma NestedTypes(sig: Signature, max: MaxType)
    ensures !IsNestedSig(sig) ==> KeyType(sig, max).Some?
    ensures KeyType(sig, max).Some? ==> (IsNested(KeyType(sig, max).value) <==> IsNestedSig(sig))
  {
  }

  lemma ListDetermined(items: seq<PyValue>, max: MaxType)
    requires IsMaxType(max) && Uniform(items) && NullsInOrder(items)
    requires forall k :: 0 <= k < |items| ==> Determined(items[k], max)
    ensures Determined(PyList(items), max)
  {
    var first := FirstNonNull(items);
    if first.None? {
      EmptyListSignature(items);
    } else {
      ListSignature(items);
      UniformIsHomogeneous(items);
      var v := first.value;
      if !(v.PyBool? || v.PyInt? || v.PyFloat?) {
        ListOfOne(items, max);
        NestedTypes(SignatureOf(v), max);
      }
    }
  }

  /** A list of strings, blobs, temporals, frames, lists or dicts of one signature, with nulls. */
  lemma {:induction false} ListOfOne(items: seq<PyValue>, max: MaxType)
    requires IsMaxType(max) && Uniform(items) && FirstNonNull(items).Some? && HomogeneousListType(items) == None
    requires forall k :: 0 <= k < |items| ==> Determined(items[k], max)
    ensures var sig := SignatureOf(FirstNonNull(items).value);
            var t := KeyType(sig, max);
            && LogicalTypeOf(PyList(items), max) == ListOf(PlainType(sig, max))
            && ParameterType(PyList(items), max) ==
               if t.Some? && IsNested(t.value) && NullAfterItem(items, false) then Some(JsonType) else ListOf(t)
  {
    UniformIsHomogeneous(items);
    var v := FirstNonNull(items).value;
    var j :| 0 <= j < |items| && items[j] == v;
    var sig :| OneSignature(items, sig);
    assert SignatureOf(v) == sig;
    MaxOfSame(items, AnyType, PlainType(sig, max), max);
    ChildOfSame(items, AnyType, KeyType(sig, max), max);
  }

  lemma {:induction false} EntriesDetermined(entries: seq<PyEntry>, sofar: LogicalType, max: MaxType)
    requires forall k :: 0 <= k < |entries| ==> Determined(entries[k].value, max)
    ensures MaxOfEntries(entries, sofar, max) == PlainMax(FieldSignatures(entries), sofar, max)
    ensures FieldTypes(entries, max) == KeyFields(FieldSignatures(entries), max)
  {
    if entries != [] {
      assert FieldSignatures(entries)[1..] == FieldSignatures(entries[1..]);
      var t := LogicalTypeOf(entries[0].value, max);
      assert Determined(entries[0].value, max);
      var next := if t.None? || max(sofar, t.value).None? then sofar else max(sofar, t.value).value;
      EntriesDetermined(entries[1..], next, max);
    }
  }

  lemma {:induction false} DictDetermined(entries: seq<PyEntry>, max: MaxType)
    requires IsMaxType(max)
    requires forall k :: 0 <= k < |entries| ==> Determined(entries[k].value, max)
    ensures Determined(PyDict(entries), max)
  {
    EntriesDetermined(entries, AnyType, max);
    if |entries| == 2 {
      assert Determined(entries[0].value, max) && Determined(entries[1].value, max);
      TwoEntries(entries, max);
    }
  }

  lemma {:induction false} TwoEntries(entries: seq<PyEntry>, max: MaxType)
    requires IsMaxType(max) && |entries| == 2
    requires Determined(entries[0].value, max) && Determined(entries[1].value, max)
    requires MaxOfEntries(entries, AnyType, max) == PlainMax(FieldSignatures(entries), AnyType, max)
    requires FieldTypes(entries, max) == KeyFields(FieldSignatures(entries), max)
    ensures Determined(PyDict(entries), max)
  {
    if MapShaped(entries) {
      MapDetermined(entries, max);
    } else {
      StructDetermined(entries, max);
    }
  }

  lemma {:induction false} MapDetermined(entries: seq<PyEntry>, max: MaxType)
    requires IsMaxType(max) && MapShaped(entries)
    requires Determined(entries[0].value, max) && Determined(entries[1].value, max)
    ensures Determined(PyDict(entries), max)
  {
    var v0, v1 := entries[0].value, entries[1].value;
    var t0, t1 := LogicalTypeOf(v0, max), LogicalTypeOf(v1, max);
    assert entries[1..][0] == entries[1] && entries[1..][1..] == [];
    if t0.Some? {
      assert MaxOfEntries(entries, AnyType, max) == MaxOfEntries(entries[1..], t0.value, max);
      if t1.Some? && max(t0.value, t1.value).Some? {
        assert MaxOfEntries(entries[1..], t0.value, max) == MaxOfEntries([], max(t0.value, t1.value).value, max);
      }
    }
  }

  lemma {:induction false} StructDetermined(entries: seq<PyEntry>, max: MaxType)
    requires |entries| == 2 && !MapShaped(entries)
    requires Determined(entries[0].value, max) && Determined(entries[1].value, max)
    requires MaxOfEntries(entries, AnyType, max) == PlainMax(FieldSignatures(entries), AnyType, max)
    requires FieldTypes(entries, max) == KeyFields(FieldSignatures(entries), max)
    ensures Determined(PyDict(entries), max)
  {
  }

  lemma {:induction false} KeyDeterminesType(v: PyValue, max: MaxType)
    requires IsMaxType(max) && Regular(v)
    ensures Determined(v, max)
    decreases v
  {
    match v
    case PyList(items) =>
      forall k | 0 <= k < |items| ensures Determined(items[k], max) {
        KeyDeterminesType(items[k], max);
      }
      ListDetermined(items, max);
    case PyDict(entries) =>
      forall k | 0 <= k < |entries| ensures Determined(entries[k].value, max) {
        KeyDeterminesType(entries[k].value, max);
      }
      DictDetermined(entries, max);
    case _ =>
  }

  /** The cache is sound on regular values: with equal signatures, a statement prepared for one has the
      parameter type that the other would have been given. */
  lemma SameKeySameType(v: PyValue, w: PyValue, max: MaxType)
    requires IsMaxType(max) && Regular(v) && Regular(w)
    requires SignatureOf(v) == SignatureOf(w)
    ensures ParameterType(v, max) == ParameterType(w, max)
  {
    KeyDeterminesType(v, max);
    KeyDeterminesType(w, max);
  }

  // ---------- The key determines the frames ----------

  /** w has the frames of v where v has them, and no others. The items of a list stand in one place. */
  ghost predicate SameFrames(v: PyValue, w: PyValue)
    decreases v
  {
    match v
    case PyFrame(_, _, _) => w == v
    case PyList(items) =>
      w.PyList? &&
      forall i, j :: 0 <= i < |items| && 0 <= j < |w.items| && items[i] != PyNone && w.items[j] != PyNone ==>
        SameFrames(items[i], w.items[j])
    case PyDict(entries) =>
      w.PyDict? && |w.entries| == |entries| &&
      forall k :: 0 <= k < |entries| ==> SameFrames(entries[k].value, w.entries[k].value)
    case _ => !w.PyFrame?
  }

  /** The signature of the items of a list that are not null; ints have no one signature. */
  lemma ItemSignature(items: seq<PyValue>, k: nat)
    requires Uniform(items) && k < |items| && items[k] != PyNone
    ensures SignatureOf(PyList(items)) ==
            ListSig(if items[k].PyInt? then IntSig(INT64) else SignatureOf(items[k]))
  {
    assert items[k] in items;
    ListSignature(items);
    var first := FirstNonNull(items).value;
    var j :| 0 <= j < |items| && items[j] == first;
    if !AllInts(items) {
      var sig :| OneSignature(items, sig);
      assert SignatureOf(items[k]) == sig == SignatureOf(first);
    }
  }

  lemma FieldAt(entries: seq<PyEntry>, k: nat)
    requires k < |entries|
    ensures FieldSignatures(entries)[k] == SigField(entries[k].name, SignatureOf(entries[k].value))
  {
    if k > 0 {
      FieldAt(entries[1..], k - 1);
    }
  }

  /** Frames are part of the key: regular values with one signature have the same frames in the same
      places, down to the generation of each. */
  lemma {:induction false} SameKeySameFrames(v: PyValue, w: PyValue)
    requires Regular(v) && Regular(w) && SignatureOf(v) == SignatureOf(w)
    ensures SameFrames(v, w)
    decreases v
  {
    match v
    case PyList(items) =>
      forall i, j | 0 <= i < |items| && 0 <= j < |w.items| && items[i] != PyNone && w.items[j] != PyNone
        ensures SameFrames(items[i], w.items[j])
      {
        ItemSignature(items, i);
        ItemSignature(w.items, j);
        if !items[i].PyInt? {
          SameKeySameFrames(items[i], w.items[j]);
        }
      }
    case PyDict(entries) =>
      SameEntries(entries, w);
      forall k | 0 <= k < |entries| ensures SameFrames(entries[k].value, w.entries[k].value) {
        SameKeySameFrames(entries[k].value, w.entries[k].value);
      }
    case _ =>
  }

  lemma {:induction false} SameEntries(entries: seq<PyEntry>, w: PyValue)
    requires SignatureOf(PyDict(entries)) == SignatureOf(w)
    ensures w.PyDict? && |w.entries| == |entries|
    ensures forall k :: 0 <= k < |entries| ==> SignatureOf(entries[k].value) == SignatureOf(w.entries[k].value)
  {
    if !MapShaped(entries) {
      forall k | 0 <= k < |entries| && |w.entries| == |entries|
        ensures SignatureOf(entries[k].value) == SignatureOf(w.entries[k].value)
      {
        FieldAt(entries, k);
        FieldAt(w.entries, k);
      }
    }
  }

  /** What the type says of the signature. */
  lemma TypeIsOf(a: Signature, b: Signature, max: MaxType)
    requires KeyType(a, max).Some? && KeyType(a, max) == KeyType(b, max)
    ensures a.ListSig? <==> b.ListSig?
    ensures a.MapSig? <==> b.MapSig?
    ensures a.StructSig? <==> b.StructSig?
    ensures a.PointerSig? <==> b.PointerSig?
    ensures !a.ListSig? && !a.MapSig? && !a.StructSig? && !a.PointerSig? ==> a == b
    ensures a.ListSig? ==> KeyType(a.child, max).Some? && KeyType(a.child, max) == KeyType(b.child, max)
    ensures a.MapSig? ==>
              && KeyType(a.key, max).Some? && KeyType(a.key, max) == KeyType(b.key, max)
              && KeyType(a.value, max).Some? && KeyType(a.value, max) == KeyType(b.value, max)
    ensures a.StructSig? ==>
              && KeyFields(a.fields, max).Some? && KeyFields(a.fields, max) == KeyFields(b.fields, max)
  {
  }

  lemma {:induction false} FieldTypeAt(fields: seq<SigField>, max: MaxType, k: nat)
    requires KeyFields(fields, max).Some? && k < |fields|
    ensures |KeyFields(fields, max).value| == |fields| && KeyType(fields[k].sig, max).Some?
    ensures KeyFields(fields, max).value[k] == (fields[k].name, KeyType(fields[k].sig, max).value)
  {
    if k > 0 {
      FieldTypeAt(fields[1..], max, k - 1);
    } else if |fields| > 1 {
      FieldTypeAt(fields[1..], max, 0);
    }
  }

  ghost predicate HaveOneKey(v: PyValue, w: PyValue) {
    SignatureOf(v) == SignatureOf(w)
  }

  ghost predicate HaveOneKeyType(v: PyValue, w: PyValue, max: MaxType) {
    KeyType(SignatureOf(v), max).Some? && KeyType(SignatureOf(v), max) == KeyType(SignatureOf(w), max)
  }

  lemma {:induction false} SameTypeSameKey(v: PyValue, w: PyValue, max: MaxType)
    requires Regular(v) && Regular(w) && HaveOneKeyType(v, w, max) && SameFrames(v, w)
    ensures HaveOneKey(v, w)
    decreases v
  {
    TypeIsOf(SignatureOf(v), SignatureOf(w), max);
    match v
    case PyList(items) => ItemsSameKey(items, w.items, max);
    case PyDict(entries) => EntriesSameKey(entries, w.entries, max);
    case _ =>
  }

  /** The child of the signature of a list is that of any item that is not null. */
  lemma {:induction false} ItemsSameKey(items: seq<PyValue>, others: seq<PyValue>, max: MaxType)
    requires Regular(PyList(items)) && Regular(PyList(others)) && HaveOneKeyType(PyList(items), PyList(others), max)
    requires SameFrames(PyList(items), PyList(others))
    ensures HaveOneKey(PyList(items), PyList(others))
    decreases PyList(items), 0
  {
    var a, b := SignatureOf(PyList(items)), SignatureOf(PyList(others));
    TypeIsOf(a, b, max);
    TypeIsOf(a.child, b.child, max);
    if FirstNonNull(items).None? {
      EmptyListSignature(items);
    } else if FirstNonNull(others).None? {
      EmptyListSignature(others);
    } else {
      var i :| 0 <= i < |items| && items[i] == FirstNonNull(items).value;
      var j :| 0 <= j < |others| && others[j] == FirstNonNull(others).value;
      ItemSignature(items, i);
      ItemSignature(others, j);
      if !items[i].PyInt? && !others[j].PyInt? {
        SameTypeSameKey(items[i], others[j], max);
      }
    }
  }

  lemma {:induction false} EntriesSameKey(entries: seq<PyEntry>, others: seq<PyEntry>, max: MaxType)
    requires Regular(PyDict(entries)) && Regular(PyDict(others)) && HaveOneKeyType(PyDict(entries), PyDict(others), max)
    requires SameFrames(PyDict(entries), PyDict(others))
    ensures HaveOneKey(PyDict(entries), PyDict(others))
    decreases PyDict(entries), 0
  {
    var a, b := SignatureOf(PyDict(entries)), SignatureOf(PyDict(others));
    TypeIsOf(a, b, max);
    if MapShaped(entries) {
      ListTypes(entries, others, max);
      SameTypeSameKey(entries[0].value, others[0].value, max);
      SameTypeSameKey(entries[1].value, others[1].value, max);
    } else {
      forall k | 0 <= k < |entries| ensures a.fields[k] == b.fields[k] {
        FieldAt(entries, k);
        FieldAt(others, k);
        FieldTypeAt(a.fields, max, k);
        FieldTypeAt(b.fields, max, k);
        SameTypeSameKey(entries[k].value, others[k].value, max);
      }
    }
  }

  lemma {:induction false} ListTypes(entries: seq<PyEntry>, others: seq<PyEntry>, max: MaxType)
    requires MapShaped(entries) && MapShaped(others) && HaveOneKeyType(PyDict(entries), PyDict(others), max)
    ensures HaveOneKeyType(entries[0].value, others[0].value, max)
    ensures HaveOneKeyType(entries[1].value, others[1].value, max)
  {
  }

  /** The key is exactly fine enough: two regular values have one signature if and only if they are
      inferred to have one type and have the same frames. So no statement is prepared twice for a type,
      and none that was prepared with one frame is used for another. */
  lemma SameKeyIff(v: PyValue, w: PyValue, max: MaxType)
    requires IsMaxType(max) && Regular(v) && Regular(w) && ParameterType(v, max).Some?
    ensures SignatureOf(v) == SignatureOf(w) <==>
              ParameterType(v, max) == ParameterType(w, max) && SameFrames(v, w)
  {
    KeyDeterminesType(v, max);
    KeyDeterminesType(w, max);
    if SignatureOf(v) == SignatureOf(w) {
      SameKeySameFrames(v, w);
    } else if ParameterType(v, max) == ParameterType(w, max) && SameFrames(v, w) {
      SameTypeSameKey(v, w, max);
    }
  }

  // ---------- Lists of different frames ----------

  ghost predicate FramesOrNulls(items: seq<PyValue>) {
    forall k :: 0 <= k < |items| ==> items[k].PyFrame? || items[k] == PyNone
  }

  lemma {:induction false} FirstFrameStays(items: seq<PyValue>, sofar: Option<Signature>)
    requires FramesOrNulls(items) && (sofar.Some? ==> sofar.value.PointerSig?)
    ensures MergedSignature(items, sofar) ==
            if sofar.Some? then sofar
            else if FirstNonNull(items).None? then None else Some(SignatureOf(FirstNonNull(items).value))
  {
    if items != [] {
      FirstFrameStays(items[1..], if items[0] == PyNone || sofar.Some? then sofar else Some(SignatureOf(items[0])));
    }
  }

  /** Of a list of frames only the first one is part of the key. */
  lemma FirstFrameDecides(items: seq<PyValue>, others: seq<PyValue>)
    requires FramesOrNulls(items) && FramesOrNulls(others)
    ensures SignatureOf(PyList(items)) == SignatureOf(PyList(others)) <==> FirstNonNull(items) == FirstNonNull(others)
  {
    FirstFrameStays(items, None);
    FirstFrameStays(others, None);
    FramesAreFirst(items);
    FramesAreFirst(others);
  }

  lemma FramesAreFirst(items: seq<PyValue>)
    requires FramesOrNulls(items)
    ensures FirstNonNull(items).Some? ==> FirstNonNull(items).value.PyFrame?
  {
  }

  /** Two lists with different second frames have one signature. */
  lemma KeyMissesFrames()
    ensures var a, b, c := PyFrame("DataFrame", 1, 7), PyFrame("DataFrame", 2, 7), PyFrame("DataFrame", 3, 7);
            SignatureOf(PyList([a, b])) == SignatureOf(PyList([a, c])) && !SameFrames(PyList([a, b]), PyList([a, c]))
  {
    var a, b, c := PyFrame("DataFrame", 1, 7), PyFrame("DataFrame", 2, 7), PyFrame("DataFrame", 3, 7);
    FirstFrameDecides([a, b], [a, c]);
    assert FirstNonNull([a, b]) == Some(a) == FirstNonNull([a, c]);
    assert [a, b][1] == b && [a, c][1] == c && b != c;
  }

  // ---------- Nulls among lists and dicts ----------

  /** What becomes of a list of lists or dicts of one signature with nulls among them: the type is the
      one that its signature stands for exactly when no null comes after an item, and JSON otherwise. */
  lemma NullsDecide(items: seq<PyValue>, max: MaxType)
    requires IsMaxType(max) && FirstNonNull(items).Some?
    requires forall k :: 0 <= k < |items| ==> Regular(items[k])
    requires exists sig :: OneSignature(items, sig) && IsNestedSig(sig) && KeyType(sig, max).Some?
    ensures ParameterType(PyList(items), max) == KeyType(SignatureOf(PyList(items)), max)
            <==> !NullAfterItem(items, false)
    ensures NullAfterItem(items, false) ==> ParameterType(PyList(items), max) == Some(JsonType)
  {
    forall k | 0 <= k < |items| ensures Determined(items[k], max) {
      KeyDeterminesType(items[k], max);
    }
    var sig :| OneSignature(items, sig) && IsNestedSig(sig) && KeyType(sig, max).Some?;
    var v := FirstNonNull(items).value;
    var j :| 0 <= j < |items| && items[j] == v;
    assert SignatureOf(v) == sig;
    assert !v.PyBool? && !v.PyInt? && !v.PyFloat?;
    KeyOfList(sig, max);
    hide *;
    assert Uniform(items) by {
      HasOneSignature(items, sig);
    }
    ListSignature(items);
    UniformIsHomogeneous(items);
    ListOfOne(items, max);
    NestedTypes(sig, max);
    NestedIsNotInt(sig);
    TypeOfList(KeyType(sig, max));
  }

  lemma HasOneSignature(items: seq<PyValue>, sig: Signature)
    requires OneSignature(items, sig)
    ensures Uniform(items)
  {
  }

  lemma KeyOfList(sig: Signature, max: MaxType)
    ensures KeyType(ListSig(sig), max) == ListOf(KeyType(sig, max))
  {
  }

  lemma NestedIsNotInt(sig: Signature)
    ensures IsNestedSig(sig) ==> !sig.IntSig?
  {
  }

  lemma TypeOfList(t: Option<LogicalType>)
    ensures ListOf(t) != Some(JsonType)
  {
  }

  /** [[1], None] and [None, [1]] have one signature and two types. */
  lemma KeyMissesNulls(max: MaxType)
    requires IsMaxType(max)
    ensures var ones := PyList([PyInt(1)]);
            var before, after := PyList([PyNone, ones]), PyList([ones, PyNone]);
            && SignatureOf(before) == SignatureOf(after)
            && ParameterType(before, max) == Some(ListType(ListType(IntegerType(INT64))))
            && ParameterType(after, max) == Some(JsonType)
  {
    var ones := PyList([PyInt(1)]);
    var before, after := [PyNone, ones], [ones, PyNone];
    assert before[1..] == [ones] && after[1..] == [PyNone];
    assert !NullAfterItem(before, false) by {
      assert !NullAfterItem([ones], false) by {
        assert [ones][1..] == [];
      }
    }
    assert NullAfterItem(after, false) by {
      assert NullAfterItem([PyNone], true);
    }
    NullBesideOnes(before, max);
    NullBesideOnes(after, max);
  }

  lemma Ones()
    ensures Regular(PyList([PyInt(1)])) && SignatureOf(PyList([PyInt(1)])) == ListSig(IntSig(INT64))
  {
  }

  lemma NullBesideOnes(items: seq<PyValue>, max: MaxType)
    requires IsMaxType(max)
    requires items == [PyNone, PyList([PyInt(1)])] || items == [PyList([PyInt(1)]), PyNone]
    ensures SignatureOf(PyList(items)) == ListSig(ListSig(IntSig(INT64)))
    ensures NullAfterItem(items, false) ==> ParameterType(PyList(items), max) == Some(JsonType)
    ensures !NullAfterItem(items, false) ==>
              ParameterType(PyList(items), max) == Some(ListType(ListType(IntegerType(INT64))))
  {
    var ones, sig := PyList([PyInt(1)]), ListSig(IntSig(INT64));
    Ones();
    assert OneSignature(items, sig);
    assert FirstNonNull(items) == Some(ones) by {
      assert items[1..] == [ones] || items[0] == ones;
    }
    assert KeyType(sig, max) == Some(ListType(IntegerType(INT64)));
    NullsDecide(items, max);
    ListSignature(items);
  }
}
