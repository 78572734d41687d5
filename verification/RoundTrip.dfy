/** Parameters on their way into the engine and back: a value is given a type, cast to it, and, when a
    query returns it, converted to a Python object (src_cpp/py_connection.cpp, src_cpp/py_query_result.cpp).
 */
module RoundTrip {
  import opened Wrappers
  import opened PyTypes
  import opened CacheKey

  /** A value of the engine. A map holds structs of a key and a value. */
  datatype Value = Value(logical: LogicalType, data: Data)

  datatype Data =
    | Null | Bool(b: bool) | Int(i: int) | Double(r: real) | Text(s: string) | Bytes(bytes: seq<bv8>)
    | Nested(children: seq<Value>)
    | Foreign(id: int)

  /** What a query returns. The entries of a dict are in the order of insertion. */
  datatype PyObject =
    | ONone | OBool(b: bool) | OInt(i: int) | OFloat(r: real) | OStr(s: string) | OBytes(bytes: seq<bv8>)
    | OList(items: seq<PyObject>)
    | ODict(entries: seq<Item>)
    | OForeign(id: int)

  datatype Item = Item(key: PyObject, value: PyObject)

  /** Python's conversions between kinds of values, the modules datetime, uuid and json: any behaviour. */
  datatype Python = Python(
    convert: (PyValue, LogicalType) -> Option<Data>,
    dumps: PyValue -> Option<string>,
    revive: (LogicalType, Data) -> Option<PyObject>)

  // ---------- Casting ----------

  function CastScalar(v: PyValue, t: LogicalType, py: Python): Option<Value> {
    match (t, v)
    case (AnyType, _) => Some(Value(AnyType, Null))
    case (BoolType, PyBool(b)) => Some(Value(t, Bool(b)))
    case (IntegerType(w), PyInt(i)) => if Fits(i, w) then Some(Value(t, Int(i))) else None
    case (DoubleType, PyFloat(r)) => Some(Value(t, Double(r)))
    case (StringType, PyStr(s)) => Some(Value(t, Text(s)))
    case (BlobType, PyBytes(bytes)) => Some(Value(t, Bytes(bytes)))
    case _ =>
      var data := py.convert(v, t);
      if data.None? then None else Some(Value(t, data.value))
  }

  function JsonText(v: PyValue, py: Python): Option<Value> {
    var text := py.dumps(v);
    if text.None? then None else Some(Value(StringType, Text(text.value)))
  }

  const MAP_KEY := "KEY"
  const MAP_VALUE := "VALUE"

  function EntryType(key: LogicalType, value: LogicalType): LogicalType {
    StructType([(MAP_KEY, key), (MAP_VALUE, value)])
  }

  /** The map that two cast lists make. */
  function MapPairs(k: LogicalType, w: LogicalType, ks: seq<Value>, vs: seq<Value>): (pairs: seq<Value>)
    requires |ks| == |vs|
  {
    seq(|ks|, i requires 0 <= i < |ks| => Value(EntryType(k, w), Nested([ks[i], vs[i]])))
  }

  /** None stands for an exception. A map infers the types of its two lists again. */
  function Cast(v: PyValue, t: LogicalType, max: MaxType, py: Python): Option<Value>
    decreases v, 1
  {
    if v == PyNone then Some(Value(t, Null))
    else
      match t
      case ListType(child) =>
        if child == JsonType then JsonText(v, py)
        else if !v.PyList? then None
        else
          var children := CastItems(v.items, child, max, py);
          if children.None? then None else Some(Value(t, Nested(children.value)))
      case MapType(k, w) =>
        if !v.PyDict? || |v.entries| < 2 then None
        else
          var kt, wt := ParameterType(v.entries[0].value, max), ParameterType(v.entries[1].value, max);
          if kt.None? || wt.None? then None
          else
            var keys, values := Cast(v.entries[0].value, kt.value, max, py),
                                Cast(v.entries[1].value, wt.value, max, py);
            if keys.None? || values.None? || !keys.value.data.Nested? || !values.value.data.Nested? then None
            else
              var ks, vs := keys.value.data.children, values.value.data.children;
              if |ks| != |vs| then None
              else Some(Value(t, Nested(MapPairs(k, w, ks, vs))))
      case StructType(fields) =>
        if !v.PyDict? then None
        else
          var children := CastFields(v.entries, fields, max, py);
          if children.None? then None else Some(Value(t, Nested(children.value)))
      case JsonType => if v.PyStr? then Some(Value(StringType, Text(v.s))) else JsonText(v, py)
      case _ => CastScalar(v, t, py)
  }

  function CastItems(items: seq<PyValue>, t: LogicalType, max: MaxType, py: Python): Option<seq<Value>>
    decreases items, 2
  {
    if items == [] then Some([])
    else
      var first, rest := Cast(items[0], t, max, py), CastItems(items[1..], t, max, py);
      if first.None? || rest.None? then None else Some([first.value] + rest.value)
  }

  function CastFields(entries: seq<PyEntry>, fields: seq<(string, LogicalType)>, max: MaxType,
      py: Python): Option<seq<Value>>
    decreases entries, 2
  {
    if entries == [] then Some([])
    else if fields == [] then None
    else
      var first, rest := Cast(entries[0].value, fields[0].1, max, py), CastFields(entries[1..], fields[1..], max, py);
      if first.None? || rest.None? then None else Some([first.value] + rest.value)
  }

  // ---------- Conversion back ----------

  /** Whether two dict keys are equal in Python: numbers compare by value. */
  predicate SameKey(a: PyObject, b: PyObject) {
    a == b || (Number(a).Some? && Number(a) == Number(b))
  }

  function Number(a: PyObject): Option<real> {
    match a
    case OBool(b) => Some(if b then 1.0 else 0.0)
    case OInt(i) => Some(i as real)
    case OFloat(r) => Some(r)
    case _ => None
  }

  /** True is 1 is 1.0, as dict keys. */
  lemma EqualNumbers(b: bool, i: int, r: real)
    ensures SameKey(OBool(b), OInt(i)) <==> i == if b then 1 else 0
    ensures SameKey(OInt(i), OFloat(r)) <==> r == i as real
    ensures SameKey(OBool(b), OFloat(r)) <==> r == if b then 1.0 else 0.0
  {
  }

  predicate Hashable(a: PyObject) {
    !a.OList? && !a.ODict?
  }

  /** d[key] = value */
  function SetItem(d: seq<Item>, key: PyObject, value: PyObject): seq<Item> {
    if d == [] then [Item(key, value)]
    else if SameKey(d[0].key, key) then [Item(d[0].key, value)] + d[1..]
    else [d[0]] + SetItem(d[1..], key, value)
  }

  /** None stands for an exception: a list or dict cannot be a key. */
  function Back(x: Value, py: Python): Option<PyObject>
    decreases x, 0
  {
    match (x.logical, x.data)
    case (_, Null) => Some(ONone)
    case (BoolType, Bool(b)) => Some(OBool(b))
    case (IntegerType(_), Int(i)) => Some(OInt(i))
    case (DoubleType, Double(r)) => Some(OFloat(r))
    case (StringType, Text(s)) => Some(OStr(s))
    case (JsonType, Text(s)) => Some(OStr(s))
    case (BlobType, Bytes(bytes)) => Some(OBytes(bytes))
    case (ListType(_), Nested(children)) =>
      var items := BackAll(children, py);
      if items.None? then None else Some(OList(items.value))
    case (MapType(_, _), Nested(children)) =>
      var entries := BackPairs(children, [], py);
      if entries.None? then None else Some(ODict(entries.value))
    case (StructType(fields), Nested(children)) =>
      var entries := BackFields(children, fields, [], py);
      if entries.None? then None else Some(ODict(entries.value))
    case (t, data) => py.revive(t, data)
  }

  function BackAll(children: seq<Value>, py: Python): Option<seq<PyObject>>
    decreases children, 1
  {
    if children == [] then Some([])
    else
      var first, rest := Back(children[0], py), BackAll(children[1..], py);
      if first.None? || rest.None? then None else Some([first.value] + rest.value)
  }

  function BackPairs(pairs: seq<Value>, d: seq<Item>, py: Python): Option<seq<Item>>
    decreases pairs, 1
  {
    if pairs == [] then Some(d)
    else
      var item := BackPair(pairs[0], py);
      if item.None? || !Hashable(item.value.key) then None
      else BackPairs(pairs[1..], SetItem(d, item.value.key, item.value.value), py)
  }

  function BackPair(pair: Value, py: Python): Option<Item>
    decreases pair, 0
  {
    if !pair.data.Nested? || |pair.data.children| != 2 then None
    else
      var k, v := Back(pair.data.children[0], py), Back(pair.data.children[1], py);
      if k.None? || v.None? then None else Some(Item(k.value, v.value))
  }

  function BackFields(children: seq<Value>, fields: seq<(string, LogicalType)>, d: seq<Item>,
      py: Python): Option<seq<Item>>
    decreases children, 1
  {
    if children == [] then Some(d)
    else if fields == [] then None
    else
      var v := Back(children[0], py);
      if v.None? then None
      else BackFields(children[1..], fields[1..], SetItem(d, OStr(fields[0].0), v.value), py)
  }

  // ---------- What is promised ----------

  /** Every part of x has the type its place asks for, and its data is of that type. */
  predicate HasType(x: Value, t: LogicalType)
    decreases x
  {
    && x.logical == t
    && match (t, x.data)
       case (_, Null) => true
       case (BoolType, Bool(_)) => true
       case (IntegerType(w), Int(i)) => Fits(i, w)
       case (DoubleType, Double(_)) => true
       case (StringType, Text(_)) => true
       case (BlobType, Bytes(_)) => true
       case (ListType(child), Nested(children)) => forall k :: 0 <= k < |children| ==> HasType(children[k], child)
       case (MapType(key, value), Nested(pairs)) =>
         forall k :: 0 <= k < |pairs| ==> HasType(pairs[k], EntryType(key, value))
       case (StructType(fields), Nested(children)) =>
         && |children| == |fields|
         && forall k :: 0 <= k < |children| ==> HasType(children[k], fields[k].1)
       case _ => false
  }

  ghost predicate HasKey(d: seq<Item>, key: PyObject) {
    exists i :: 0 <= i < |d| && SameKey(d[i].key, key)
  }

  ghost predicate DistinctKeys(d: seq<Item>) {
    forall i, j :: 0 <= i < j < |d| ==> !SameKey(d[i].key, d[j].key)
  }

  ghost predicate LastOf(keys: seq<PyObject>, j: int) {
    0 <= j < |keys| && forall l :: j < l < |keys| ==> !SameKey(keys[l], keys[j])
  }

  /** An item with a key that is last at j has the value at j. */
  ghost predicate LastWins(item: Item, keys: seq<PyObject>, values: seq<PyObject>)
    requires |keys| == |values|
  {
    forall j :: LastOf(keys, j) && SameKey(item.key, keys[j]) ==> item.value == values[j]
  }

  /** d maps every key to the value beside its last occurrence, and has no other keys. */
  ghost predicate MapsTo(d: seq<Item>, keys: seq<PyObject>, values: seq<PyObject>) {
    && |keys| == |values|
    && DistinctKeys(d)
    && (forall j :: 0 <= j < |keys| ==> HasKey(d, keys[j]))
    && (forall i :: 0 <= i < |d| ==> d[i].key in keys && LastWins(d[i], keys, values))
  }

  /** o is what v should come back as. */
  ghost predicate Returns(v: PyValue, o: PyObject)
    decreases v, 0
  {
    match v
    case PyNone => o == ONone
    case PyBool(b) => o == OBool(b)
    case PyInt(i) => o == OInt(i)
    case PyFloat(r) => o == OFloat(r)
    case PyStr(s) => o == OStr(s)
    case PyBytes(bytes) => o == OBytes(bytes)
    case PyTemporal(_, _) => false
    case PyFrame(_, _, _) => false
    case PyList(items) => o.OList? && ReturnsAll(items, o.items)
    case PyDict(entries) =>
      && o.ODict?
      && if MapShaped(entries) then
           exists keys, values ::
             && ReturnsAll(entries[0].value.items, keys)
             && ReturnsAll(entries[1].value.items, values)
             && MapsTo(o.entries, keys, values)
         else
           && |o.entries| == |entries|
           && forall k :: 0 <= k < |entries| ==>
                o.entries[k].key == OStr(entries[k].name) && Returns(entries[k].value, o.entries[k].value)
  }

  ghost predicate ReturnsAll(items: seq<PyValue>, objects: seq<PyObject>)
    decreases items, 1
  {
    |objects| == |items| && forall k :: 0 <= k < |items| ==> Returns(items[k], objects[k])
  }

  /** The keys of every dict of the shape of a map are scalars or None. */
  predicate KeysHashable(v: PyValue)
    decreases v
  {
    match v
    case PyList(items) => forall k :: 0 <= k < |items| ==> KeysHashable(items[k])
    case PyDict(entries) =>
      && (forall k :: 0 <= k < |entries| ==> KeysHashable(entries[k].value))
      && (MapShaped(entries) ==>
            var keys := entries[0].value.items;
            forall k :: 0 <= k < |keys| ==> !keys[k].PyList? && !keys[k].PyDict?)
    case _ => true
  }

  /** All items that are not null are inferred to have one type, and nulls do not follow nested ones. */
  ghost predicate OneType(items: seq<PyValue>, t: Option<LogicalType>, max: MaxType) {
    && (forall k :: 0 <= k < |items| && items[k] != PyNone ==> ParameterType(items[k], max) == t)
    && (t.Some? && IsNested(t.value) ==> !NullAfterItem(items, false))
  }

  predicate DistinctNames(entries: seq<PyEntry>) {
    forall i, j :: 0 <= i < j < |entries| ==> entries[i].name != entries[j].name
  }

  /** The values of the round trip. */
  ghost predicate Travels(v: PyValue, max: MaxType)
    decreases v
  {
    match v
    case PyInt(i) => FitsInt64(i)
    case PyTemporal(_, _) => false
    case PyFrame(_, _, _) => false
    case PyList(items) =>
      && (HomogeneousListType(items).Some? || exists t :: OneType(items, t, max))
      && forall k :: 0 <= k < |items| ==> Travels(items[k], max)
    case PyDict(entries) => DistinctNames(entries) && forall k :: 0 <= k < |entries| ==> Travels(entries[k].value, max)
    case _ => true
  }

  /** x has the type t and comes back as v, unless a key is not hashable. */
  ghost predicate Landed(v: PyValue, t: LogicalType, x: Value, py: Python) {
    && HasType(x, t)
    && (Back(x, py).Some? <==> KeysHashable(v))
    && (Back(x, py).Some? ==> Returns(v, Back(x, py).value))
  }

  /** The cast to t succeeds, and so does the way back. */
  ghost predicate Lands(v: PyValue, t: LogicalType, max: MaxType, py: Python) {
    Cast(v, t, max, py).Some? && Landed(v, t, Cast(v, t, max, py).value, py)
  }

  // ---------- Dicts ----------

  lemma {:induction false} SetItemAt(d: seq<Item>, key: PyObject, value: PyObject) returns (i: nat)
    ensures i <= |d| && forall j :: 0 <= j < i ==> !SameKey(d[j].key, key)
    ensures i == |d| ==> SetItem(d, key, value) == d + [Item(key, value)]
    ensures i < |d| ==> SameKey(d[i].key, key) && SetItem(d, key, value) == d[i := Item(d[i].key, value)]
  {
    hide SameKey, Number;
    if d == [] || SameKey(d[0].key, key) {
      i := 0;
    } else {
      var rest := d[1..];
      var j := SetItemAt(rest, key, value);
      i := j + 1;
      assert d == [d[0]] + rest;
      forall l | 0 <= l < i ensures !SameKey(d[l].key, key) {
        assert l > 0 ==> d[l] == rest[l - 1];
      }
    }
  }

  lemma SetItemKeys(d: seq<Item>, key: PyObject, value: PyObject)
    requires DistinctKeys(d)
    ensures var r := SetItem(d, key, value);
            && DistinctKeys(r)
            && HasKey(r, key)
            && (forall k :: HasKey(d, k) ==> HasKey(r, k))
            && (forall i :: 0 <= i < |r| ==> r[i].key == key || exists j :: 0 <= j < |d| && r[i].key == d[j].key)
  {
    var at := SetItemAt(d, key, value);
    var r := SetItem(d, key, value);
    assert forall i :: 0 <= i < |d| ==> r[i].key == d[i].key;
    assert SameKey(r[at].key, key);
    forall k | HasKey(d, k) ensures HasKey(r, k) {
      var i :| 0 <= i < |d| && SameKey(d[i].key, k);
      assert SameKey(r[i].key, k);
    }
  }

  lemma LastOfMore(keys: seq<PyObject>, key: PyObject, j: int)
    requires LastOf(keys + [key], j)
    ensures j < |keys| ==> LastOf(keys, j) && !SameKey(key, keys[j])
  {
    var ks := keys + [key];
    if j < |keys| {
      assert ks[|keys|] == key && ks[j] == keys[j];
      forall l | j < l < |keys| ensures !SameKey(keys[l], keys[j]) {
        assert ks[l] == keys[l];
      }
    }
  }

  lemma WinsKept(item: Item, keys: seq<PyObject>, values: seq<PyObject>, key: PyObject,
      value: PyObject)
    requires |keys| == |values| && LastWins(item, keys, values) && !SameKey(item.key, key)
    ensures LastWins(item, keys + [key], values + [value])
  {
    forall j | LastOf(keys + [key], j) && SameKey(item.key, (keys + [key])[j])
      ensures item.value == (values + [value])[j]
    {
      LastOfMore(keys, key, j);
    }
  }

  lemma WinsNew(own: PyObject, keys: seq<PyObject>, values: seq<PyObject>, key: PyObject,
      value: PyObject)
    requires |keys| == |values| && SameKey(own, key)
    ensures LastWins(Item(own, value), keys + [key], values + [value])
  {
    forall j | LastOf(keys + [key], j) && SameKey(own, (keys + [key])[j])
      ensures value == (values + [value])[j]
    {
      LastOfMore(keys, key, j);
    }
  }

  lemma SetItemWins(d: seq<Item>, keys: seq<PyObject>, values: seq<PyObject>, key: PyObject,
      value: PyObject, i: int)
    requires |keys| == |values| && DistinctKeys(d)
    requires 0 <= i < |SetItem(d, key, value)|
    requires forall k :: 0 <= k < |d| ==> LastWins(d[k], keys, values)
    ensures LastWins(SetItem(d, key, value)[i], keys + [key], values + [value])
  {
    hide LastWins;
    var at := SetItemAt(d, key, value);
    if i == at {
      WinsNew(if at < |d| then d[at].key else key, keys, values, key, value);
    } else {
      assert at < |d| ==> SameKey(d[at].key, key);
      assert !SameKey(d[i].key, key);
      WinsKept(d[i], keys, values, key, value);
    }
  }

  lemma SetItemMaps(d: seq<Item>, keys: seq<PyObject>, values: seq<PyObject>, key: PyObject,
      value: PyObject)
    requires MapsTo(d, keys, values)
    ensures MapsTo(SetItem(d, key, value), keys + [key], values + [value])
  {
    hide LastWins, SetItem, DistinctKeys, HasKey, SameKey;
    SetItemKeys(d, key, value);
    var r, ks, vs := SetItem(d, key, value), keys + [key], values + [value];
    forall i | 0 <= i < |r| ensures r[i].key in ks && LastWins(r[i], ks, vs) {
      SetItemWins(d, keys, values, key, value, i);
      if r[i].key == key {
        assert ks[|keys|] == key;
      } else {
        var j :| 0 <= j < |d| && r[i].key == d[j].key;
        assert d[j].key in keys;
      }
    }
    forall j | 0 <= j < |ks| ensures HasKey(r, ks[j]) {
      assert j < |keys| ==> HasKey(d, keys[j]) && ks[j] == keys[j];
    }
  }

  // ---------- Lists ----------

  lemma {:induction false} ItemsLand(items: seq<PyValue>, t: LogicalType, max: MaxType, py: Python)
    requires forall k :: 0 <= k < |items| ==> Lands(items[k], t, max, py)
    ensures CastItems(items, t, max, py).Some?
    ensures var children := CastItems(items, t, max, py).value;
            && |children| == |items|
            && (forall k :: 0 <= k < |children| ==> HasType(children[k], t))
            && (BackAll(children, py).Some? <==> forall k :: 0 <= k < |items| ==> KeysHashable(items[k]))
            && (BackAll(children, py).Some? ==> ReturnsAll(items, BackAll(children, py).value))
  {
    hide Cast, Back, Returns, HasType, KeysHashable, ParameterType;
    if items != [] {
      ItemsLand(items[1..], t, max, py);
      var children := CastItems(items, t, max, py).value;
      var rest := CastItems(items[1..], t, max, py).value;
      assert Lands(items[0], t, max, py) && children[1..] == rest;
      assert forall k :: 1 <= k < |items| ==> items[k] == items[1..][k - 1] && children[k] == rest[k - 1];
      assert (forall k :: 0 <= k < |items| ==> KeysHashable(items[k])) <==>
             KeysHashable(items[0]) && forall k :: 0 <= k < |items[1..]| ==> KeysHashable(items[1..][k]);
    }
  }

  lemma ListLands(items: seq<PyValue>, t: LogicalType, max: MaxType, py: Python)
    requires t != JsonType
    requires forall k :: 0 <= k < |items| ==> Lands(items[k], t, max, py)
    ensures Lands(PyList(items), ListType(t), max, py)
  {
    hide *;
    ItemsLand(items, t, max, py);
    var children := CastItems(items, t, max, py).value;
    ListSums(items, t, children, py);
    CastList(items, t, max, py);
    LandsBy(PyList(items), ListType(t), Value(ListType(t), Nested(children)), max, py);
  }

  lemma CastList(items: seq<PyValue>, t: LogicalType, max: MaxType, py: Python)
    requires t != JsonType && CastItems(items, t, max, py).Some?
    ensures Cast(PyList(items), ListType(t), max, py) ==
              Some(Value(ListType(t), Nested(CastItems(items, t, max, py).value)))
  {
  }

  lemma LandsBy(v: PyValue, t: LogicalType, x: Value, max: MaxType, py: Python)
    requires Cast(v, t, max, py) == Some(x) && Landed(v, t, x, py)
    ensures Lands(v, t, max, py)
  {
  }

  lemma ListSums(items: seq<PyValue>, t: LogicalType, children: seq<Value>, py: Python)
    requires |children| == |items|
    requires forall k :: 0 <= k < |children| ==> HasType(children[k], t)
    requires BackAll(children, py).Some? <==> forall k :: 0 <= k < |items| ==> KeysHashable(items[k])
    requires BackAll(children, py).Some? ==> ReturnsAll(items, BackAll(children, py).value)
    ensures Landed(PyList(items), ListType(t), Value(ListType(t), Nested(children)), py)
  {
  }

  // ---------- Structs ----------

  lemma {:induction false} FieldsCast(entries: seq<PyEntry>, fields: seq<(string, LogicalType)>, max: MaxType,
      py: Python)
    requires |fields| == |entries|
    requires forall k :: 0 <= k < |entries| ==> Lands(entries[k].value, fields[k].1, max, py)
    ensures CastFields(entries, fields, max, py).Some?
    ensures var children := CastFields(entries, fields, max, py).value;
            && |children| == |entries|
            && forall k :: 0 <= k < |children| ==>
                 Cast(entries[k].value, fields[k].1, max, py) == Some(children[k])
  {
    hide Cast, Back, Returns, HasType, KeysHashable, ParameterType;
    if entries != [] {
      assert Lands(entries[0].value, fields[0].1, max, py);
      assert forall k :: 0 <= k < |entries[1..]| ==>
               entries[1..][k] == entries[k + 1] && fields[1..][k] == fields[k + 1];
      FieldsCast(entries[1..], fields[1..], max, py);
      var children, rest := CastFields(entries, fields, max, py).value,
                            CastFields(entries[1..], fields[1..], max, py).value;
      assert forall k :: 1 <= k < |children| ==> children[k] == rest[k - 1];
    }
  }

  lemma SetNewItem(d: seq<Item>, key: PyObject, value: PyObject)
    requires !HasKey(d, key)
    ensures SetItem(d, key, value) == d + [Item(key, value)]
  {
    var at := SetItemAt(d, key, value);
  }

  predicate Unused(d: seq<Item>, entries: seq<PyEntry>) {
    forall i, k :: 0 <= i < |d| && 0 <= k < |entries| ==> d[i].key.OStr? && d[i].key.s != entries[k].name
  }

  lemma {:induction false} FieldsBack(entries: seq<PyEntry>, fields: seq<(string, LogicalType)>,
      children: seq<Value>, d: seq<Item>, py: Python)
    requires |fields| == |entries| == |children| && DistinctNames(entries) && Unused(d, entries)
    requires forall k :: 0 <= k < |entries| ==> fields[k].0 == entries[k].name
    ensures BackFields(children, fields, d, py).Some? <==>
              forall k :: 0 <= k < |children| ==> Back(children[k], py).Some?
    ensures BackFields(children, fields, d, py).Some? ==>
              var r := BackFields(children, fields, d, py).value;
              && |r| == |d| + |entries| && r[..|d|] == d
              && forall k :: 0 <= k < |entries| ==>
                   r[|d| + k] == Item(OStr(entries[k].name), Back(children[k], py).value)
  {
    hide Back;
    if entries == [] {
      assert d[..|d|] == d;
    } else if Back(children[0], py).Some? {
      var item := Item(OStr(entries[0].name), Back(children[0], py).value);
      SetNewItem(d, item.key, item.value);
      var more, rest := entries[1..], children[1..];
      assert forall k :: 0 <= k < |more| ==>
               more[k] == entries[k + 1] && fields[1..][k] == fields[k + 1] && rest[k] == children[k + 1];
      FieldsBack(more, fields[1..], rest, d + [item], py);
      assert forall k :: 1 <= k < |children| ==> children[k] == rest[k - 1];
      var o := BackFields(children, fields, d, py);
      if o.Some? {
        var r := o.value;
        assert r[..|d| + 1] == d + [item];
        assert r[..|d|] == r[..|d| + 1][..|d|];
        assert r[|d|] == r[..|d| + 1][|d|];
        forall k | 1 <= k < |entries| ensures r[|d| + k] == Item(OStr(entries[k].name), Back(children[k], py).value) {
          assert r[|d + [item]| + (k - 1)] == Item(OStr(more[k - 1].name), Back(rest[k - 1], py).value);
        }
      }
    }
  }

  lemma {:induction false} StructLands(entries: seq<PyEntry>, fields: seq<(string, LogicalType)>, max: MaxType,
      py: Python)
    requires |fields| == |entries| && DistinctNames(entries) && !MapShaped(entries)
    requires forall k :: 0 <= k < |entries| ==>
               fields[k].0 == entries[k].name && Lands(entries[k].value, fields[k].1, max, py)
    ensures Lands(PyDict(entries), StructType(fields), max, py)
  {
    FieldsCast(entries, fields, max, py);
    var children := CastFields(entries, fields, max, py).value;
    FieldsBack(entries, fields, children, [], py);
    hide CastFields, BackFields, ParameterType, Landed;
    forall k | 0 <= k < |entries| ensures Landed(entries[k].value, fields[k].1, children[k], py) {
      assert Lands(entries[k].value, fields[k].1, max, py);
    }
    StructSums(entries, fields, children, py);
    LandsBy(PyDict(entries), StructType(fields), Value(StructType(fields), Nested(children)), max, py);
  }

  lemma {:induction false} StructSums(entries: seq<PyEntry>, fields: seq<(string, LogicalType)>,
      children: seq<Value>, py: Python)
    requires |fields| == |entries| == |children| && !MapShaped(entries)
    requires forall k :: 0 <= k < |entries| ==> Landed(entries[k].value, fields[k].1, children[k], py)
    requires BackFields(children, fields, [], py).Some? <==>
               forall k :: 0 <= k < |children| ==> Back(children[k], py).Some?
    requires BackFields(children, fields, [], py).Some? ==>
              var r := BackFields(children, fields, [], py).value;
              && |r| == |entries|
              && forall k :: 0 <= k < |entries| ==> r[0 + k] == Item(OStr(entries[k].name), Back(children[k], py).value)
    ensures Landed(PyDict(entries), StructType(fields), Value(StructType(fields), Nested(children)), py)
  {
    hide BackFields;
    StructTyped(fields, children);
    hide HasType;
    assert KeysHashable(PyDict(entries)) <==> forall k :: 0 <= k < |entries| ==> KeysHashable(entries[k].value);
    hide KeysHashable;
    var o := BackFields(children, fields, [], py);
    if o.Some? {
      forall k | 0 <= k < |entries|
        ensures o.value[k].key == OStr(entries[k].name) && Returns(entries[k].value, o.value[k].value)
      {
        assert o.value[0 + k] == Item(OStr(entries[k].name), Back(children[k], py).value);
      }
    }
  }

  lemma StructTyped(fields: seq<(string, LogicalType)>, children: seq<Value>)
    requires |fields| == |children| && forall k :: 0 <= k < |children| ==> HasType(children[k], fields[k].1)
    ensures HasType(Value(StructType(fields), Nested(children)), StructType(fields))
  {
  }

  // ---------- Maps ----------

  ghost predicate PairsOf(pairs: seq<Value>, ks: seq<Value>, vs: seq<Value>) {
    && |pairs| == |ks| == |vs|
    && forall k :: 0 <= k < |pairs| ==> pairs[k].data == Nested([ks[k], vs[k]])
  }

  ghost predicate AllHashable(keys: seq<PyObject>) {
    forall k :: 0 <= k < |keys| ==> Hashable(keys[k])
  }

  lemma HashableCons(keys: seq<PyObject>)
    requires keys != []
    ensures AllHashable(keys) <==> Hashable(keys[0]) && AllHashable(keys[1..])
  {
  }

  lemma {:induction false} PairsBack(pairs: seq<Value>, ks: seq<Value>, vs: seq<Value>, d: seq<Item>,
      keys: seq<PyObject>, values: seq<PyObject>, py: Python)
    requires PairsOf(pairs, ks, vs) && MapsTo(d, keys, values)
    ensures var r, a, b := BackPairs(pairs, d, py), BackAll(ks, py), BackAll(vs, py);
            && (r.Some? <==> a.Some? && b.Some? && AllHashable(a.value))
            && (r.Some? ==> MapsTo(r.value, keys + a.value, values + b.value))
  {
    hide Back, MapsTo, SetItem, AllHashable, Hashable;
    var a, b := BackAll(ks, py), BackAll(vs, py);
    if pairs == [] {
      assert keys + [] == keys && values + [] == values;
      EmptyHashable();
    } else {
      assert pairs[0].data == Nested([ks[0], vs[0]]);
      var k, v := Back(ks[0], py), Back(vs[0], py);
      if a.Some? {
        HashableCons(a.value);
        assert a.value[1..] == BackAll(ks[1..], py).value;
      }
      if k.Some? && v.Some? && Hashable(k.value) {
        SetItemMaps(d, keys, values, k.value, v.value);
        PairsBack(pairs[1..], ks[1..], vs[1..], SetItem(d, k.value, v.value), keys + [k.value], values + [v.value], py);
        if a.Some? && b.Some? {
          assert keys + a.value == keys + [k.value] + a.value[1..];
          assert values + b.value == values + [v.value] + b.value[1..];
          assert b.value[1..] == BackAll(vs[1..], py).value;
        }
      }
    }
  }

  lemma EmptyHashable()
    ensures AllHashable([])
  {
  }

  lemma HashableKeys(items: seq<PyValue>, keys: seq<PyObject>)
    requires ReturnsAll(items, keys)
    ensures AllHashable(keys) <==> forall k :: 0 <= k < |items| ==> !items[k].PyList? && !items[k].PyDict?
  {
  }

  /** A cast list: its items, and what they come back as. */
  lemma LandedList(items: seq<PyValue>, t: LogicalType, max: MaxType, py: Python)
      returns (children: seq<Value>)
    requires t.ListType? && Lands(PyList(items), t, max, py)
    ensures t.child != JsonType
    ensures Cast(PyList(items), t, max, py) == Some(Value(t, Nested(children)))
    ensures |children| == |items|
    ensures forall k :: 0 <= k < |children| ==> HasType(children[k], t.child)
    ensures BackAll(children, py).Some? <==> KeysHashable(PyList(items))
    ensures BackAll(children, py).Some? ==> ReturnsAll(items, BackAll(children, py).value)
  {
    children := Cast(PyList(items), t, max, py).value.data.children;
    CastItemsLength(items, t.child, max, py);
  }

  lemma {:induction false} CastItemsLength(items: seq<PyValue>, t: LogicalType, max: MaxType, py: Python)
    ensures CastItems(items, t, max, py).Some? ==> |CastItems(items, t, max, py).value| == |items|
  {
    hide Cast;
    if items != [] {
      CastItemsLength(items[1..], t, max, py);
    }
  }

  lemma {:induction false} MapLands(entries: seq<PyEntry>, kt: LogicalType, wt: LogicalType, max: MaxType, py: Python)
    requires MapShaped(entries)
    requires kt.ListType? && wt.ListType?
    requires ParameterType(entries[0].value, max) == Some(kt) && ParameterType(entries[1].value, max) == Some(wt)
    requires Lands(entries[0].value, kt, max, py) && Lands(entries[1].value, wt, max, py)
    ensures Lands(PyDict(entries), MapType(kt.child, wt.child), max, py)
  {
    var items, others := entries[0].value.items, entries[1].value.items;
    var ks := LandedList(items, kt, max, py);
    var vs := LandedList(others, wt, max, py);
    MapSums(entries, kt, wt, ks, vs, max, py);
  }

  lemma PairsHaveType(k: LogicalType, w: LogicalType, ks: seq<Value>, vs: seq<Value>)
    requires |ks| == |vs|
    requires forall i :: 0 <= i < |ks| ==> HasType(ks[i], k) && HasType(vs[i], w)
    ensures HasType(Value(MapType(k, w), Nested(MapPairs(k, w, ks, vs))), MapType(k, w))
  {
  }

  lemma {:induction false} PairsCast(entries: seq<PyEntry>, kt: LogicalType, wt: LogicalType, ks: seq<Value>,
      vs: seq<Value>, max: MaxType, py: Python)
    requires MapShaped(entries)
    requires kt.ListType? && wt.ListType?
    requires ParameterType(entries[0].value, max) == Some(kt) && ParameterType(entries[1].value, max) == Some(wt)
    requires Cast(entries[0].value, kt, max, py) == Some(Value(kt, Nested(ks)))
    requires Cast(entries[1].value, wt, max, py) == Some(Value(wt, Nested(vs)))
    requires |ks| == |vs|
    ensures Cast(PyDict(entries), MapType(kt.child, wt.child), max, py)
         == Some(Value(MapType(kt.child, wt.child), Nested(MapPairs(kt.child, wt.child, ks, vs))))
  {
  }

  lemma {:induction false} MapSums(entries: seq<PyEntry>, kt: LogicalType, wt: LogicalType, ks: seq<Value>,
      vs: seq<Value>, max: MaxType, py: Python)
    requires MapShaped(entries)
    requires kt.ListType? && wt.ListType?
    requires ParameterType(entries[0].value, max) == Some(kt) && ParameterType(entries[1].value, max) == Some(wt)
    requires |ks| == |vs| == |entries[0].value.items|
    requires Cast(entries[0].value, kt, max, py) == Some(Value(kt, Nested(ks)))
    requires Cast(entries[1].value, wt, max, py) == Some(Value(wt, Nested(vs)))
    requires forall k :: 0 <= k < |ks| ==> HasType(ks[k], kt.child) && HasType(vs[k], wt.child)
    requires BackAll(ks, py).Some? <==> KeysHashable(entries[0].value)
    requires BackAll(ks, py).Some? ==> ReturnsAll(entries[0].value.items, BackAll(ks, py).value)
    requires BackAll(vs, py).Some? <==> KeysHashable(entries[1].value)
    requires BackAll(vs, py).Some? ==> ReturnsAll(entries[1].value.items, BackAll(vs, py).value)
    ensures Lands(PyDict(entries), MapType(kt.child, wt.child), max, py)
  {
    var pairs := MapPairs(kt.child, wt.child, ks, vs);
    PairsCast(entries, kt, wt, ks, vs, max, py);
    PairsHaveType(kt.child, wt.child, ks, vs);
    MapBack(entries, pairs, ks, vs, kt.child, wt.child, py);
  }

  lemma {:induction false} MapBack(entries: seq<PyEntry>, pairs: seq<Value>, ks: seq<Value>, vs: seq<Value>,
      k: LogicalType, w: LogicalType, py: Python)
    requires MapShaped(entries) && PairsOf(pairs, ks, vs)
    requires BackAll(ks, py).Some? <==> KeysHashable(entries[0].value)
    requires BackAll(ks, py).Some? ==> ReturnsAll(entries[0].value.items, BackAll(ks, py).value)
    requires BackAll(vs, py).Some? <==> KeysHashable(entries[1].value)
    requires BackAll(vs, py).Some? ==> ReturnsAll(entries[1].value.items, BackAll(vs, py).value)
    ensures var o := Back(Value(MapType(k, w), Nested(pairs)), py);
            && (o.Some? <==> KeysHashable(PyDict(entries)))
            && (o.Some? ==> Returns(PyDict(entries), o.value))
  {
    hide BackAll, BackPairs, MapsTo, ReturnsAll, AllHashable, HasType;
    StartsEmpty();
    PairsBack(pairs, ks, vs, [], [], [], py);
    MapKeysHashable(entries);
    hide KeysHashable;
    var a, b := BackAll(ks, py), BackAll(vs, py);
    if a.Some? {
      HashableKeys(entries[0].value.items, a.value);
      assert [] + a.value == a.value;
    }
    if b.Some? {
      assert [] + b.value == b.value;
    }
  }

  lemma StartsEmpty()
    ensures MapsTo([], [], [])
  {
  }

  lemma {:induction false} MapKeysHashable(entries: seq<PyEntry>)
    requires MapShaped(entries)
    ensures KeysHashable(PyDict(entries)) <==>
      && KeysHashable(entries[0].value) && KeysHashable(entries[1].value)
      && forall k :: 0 <= k < |entries[0].value.items| ==>
           !entries[0].value.items[k].PyList? && !entries[0].value.items[k].PyDict?
  {
  }

  // ---------- The round trip ----------

  /** A scalar goes to its own type, and an int also to INT64. */
  lemma ScalarLands(v: PyValue, t: LogicalType, max: MaxType, py: Python)
    requires Travels(v, max) && !v.PyList? && !v.PyDict?
    requires v == PyNone || ParameterType(v, max) == Some(t) || (v.PyInt? && t == IntegerType(INT64))
    ensures Lands(v, t, max, py)
  {
  }

  lemma {:induction false} FieldTypesAt(entries: seq<PyEntry>, max: MaxType)
    requires FieldTypes(entries, max).Some?
    ensures var fields := FieldTypes(entries, max).value;
            && |fields| == |entries|
            && forall k :: 0 <= k < |entries| ==>
                 fields[k].0 == entries[k].name && ParameterType(entries[k].value, max) == Some(fields[k].1)
  {
    hide ParameterType;
    if entries != [] {
      FieldTypesAt(entries[1..], max);
      var fields, rest := FieldTypes(entries, max).value, FieldTypes(entries[1..], max).value;
      assert forall k :: 1 <= k < |entries| ==> entries[k] == entries[1..][k - 1] && fields[k] == rest[k - 1];
    }
  }

  /** The type of the items of a list on the round trip. */
  lemma ItemType(items: seq<PyValue>, t: LogicalType, max: MaxType)
    requires IsMaxType(max) && Travels(PyList(items), max) && ParameterType(PyList(items), max) == Some(t)
    ensures t.ListType? && (HomogeneousListType(items).Some? ==> t.child != JsonType)
    ensures HomogeneousListType(items).None? ==>
              exists k :: 0 <= k < |items| && items[k] != PyNone && ParameterType(items[k], max) == Some(t.child)
    ensures forall k :: 0 <= k < |items| && items[k] != PyNone ==>
              || ParameterType(items[k], max) == Some(t.child)
              || (items[k].PyInt? && t.child == IntegerType(INT64))
  {
    if HomogeneousListType(items).None? {
      var u :| OneType(items, u, max);
      ChildOfSame(items, AnyType, u, max);
      var first := FirstNonNull(items).value;
      var j :| 0 <= j < |items| && items[j] == first;
    } else if FirstNonNull(items).None? {
      forall k | 0 <= k < |items| ensures items[k] == PyNone {
        assert items[k] in items;
      }
    }
  }

  lemma NotJson(v: PyValue, t: LogicalType, max: MaxType, py: Python)
    requires v != PyNone && Lands(v, t, max, py)
    ensures t != JsonType
  {
  }

  /** A value of the round trip is cast to the type inferred for it without an exception, and every part
      of the result has the type its place asks for. It comes back unless a key of a map is a list or
      dict, and then it is the value that went in, with dicts of the shape of a map as mappings. */
  lemma {:induction false} ComesBack(v: PyValue, t: LogicalType, max: MaxType, py: Python)
    requires IsMaxType(max) && Travels(v, max) && ParameterType(v, max) == Some(t)
    ensures Lands(v, t, max, py)
    decreases v
  {
    hide Lands, Landed, ParameterType, LogicalTypeOf;
    match v
    case PyList(items) =>
      ItemType(items, t, max);
      forall k | 0 <= k < |items| ensures Lands(items[k], t.child, max, py) {
        if items[k] == PyNone || (items[k].PyInt? && t.child == IntegerType(INT64)) {
          ScalarLands(items[k], t.child, max, py);
        } else {
          ComesBack(items[k], t.child, max, py);
        }
      }
      if HomogeneousListType(items).None? {
        var k :| 0 <= k < |items| && items[k] != PyNone && ParameterType(items[k], max) == Some(t.child);
        NotJson(items[k], t.child, max, py);
      }
      ListLands(items, t.child, max, py);
    case PyDict(entries) =>
      forall k, u | 0 <= k < |entries| && ParameterType(entries[k].value, max) == Some(u)
        ensures Lands(entries[k].value, u, max, py)
      {
        ComesBack(entries[k].value, u, max, py);
      }
      DictLands(entries, t, max, py);
    case _ => ScalarLands(v, t, max, py);
  }

  lemma {:induction false} DictLands(entries: seq<PyEntry>, t: LogicalType, max: MaxType, py: Python)
    requires DistinctNames(entries) && ParameterType(PyDict(entries), max) == Some(t)
    requires forall k, u :: 0 <= k < |entries| && ParameterType(entries[k].value, max) == Some(u) ==>
               Lands(entries[k].value, u, max, py)
    ensures Lands(PyDict(entries), t, max, py)
  {
    var check := CheckMap(entries, max);
    if check == IsMap {
      assert MapShaped(entries);
      var k, w := ParameterType(entries[0].value, max), ParameterType(entries[1].value, max);
      assert t == MapType(k.value.child, w.value.child);
      MapLands(entries, k.value, w.value, max, py);
    } else {
      MapIsChecked(entries, max);
      FieldTypesAt(entries, max);
      StructLands(entries, FieldTypes(entries, max).value, max, py);
    }
  }

  lemma {:induction false} MapIsChecked(entries: seq<PyEntry>, max: MaxType)
    ensures MapShaped(entries) ==> CheckMap(entries, max) != NotMap
  {
  }

  /** An int is cast to every integer type that it fits, and to no other, and comes back from there. */
  lemma IntComesBackIfItFits(i: int, w: IntType, max: MaxType, py: Python)
    ensures var x := Cast(PyInt(i), IntegerType(w), max, py);
            && (x.Some? <==> Fits(i, w))
            && (x.Some? ==> Back(x.value, py) == Some(OInt(i)))
  {
  }

  /** A date, timedelta or UUID comes back as what the module of its kind makes of what it was converted to;
      so it comes back as it was exactly if these two conversions undo each other. */
  lemma TemporalComesBack(kind: TemporalKind, ticks: int, max: MaxType, py: Python)
    ensures var v := PyTemporal(kind, ticks);
            var t, x := TemporalType(kind), Cast(v, TemporalType(kind), max, py);
            && ParameterType(v, max) == Some(t)
            && (x.Some? <==> py.convert(v, t).Some?)
            && (x.Some? && py.convert(v, t) != Some(Null) ==> Back(x.value, py) == py.revive(t, py.convert(v, t).value))
  {
  }

  /** A list whose type is JSON, as of one with a null after a list, is cast to its JSON text and comes back
      as a string; it raises exactly if it has no JSON text. */
  lemma JsonComesBackAsText(items: seq<PyValue>, max: MaxType, py: Python)
    requires ParameterType(PyList(items), max) == Some(JsonType)
    ensures var x, text := Cast(PyList(items), JsonType, max, py), py.dumps(PyList(items));
            && (x.Some? <==> text.Some?)
            && (text.Some? ==> Back(x.value, py) == Some(OStr(text.value)))
  {
  }

  /** [[1], None] does not come back as a list. */
  lemma NullAfterListIsText(max: MaxType, py: Python)
    requires IsMaxType(max)
    ensures var v := PyList([PyList([PyInt(1)]), PyNone]);
            && ParameterType(v, max) == Some(JsonType)
            && (Cast(v, JsonType, max, py).Some? ==> Back(Cast(v, JsonType, max, py).value, py).value.OStr?)
  {
    KeyMissesNulls(max);
    hide ParameterType;
    JsonComesBackAsText([PyList([PyInt(1)]), PyNone], max, py);
  }

  /** {"key": [[1]], "value": [1]} is cast to a map, but the map raises on its way back. */
  lemma ListAsKeyRaises(max: MaxType, py: Python)
    requires IsMaxType(max)
    ensures var ones := PyList([PyInt(1)]);
            var v := PyDict([PyEntry("key", PyList([ones])), PyEntry("value", ones)]);
            && Travels(v, max)
            && ParameterType(v, max) == Some(MapType(ListType(IntegerType(INT64)), IntegerType(INT64)))
            && Cast(v, ParameterType(v, max).value, max, py).Some?
            && Back(Cast(v, ParameterType(v, max).value, max, py).value, py) == None
  {
    var ones := PyList([PyInt(1)]);
    var keys := PyList([ones]);
    var entries := [PyEntry("key", keys), PyEntry("value", ones)];
    ListOfLists(max);
    MapOfLists(entries, max);
    var t := MapType(ListType(IntegerType(INT64)), IntegerType(INT64));
    hide *;
    ComesBack(PyDict(entries), t, max, py);
    NotHashable(entries);
    NoWayBack(PyDict(entries), t, max, py);
  }

  lemma NoWayBack(v: PyValue, t: LogicalType, max: MaxType, py: Python)
    requires Lands(v, t, max, py) && !KeysHashable(v)
    ensures Cast(v, t, max, py).Some? && Back(Cast(v, t, max, py).value, py) == None
  {
  }

  lemma {:induction false} NotHashable(entries: seq<PyEntry>)
    requires entries == [PyEntry("key", PyList([PyList([PyInt(1)])])), PyEntry("value", PyList([PyInt(1)]))]
    ensures !KeysHashable(PyDict(entries))
  {
    assert MapShaped(entries);
    assert entries[0].value.items[0].PyList?;
  }

  /** [[1]] in both inferences. */
  lemma ListOfLists(max: MaxType)
    requires IsMaxType(max)
    ensures var keys := PyList([PyList([PyInt(1)])]);
            Regular(keys) && Travels(keys, max) && SignatureOf(keys) == ListSig(ListSig(IntSig(INT64)))
  {
    var ones := PyList([PyInt(1)]);
    Ones();
    assert OneSignature([ones], ListSig(IntSig(INT64)));
    ListSignature([ones]);
    assert !NullAfterItem([ones], false) by {
      assert [ones][1..] == [];
    }
    assert OneType([ones], ParameterType(ones, max), max);
  }

  lemma {:induction false} MapOfLists(entries: seq<PyEntry>, max: MaxType)
    requires IsMaxType(max)
    requires entries == [PyEntry("key", PyList([PyList([PyInt(1)])])), PyEntry("value", PyList([PyInt(1)]))]
    requires Regular(entries[0].value) && Travels(entries[0].value, max)
    requires SignatureOf(entries[0].value) == ListSig(ListSig(IntSig(INT64)))
    ensures Travels(PyDict(entries), max)
    ensures ParameterType(PyDict(entries), max) == Some(MapType(ListType(IntegerType(INT64)), IntegerType(INT64)))
  {
    Ones();
    assert entries[0].name != entries[1].name;
    TypeOfMap(entries, max);
  }

  lemma {:induction false} TypeOfMap(entries: seq<PyEntry>, max: MaxType)
    requires IsMaxType(max) && MapShaped(entries)
    requires Regular(entries[0].value) && Regular(entries[1].value)
    requires SignatureOf(entries[0].value) == ListSig(ListSig(IntSig(INT64)))
    requires SignatureOf(entries[1].value) == ListSig(IntSig(INT64))
    ensures ParameterType(PyDict(entries), max) == Some(MapType(ListType(IntegerType(INT64)), IntegerType(INT64)))
  {
    KeyDeterminesType(PyDict(entries), max);
    assert SignatureOf(PyDict(entries)) == MapSig(ListSig(IntSig(INT64)), IntSig(INT64));
    hide ParameterType, LogicalTypeOf, SignatureOf;
  }
}
