/** The types that parameter values are given (src_cpp/py_connection.cpp), and the signatures under
    which prepared statements are cached (src_py/connection.py).

  A statement is prepared once per query and signature, and reused for later values without inferring
  their types again, so the signature has to determine the inferred type.
 */
module PyTypes {
  import opened Wrappers

  datatype TemporalKind = Datetime | Date | Timedelta | Uuid

  /** The Python values modelled. A dict has string keys; a frame is a DataFrame or Arrow table, with
      the generation and fingerprint that its signature contains. */
  datatype PyValue =
    | PyNone
    | PyBool(b: bool)
    | PyInt(i: int)
    | PyFloat(r: real)
    | PyStr(s: string)
    | PyBytes(bytes: seq<bv8>)
    | PyTemporal(kind: TemporalKind, ticks: int)
    | PyFrame(typeName: string, generation: nat, fingerprint: int)
    | PyList(items: seq<PyValue>)
    | PyDict(entries: seq<PyEntry>)

  datatype PyEntry = PyEntry(name: string, value: PyValue)

  datatype IntType = INT8 | UINT8 | INT16 | UINT16 | INT32 | UINT32 | INT64

  datatype LogicalType =
    | AnyType | BoolType | IntegerType(width: IntType) | DoubleType | StringType | BlobType
    | TemporalType(kind: TemporalKind) | PointerType | JsonType
    | ListType(child: LogicalType)
    | MapType(key: LogicalType, value: LogicalType)
    | StructType(fields: seq<(string, LogicalType)>)

  /** The engine's common type of two types; None where it has none. */
  type MaxType = (LogicalType, LogicalType) -> Option<LogicalType>

  /** All that is assumed of it. */
  ghost predicate IsMaxType(max: MaxType) {
    forall t :: max(t, t) == Some(t) && max(AnyType, t) == Some(t) && max(t, AnyType) == Some(t)
  }

  // ---------- Inference ----------

  predicate FitsInt64(i: int) {
    -0x8000_0000_0000_0000 <= i < 0x8000_0000_0000_0000
  }

  /** The narrowest type tried in this order. */
  function Width(i: int): IntType {
    if -0x80 <= i <= 0x7f then INT8
    else if 0 <= i <= 0xff then UINT8
    else if -0x8000 <= i <= 0x7fff then INT16
    else if 0 <= i <= 0xffff then UINT16
    else if -0x8000_0000 <= i <= 0x7fff_ffff then INT32
    else if 0 <= i <= 0xffff_ffff then UINT32
    else INT64
  }

  predicate Fits(i: int, w: IntType) {
    match w
    case INT8 => -0x80 <= i < 0x80
    case UINT8 => 0 <= i < 0x100
    case INT16 => -0x8000 <= i < 0x8000
    case UINT16 => 0 <= i < 0x1_0000
    case INT32 => -0x8000_0000 <= i < 0x8000_0000
    case UINT32 => 0 <= i < 0x1_0000_0000
    case INT64 => -0x8000_0000_0000_0000 <= i < 0x8000_0000_0000_0000
  }

  /** The order in which the types are tried. */
  function WidthOrder(w: IntType): nat {
    match w
    case INT8 => 0 case UINT8 => 1 case INT16 => 2 case UINT16 => 3 case INT32 => 4 case UINT32 => 5 case INT64 => 6
  }

  predicate SamePyType(a: PyValue, b: PyValue) {
    (a.PyBool? && b.PyBool?) || (a.PyInt? && b.PyInt?) || (a.PyFloat? && b.PyFloat?)
  }

  function FirstNonNull(items: seq<PyValue>): (first: Option<PyValue>)
    ensures first.Some? ==> first.value in items && first.value != PyNone
    ensures first.None? <==> forall v :: v in items ==> v == PyNone
  {
    if items == [] then None
    else if items[0] != PyNone then Some(items[0])
    else
      assert forall v :: v in items <==> v == items[0] || v in items[1..];
      FirstNonNull(items[1..])
  }

  /** The fast path for lists of bools, of ints or of floats, with or without nulls; None otherwise. */
  function HomogeneousListType(items: seq<PyValue>): Option<LogicalType> {
    var first := FirstNonNull(items);
    if first.None? then Some(ListType(AnyType))
    else if !(first.value.PyBool? || first.value.PyInt? || first.value.PyFloat?) then None
    else if exists k :: 0 <= k < |items| && items[k] != PyNone && !SamePyType(items[k], first.value) then None
    else if first.value.PyBool? then Some(ListType(BoolType))
    else if first.value.PyInt? then Some(ListType(IntegerType(INT64)))
    else Some(ListType(DoubleType))
  }

  /** The type of a value inside a plain value. None stands for an exception. */
  function LogicalTypeOf(v: PyValue, max: MaxType): Option<LogicalType>
    decreases v, 0
  {
    match v
    case PyNone => Some(AnyType)
    case PyBool(_) => Some(BoolType)
    case PyInt(i) => if FitsInt64(i) then Some(IntegerType(Width(i))) else None
    case PyFloat(_) => Some(DoubleType)
    case PyStr(_) => Some(StringType)
    case PyBytes(_) => Some(BlobType)
    case PyTemporal(kind, _) => Some(TemporalType(kind))
    case PyFrame(_, _, _) => Some(PointerType)
    case PyDict(entries) =>
      var value := MaxOfEntries(entries, AnyType, max);
      if value.None? then None
      else Some(MapType(if entries == [] then AnyType else StringType, value.value))
    case PyList(items) =>
      if HomogeneousListType(items).Some? then HomogeneousListType(items)
      else
        var child := MaxOfItems(items, AnyType, max);
        if child.None? then None else Some(ListType(child.value))
  }

  function MaxOfItems(items: seq<PyValue>, sofar: LogicalType, max: MaxType): Option<LogicalType>
    decreases items, 1
  {
    if items == [] then Some(sofar)
    else
      var t := LogicalTypeOf(items[0], max);
      if t.None? || max(sofar, t.value).None? then None
      else MaxOfItems(items[1..], max(sofar, t.value).value, max)
  }

  function MaxOfEntries(entries: seq<PyEntry>, sofar: LogicalType, max: MaxType): Option<LogicalType>
    decreases entries, 1
  {
    if entries == [] then Some(sofar)
    else
      var t := LogicalTypeOf(entries[0].value, max);
      if t.None? || max(sofar, t.value).None? then None
      else MaxOfEntries(entries[1..], max(sofar, t.value).value, max)
  }

  predicate IsNested(t: LogicalType) {
    t.ListType? || t.MapType? || t.StructType?
  }

  predicate SameTypeId(a: LogicalType, b: LogicalType) {
    match (a, b)
    case (ListType(_), ListType(_)) => true
    case (MapType(_, _), MapType(_, _)) => true
    case (StructType(_), StructType(_)) => true
    case _ => a == b
  }

  /** Whether a dict of two fields may be a MAP: whether its values are lists is asked of the first
      inference, which may fail on them. */
  datatype MapCheck = IsMap | NotMap | CheckThrows

  function CheckMap(entries: seq<PyEntry>, max: MaxType): MapCheck
    decreases entries, 0
  {
    if |entries| != 2 then NotMap
    else
      var t0 := LogicalTypeOf(entries[0].value, max);
      if t0.None? then CheckThrows
      else if !t0.value.ListType? then NotMap
      else
        var t1 := LogicalTypeOf(entries[1].value, max);
        if t1.None? then CheckThrows
        else if !t1.value.ListType? || entries[0].name != "key" || entries[1].name != "value" then NotMap
        else if entries[0].value.PyList? && entries[1].value.PyList?
                && |entries[0].value.items| == |entries[1].value.items| then IsMap
        else NotMap
  }

  datatype ChildType = Child(t: LogicalType) | MixedNesting | ChildThrows

  /** The type of a parameter. */
  function ParameterType(v: PyValue, max: MaxType): Option<LogicalType>
    decreases v, 1
  {
    match v
    case PyDict(entries) =>
      (match CheckMap(entries, max)
       case CheckThrows => None
       case IsMap =>
         var k, w := ParameterType(entries[0].value, max), ParameterType(entries[1].value, max);
         if k.Some? && w.Some? && k.value.ListType? && w.value.ListType?
         then Some(MapType(k.value.child, w.value.child)) else None
       case NotMap =>
         var fields := FieldTypes(entries, max);
         if fields.None? then None else Some(StructType(fields.value)))
    case PyList(items) =>
      if HomogeneousListType(items).Some? then HomogeneousListType(items)
      else
        (match ChildParameterType(items, AnyType, max)
         case Child(t) => Some(ListType(t))
         case MixedNesting => Some(JsonType)
         case ChildThrows => None)
    case _ => LogicalTypeOf(v, max)
  }

  function FieldTypes(entries: seq<PyEntry>, max: MaxType): (fields: Option<seq<(string, LogicalType)>>)
    decreases entries, 2
  {
    if entries == [] then Some([])
    else
      var t, rest := ParameterType(entries[0].value, max), FieldTypes(entries[1..], max);
      if t.None? || rest.None? then None else Some([(entries[0].name, t.value)] + rest.value)
  }

  function ChildParameterType(items: seq<PyValue>, sofar: LogicalType, max: MaxType): ChildType
    decreases items, 2
  {
    if items == [] then Child(sofar)
    else
      var t := ParameterType(items[0], max);
      if t.None? then ChildThrows
      else if sofar != AnyType && !SameTypeId(sofar, t.value) && IsNested(sofar) != IsNested(t.value) then MixedNesting
      else if max(sofar, t.value).None? then ChildThrows
      else ChildParameterType(items[1..], max(sofar, t.value).value, max)
  }

  /** An int is given the first type in order that it fits, and refused if it fits none. */
  lemma IntTypeIsFirstFit(i: int, max: MaxType)
    ensures match ParameterType(PyInt(i), max)
            case Some(IntegerType(width)) =>
              Fits(i, width) && forall w :: Fits(i, w) ==> WidthOrder(width) <= WidthOrder(w)
            case Some(_) => false
            case None => forall w :: !Fits(i, w)
  {
  }

  // ---------- Signatures ----------

  datatype Signature =
    | AnySig | BoolSig | IntSig(width: IntType) | DoubleSig | StringSig | BlobSig
    | UnknownSig(kind: TemporalKind)
    | PointerSig(typeName: string, generation: nat, fingerprint: int)
    | ListSig(child: Signature)
    | MapSig(key: Signature, value: Signature)
    | StructSig(fields: seq<SigField>)
    | NamesSig(names: set<string>)   // the common signature of two structs with different names

  datatype SigField = SigField(name: string, sig: Signature)

  function Names(fields: seq<SigField>): set<string> {
    set f | f in fields :: f.name
  }

  function FieldNamed(fields: seq<SigField>, name: string): Signature
    requires name in Names(fields)
  {
    if fields[0].name == name then fields[0].sig else FieldNamed(fields[1..], name)
  }

  lemma FieldNamedFinds(fields: seq<SigField>, k: nat)
    requires k < |fields| && forall i, j :: 0 <= i < j < |fields| ==> fields[i].name != fields[j].name
    ensures fields[k].name in Names(fields) && FieldNamed(fields, fields[k].name) == fields[k].sig
  {
    if k > 0 {
      FieldNamedFinds(fields[1..], k - 1);
      assert fields[1..][k - 1].name != fields[0].name;
    }
  }

  /** The common signature of two list items; the first where they have none. */
  function Merge(a: Signature, b: Signature): Signature
    decreases a, 0
  {
    if a == b then a
    else if a == AnySig || b == AnySig then AnySig
    else if a.IntSig? && b.IntSig? then if WidthOrder(a.width) >= WidthOrder(b.width) then a else b
    else if a.ListSig? && b.ListSig? then ListSig(Merge(a.child, b.child))
    else if a.StructSig? && b.StructSig? then
      if Names(a.fields) != Names(b.fields) then NamesSig(Names(a.fields) + Names(b.fields))
      else StructSig(MergeFields(a.fields, b.fields))
    else if a.MapSig? && b.MapSig? then MapSig(Merge(a.key, b.key), Merge(a.value, b.value))
    else a
  }

  function MergeFields(fields: seq<SigField>, others: seq<SigField>): seq<SigField>
    requires Names(fields) <= Names(others)
    decreases fields, 1
  {
    if fields == [] then []
    else
      assert fields[0].name in Names(fields) && Names(fields[1..]) <= Names(fields);
      [SigField(fields[0].name, Merge(fields[0].sig, FieldNamed(others, fields[0].name)))]
        + MergeFields(fields[1..], others)
  }

  /** Ints are merged to the wider type, lists and maps part by part; an unknown type stays unknown. */
  lemma MergeCases(a: Signature, b: Signature)
    ensures a == AnySig || b == AnySig ==> Merge(a, b) == AnySig
    ensures a.IntSig? && b.IntSig? ==>
              && (Merge(a, b) == a || Merge(a, b) == b)
              && WidthOrder(a.width) <= WidthOrder(Merge(a, b).width)
              && WidthOrder(b.width) <= WidthOrder(Merge(a, b).width)
    ensures a.ListSig? && b.ListSig? ==> Merge(a, b) == ListSig(Merge(a.child, b.child))
    ensures a.MapSig? && b.MapSig? ==> Merge(a, b) == MapSig(Merge(a.key, b.key), Merge(a.value, b.value))
  {
  }

  /** Structs with the same names are merged field by field, in whatever order the other has them. */
  lemma StructsMergeByName(fields: seq<SigField>, others: seq<SigField>, i: nat, j: nat)
    requires Names(fields) == Names(others)
    requires forall k, l :: 0 <= k < l < |others| ==> others[k].name != others[l].name
    requires i < |fields| && j < |others| && fields[i].name == others[j].name
    ensures var merged := Merge(StructSig(fields), StructSig(others));
            && merged.StructSig? && |merged.fields| == |fields|
            && merged.fields[i] == SigField(fields[i].name, Merge(fields[i].sig, others[j].sig))
  {
    FieldsMergeByName(fields, others, i, j);
    if fields == others {
      assert i == j;
      MergeOfSame(fields[i].sig);
    }
  }

  lemma MergeOfSame(sig: Signature)
    ensures Merge(sig, sig) == sig
  {
  }

  lemma {:induction false} FieldsMergeByName(fields: seq<SigField>, others: seq<SigField>, i: nat, j: nat)
    requires Names(fields) <= Names(others)
    requires forall k, l :: 0 <= k < l < |others| ==> others[k].name != others[l].name
    requires i < |fields| && j < |others| && fields[i].name == others[j].name
    ensures |MergeFields(fields, others)| == |fields|
    ensures MergeFields(fields, others)[i] == SigField(fields[i].name, Merge(fields[i].sig, others[j].sig))
  {
    FieldNamedFinds(others, j);
    assert Names(fields[1..]) <= Names(fields);
    MergedLength(fields[1..], others);
    if i > 0 {
      FieldsMergeByName(fields[1..], others, i - 1, j);
    }
  }

  lemma {:induction false} MergedLength(fields: seq<SigField>, others: seq<SigField>)
    requires Names(fields) <= Names(others)
    ensures |MergeFields(fields, others)| == |fields|
  {
    if fields != [] {
      assert Names(fields[1..]) <= Names(fields);
      MergedLength(fields[1..], others);
    }
  }

  predicate MapShaped(entries: seq<PyEntry>) {
    && |entries| == 2 && entries[0].name == "key" && entries[1].name == "value"
    && entries[0].value.PyList? && entries[1].value.PyList? && |entries[0].value.items| == |entries[1].value.items|
  }

  function SignatureOf(v: PyValue): (sig: Signature)
    ensures v.PyList? <==> sig.ListSig?
    ensures v == PyNone <==> sig == AnySig
    decreases v, 0
  {
    match v
    case PyNone => AnySig
    case PyBool(_) => BoolSig
    case PyInt(i) => IntSig(Width(i))
    case PyFloat(_) => DoubleSig
    case PyStr(_) => StringSig
    case PyBytes(_) => BlobSig
    case PyTemporal(kind, _) => UnknownSig(kind)
    case PyFrame(typeName, generation, fingerprint) => PointerSig(typeName, generation, fingerprint)
    case PyDict(entries) =>
      if MapShaped(entries) then MapSig(SignatureOf(entries[0].value).child, SignatureOf(entries[1].value).child)
      else StructSig(FieldSignatures(entries))
    case PyList(items) =>
      var merged := MergedSignature(items, None);
      if merged.None? then ListSig(AnySig)
      else if merged.value.IntSig? then ListSig(IntSig(INT64))
      else ListSig(merged.value)
  }

  function FieldSignatures(entries: seq<PyEntry>): (fields: seq<SigField>)
    ensures |fields| == |entries|
    decreases entries, 1
  {
    if entries == [] then []
    else [SigField(entries[0].name, SignatureOf(entries[0].value))] + FieldSignatures(entries[1..])
  }

  function MergedSignature(items: seq<PyValue>, sofar: Option<Signature>): Option<Signature>
    decreases items, 1
  {
    if items == [] then sofar
    else if items[0] == PyNone then MergedSignature(items[1..], sofar)
    else
      var sig := SignatureOf(items[0]);
      MergedSignature(items[1..], Some(if sofar.None? then sig else Merge(sofar.value, sig)))
  }
}
