/** Query results as graphs for torch_geometric (src_py/torch_geometric_result_converter.py).

  Every distinct node gets a position among the nodes of its label, and every property of the label a
  list with one entry for each of them. A property that torch_geometric cannot take moves, with all its
  entries, to the unconverted ones.
 */
module Torch {
  import opened Wrappers

  /** The value of a property. A list value has a shape unless its inner lists differ in length. */
  datatype Value = Null | Value(data: int, shape: Option<seq<nat>>)

  /** A list entry: a value as it was, as a tensor, or as the list that was made from a tensor again. */
  datatype Entry = Raw(v: Value) | Tensor(v: Value) | Relisted(v: Value)

  datatype Property = Property(name: string, supported: bool, dimension: nat, isPrimaryKey: bool)

  // ---------- One property of one label ----------

  /** Where the entries of a property are. */
  datatype Column = Absent | Converted(entries: seq<Entry>) | Unconverted(entries: seq<Entry>)

  function Relist(entries: seq<Entry>): (r: seq<Entry>)
    ensures |r| == |entries|
  {
    seq(|entries|, k requires 0 <= k < |entries| => if entries[k].Tensor? then Relisted(entries[k].v) else entries[k])
  }

  function Entries(c: Column): seq<Entry> {
    if c.Absent? then [] else c.entries
  }

  function Demote(c: Column): Column {
    if c.Unconverted? then c else Unconverted(Relist(Entries(c)))
  }

  /** The column with the value of one more node. */
  function Extend(c: Column, p: Property, v: Value): Column {
    if c.Unconverted? || !p.supported || v == Null then Unconverted(Demote(c).entries + [Raw(v)])
    else if p.dimension == 0 then Converted(Entries(c) + [Raw(v)])
    else if v.shape.None? || (Entries(c) != [] && Entries(c)[0].v != Null && v.shape != Entries(c)[0].v.shape)
    then Unconverted(Demote(c).entries + [Raw(v)])
    else Converted(Entries(c) + [Tensor(v)])
  }

  /** The column after the nodes with these values. */
  function ColumnOf(values: seq<Value>, p: Property): Column {
    if values == [] then Absent else Extend(ColumnOf(values[..|values| - 1], p), p, values[|values| - 1])
  }

  /** What torch_geometric can take: values of a supported type, none of them null, and lists only if
      they are all of one shape. */
  ghost predicate Convertible(values: seq<Value>, p: Property) {
    && p.supported
    && (forall k :: 0 <= k < |values| ==> values[k] != Null)
    && (p.dimension > 0 ==> forall k :: 0 <= k < |values| ==>
            values[k].shape.Some? && values[k].shape == values[0].shape)
  }

  /** Exactly the convertible properties are converted, and entry k is always that of the k-th node. */
  lemma {:induction false} ColumnIsAligned(values: seq<Value>, p: Property)
    ensures var c := ColumnOf(values, p);
            && (c.Absent? <==> values == [])
            && (c.Converted? <==> values != [] && Convertible(values, p))
            && |Entries(c)| == |values|
            && (forall k :: 0 <= k < |values| ==> Entries(c)[k].v == values[k])
            && (c.Converted? ==> forall k :: 0 <= k < |values| ==>
                  Entries(c)[k] == if p.dimension == 0 then Raw(values[k]) else Tensor(values[k]))
            && (c.Unconverted? ==> forall k :: 0 <= k < |values| ==>
                  c.entries[k] == Raw(values[k]) || (p.dimension > 0 && c.entries[k] == Relisted(values[k])))
  {
    if values != [] {
      var front, last := values[..|values| - 1], values[|values| - 1];
      ColumnIsAligned(front, p);
      assert forall k :: 0 <= k < |front| ==> values[k] == front[k];
      assert Convertible(values, p) ==> Convertible(front, p);
    }
  }

  // ---------- Dictionaries of dictionaries ----------

  type Dict = map<string, map<string, seq<Entry>>>

  function Get(d: Dict, lab: string, name: string): Option<seq<Entry>> {
    if lab in d && name in d[lab] then Some(d[lab][name]) else None
  }

  function Put(d: Dict, lab: string, name: string, entries: seq<Entry>): Dict {
    d[lab := (if lab in d then d[lab] else map[])[name := entries]]
  }

  /** Without the property, and without the label if that was its last. */
  function Drop(d: Dict, lab: string, name: string): Dict {
    if lab !in d then d
    else if d[lab] - {name} == map[] then d - {lab}
    else d[lab := d[lab] - {name}]
  }

  ghost predicate NoEmptyLabel(d: Dict) {
    forall lab :: lab in d ==> d[lab] != map[]
  }

  lemma GetPut(d: Dict, lab: string, name: string, entries: seq<Entry>)
    ensures forall l, n :: Get(Put(d, lab, name, entries), l, n) ==
              if l == lab && n == name then Some(entries) else Get(d, l, n)
    ensures NoEmptyLabel(d) ==> NoEmptyLabel(Put(d, lab, name, entries))
  {
    assert name in Put(d, lab, name, entries)[lab];
  }

  lemma GetDrop(d: Dict, lab: string, name: string)
    ensures forall l, n :: Get(Drop(d, lab, name), l, n) == if l == lab && n == name then None else Get(d, l, n)
    ensures NoEmptyLabel(d) ==> NoEmptyLabel(Drop(d, lab, name))
  {
    if lab in d {
      assert forall n :: n in d[lab] && n != name ==> n in d[lab] - {name};
    }
  }

  // ---------- Nodes and edges ----------

  datatype Id = Id(table: int, offset: int)

  datatype Node = Node(id: Id, lab: string, values: map<string, Value>)

  datatype Field = Field(name: string, value: Value)

  /** A relationship with its fields, which are the entries of a dict. */
  datatype Rel = Rel(src: Id, dst: Id, fields: seq<Field>)

  datatype Item = NodeItem(node: Node) | RelItem(rel: Rel)

  const SRC := "_SRC"
  const DST := "_DST"
  const ID := "_ID"

  /** The nodes of a label, in the order in which they were first seen. */
  function Of(nodes: seq<Node>, lab: string): seq<Node> {
    if nodes == [] then []
    else
      var last := nodes[|nodes| - 1];
      Of(nodes[..|nodes| - 1], lab) + if last.lab == lab then [last] else []
  }

  function ValuesOf(nodes: seq<Node>, name: string): (values: seq<Value>)
    ensures |values| == |nodes|
  {
    seq(|nodes|, k requires 0 <= k < |nodes| => if name in nodes[k].values then nodes[k].values[name] else Null)
  }

  predicate IsSeen(nodes: seq<Node>, id: Id) {
    exists k :: 0 <= k < |nodes| && nodes[k].id == id
  }

  /** The first node of each id. */
  function Distinct(items: seq<Item>): seq<Node> {
    if items == [] then []
    else
      var nodes, last := Distinct(items[..|items| - 1]), items[|items| - 1];
      if last.NodeItem? && !IsSeen(nodes, last.node.id) then nodes + [last.node] else nodes
  }

  predicate SameEnds(r: Rel, q: Rel) {
    r.src == q.src && r.dst == q.dst
  }

  /** rels[key of r] = r */
  function PutRel(rels: seq<Rel>, r: Rel): seq<Rel> {
    if rels == [] then [r]
    else if SameEnds(rels[0], r) then [r] + rels[1..]
    else [rels[0]] + PutRel(rels[1..], r)
  }

  function RelsOf(items: seq<Item>): seq<Rel> {
    if items == [] then []
    else
      var rels, last := RelsOf(items[..|items| - 1]), items[|items| - 1];
      if last.RelItem? then PutRel(rels, last.rel) else rels
  }

  function Flatten(rows: seq<seq<Item>>): seq<Item> {
    if rows == [] then [] else Flatten(rows[..|rows| - 1]) + rows[|rows| - 1]
  }

  /** Every node has the label of its table and a value for every property of the label, one of which is
      the primary key. */
  ghost predicate WellFormed(node: Node, labels: map<int, string>, props: map<string, seq<Property>>) {
    && node.id.table in labels && labels[node.id.table] == node.lab
    && node.lab in props
    && (forall k :: 0 <= k < |props[node.lab]| ==> props[node.lab][k].name in node.values)
    && (exists k :: 0 <= k < |props[node.lab]| && props[node.lab][k].isPrimaryKey)
  }

  ghost predicate DistinctNames(props: seq<Property>) {
    forall j, k :: 0 <= j < k < |props| ==> props[j].name != props[k].name
  }

  lemma ColumnNext(nodes: seq<Node>, node: Node, p: Property)
    requires p.name in node.values
    ensures ColumnOf(ValuesOf(nodes + [node], p.name), p) ==
              Extend(ColumnOf(ValuesOf(nodes, p.name), p), p, node.values[p.name])
  {
    var values := ValuesOf(nodes + [node], p.name);
    assert values[..|nodes|] == ValuesOf(nodes, p.name);
  }

  lemma OfNext(nodes: seq<Node>, node: Node, lab: string)
    ensures Of(nodes + [node], lab) == if node.lab == lab then Of(nodes, lab) + [node] else Of(nodes, lab)
  {
  }

  /** The node is among the items, and none with its id comes before it. */
  ghost predicate IsFirst(items: seq<Item>, node: Node) {
    exists k :: 0 <= k < |items| && items[k] == NodeItem(node)
         && forall l :: 0 <= l < k && items[l].NodeItem? ==> items[l].node.id != node.id
  }

  lemma FirstNext(items: seq<Item>, next: Item, node: Node)
    requires IsFirst(items, node) ||
             (next == NodeItem(node) &&
              forall l :: 0 <= l < |items| && items[l].NodeItem? ==> items[l].node.id != node.id)
    ensures IsFirst(items + [next], node)
  {
    var more := items + [next];
    if IsFirst(items, node) {
      var k :| 0 <= k < |items| && items[k] == NodeItem(node)
            && forall l :: 0 <= l < k && items[l].NodeItem? ==> items[l].node.id != node.id;
      assert more[k] == NodeItem(node);
      assert forall l :: 0 <= l < k && more[l].NodeItem? ==> more[l].node.id != node.id;
    } else {
      assert more[|items|] == NodeItem(node);
      assert forall l :: 0 <= l < |items| && more[l].NodeItem? ==> more[l].node.id != node.id;
    }
  }

  /** Every id among the items has one node, the first that has it. */
  lemma {:induction false} DistinctIsOnce(items: seq<Item>)
    ensures var nodes := Distinct(items);
            && (forall i, j :: 0 <= i < j < |nodes| ==> nodes[i].id != nodes[j].id)
            && (forall k :: 0 <= k < |items| && items[k].NodeItem? ==> IsSeen(nodes, items[k].node.id))
            && (forall i :: 0 <= i < |nodes| ==> IsFirst(items, nodes[i]))
  {
    if items != [] {
      var front, last := items[..|items| - 1], items[|items| - 1];
      DistinctIsOnce(front);
      var before, nodes := Distinct(front), Distinct(items);
      forall k | 0 <= k < |items| && items[k].NodeItem? ensures IsSeen(nodes, items[k].node.id) {
        if k < |front| {
          assert IsSeen(before, front[k].node.id);
          var i :| 0 <= i < |before| && before[i].id == items[k].node.id;
          assert nodes[i].id == items[k].node.id;
        } else if !IsSeen(before, last.node.id) {
          assert nodes[|before|].id == last.node.id;
        }
      }
      assert items == front + [last];
      forall i | 0 <= i < |nodes| ensures IsFirst(items, nodes[i]) {
        FirstNext(front, last, nodes[i]);
      }
    }
  }

  ghost predicate DistinctEnds(rels: seq<Rel>) {
    forall i, j :: 0 <= i < j < |rels| ==> !SameEnds(rels[i], rels[j])
  }

  ghost predicate HasEnds(rels: seq<Rel>, r: Rel) {
    exists k :: 0 <= k < |rels| && SameEnds(rels[k], r)
  }

  lemma {:induction false} PutRelAt(rels: seq<Rel>, r: Rel) returns (i: nat)
    requires DistinctEnds(rels)
    ensures i <= |rels| && forall j :: 0 <= j < |rels| && j != i ==> !SameEnds(rels[j], r)
    ensures PutRel(rels, r) == if i < |rels| then rels[i := r] else rels + [r]
    ensures i < |rels| ==> SameEnds(rels[i], r)
  {
    if rels == [] || SameEnds(rels[0], r) {
      i := 0;
    } else {
      var j := PutRelAt(rels[1..], r);
      i := j + 1;
      assert forall l :: 1 <= l < |rels| ==> rels[l] == rels[1..][l - 1];
    }
  }

  /** r is in the items and none with its ends comes after it. */
  ghost predicate IsLatest(items: seq<Item>, r: Rel) {
    exists k :: 0 <= k < |items| && items[k] == RelItem(r)
         && forall l :: k < l < |items| && items[l].RelItem? ==> !SameEnds(items[l].rel, r)
  }

  lemma LatestNext(items: seq<Item>, next: Item, r: Rel)
    requires next == RelItem(r) || (IsLatest(items, r) && (next.RelItem? ==> !SameEnds(next.rel, r)))
    ensures IsLatest(items + [next], r)
  {
    var more := items + [next];
    if next == RelItem(r) {
      assert more[|items|] == RelItem(r);
    } else {
      var k :| 0 <= k < |items| && items[k] == RelItem(r)
            && forall l :: k < l < |items| && items[l].RelItem? ==> !SameEnds(items[l].rel, r);
      assert more[k] == RelItem(r);
      assert forall l :: k < l < |more| && more[l].RelItem? ==> !SameEnds(more[l].rel, r);
    }
  }

  lemma PutKeepsEnds(rels: seq<Rel>, r: Rel)
    requires DistinctEnds(rels)
    ensures DistinctEnds(PutRel(rels, r)) && HasEnds(PutRel(rels, r), r)
    ensures forall q :: HasEnds(rels, q) ==> HasEnds(PutRel(rels, r), q)
    ensures forall k :: 0 <= k < |PutRel(rels, r)| ==>
              PutRel(rels, r)[k] == r || (PutRel(rels, r)[k] in rels && !SameEnds(r, PutRel(rels, r)[k]))
  {
    var i := PutRelAt(rels, r);
    var more := PutRel(rels, r);
    assert SameEnds(more[i], r);
    forall q | HasEnds(rels, q) ensures HasEnds(more, q) {
      var k :| 0 <= k < |rels| && SameEnds(rels[k], q);
      assert SameEnds(more[k], q);
    }
  }

  /** Between two nodes only the latest relationship is kept. */
  lemma {:induction false} RelsAreLatest(items: seq<Item>)
    ensures var rels := RelsOf(items);
            && DistinctEnds(rels)
            && (forall k :: 0 <= k < |rels| ==> IsLatest(items, rels[k]))
            && (forall k :: 0 <= k < |items| && items[k].RelItem? ==> HasEnds(rels, items[k].rel))
  {
    if items != [] {
      var front, last := items[..|items| - 1], items[|items| - 1];
      assert items == front + [last];
      RelsAreLatest(front);
      var before, rels := RelsOf(front), RelsOf(items);
      if last.RelItem? {
        PutKeepsEnds(before, last.rel);
      }
      hide IsLatest, PutRel, DistinctEnds, HasEnds, SameEnds, RelsOf;
      forall k | 0 <= k < |rels| ensures IsLatest(items, rels[k]) {
        LatestNext(front, last, rels[k]);
      }
      forall k | 0 <= k < |items| && items[k].RelItem? ensures HasEnds(rels, items[k].rel) {
        if k < |front| {
          assert items[k] == front[k];
        }
      }
    }
  }

  /** So a relationship is left out only if a later one has both its source and its destination. */
  lemma EveryPairIsKept(items: seq<Item>, k: nat) returns (j: nat)
    requires k < |items| && items[k].RelItem?
    ensures j < |RelsOf(items)| && RelsOf(items)[j].src == items[k].rel.src && RelsOf(items)[j].dst == items[k].rel.dst
    ensures exists l :: k <= l < |items| && items[l] == RelItem(RelsOf(items)[j])
  {
    RelsAreLatest(items);
    var rels, r := RelsOf(items), items[k].rel;
    j :| j < |rels| && SameEnds(rels[j], r);
    var l :| 0 <= l < |items| && items[l] == RelItem(rels[j])
      && forall m :: l < m < |items| && items[m].RelItem? ==> !SameEnds(items[m].rel, rels[j]);
    hide RelsOf;
    assert k <= l;
  }

  // ---------- Edges ----------

  /** The labels of the ends of an edge. */
  datatype Pair = Pair(src: string, dst: string)

  datatype Edge = Edge(srcPos: nat, dstPos: nat)

  function Find(fields: seq<Field>, name: string): Option<Value> {
    if fields == [] then None
    else if fields[|fields| - 1].name == name then Some(fields[|fields| - 1].value)
    else Find(fields[..|fields| - 1], name)
  }

  predicate IsInternal(name: string) {
    name == SRC || name == DST || name == ID
  }

  predicate DistinctFields(fields: seq<Field>) {
    forall i, j :: 0 <= i < j < |fields| ==> fields[i].name != fields[j].name
  }

  /** The property of those relationships that have it. */
  function Named(rels: seq<Rel>, name: string): seq<Value> {
    if rels == [] then []
    else
      var last := Find(rels[|rels| - 1].fields, name);
      Named(rels[..|rels| - 1], name) + if last.Some? then [last.value] else []
  }

  predicate Joins(r: Rel, labels: map<int, string>, pair: Pair) {
    && r.src.table in labels && labels[r.src.table] == pair.src
    && r.dst.table in labels && labels[r.dst.table] == pair.dst
  }

  /** The relationships between two labels. */
  function Between(rels: seq<Rel>, labels: map<int, string>, pair: Pair): seq<Rel> {
    if rels == [] then []
    else
      Between(rels[..|rels| - 1], labels, pair)
        + if Joins(rels[|rels| - 1], labels, pair) then [rels[|rels| - 1]] else []
  }

  lemma BetweenNext(rels: seq<Rel>, r: Rel, labels: map<int, string>, pair: Pair)
    ensures Between(rels + [r], labels, pair) ==
            if Joins(r, labels, pair) then Between(rels, labels, pair) + [r] else Between(rels, labels, pair)
  {
  }

  lemma NamedNext(rels: seq<Rel>, r: Rel, name: string)
    ensures Named(rels + [r], name) ==
            if Find(r.fields, name).Some? then Named(rels, name) + [Find(r.fields, name).value] else Named(rels, name)
  {
  }

  lemma FindNext(fields: seq<Field>, i: nat, name: string)
    requires i < |fields|
    ensures Find(fields[..i + 1], name) ==
              if fields[i].name == name then Some(fields[i].value) else Find(fields[..i], name)
  {
    assert fields[..i + 1][..i] == fields[..i];
  }

  lemma NotFound(fields: seq<Field>, i: nat)
    requires DistinctFields(fields) && i < |fields|
    ensures Find(fields[..i], fields[i].name) == None
  {
    FindIsIn(fields[..i], fields[i].name);
  }

  lemma {:induction false} FindIsIn(fields: seq<Field>, name: string)
    ensures Find(fields, name).Some? ==> exists k :: 0 <= k < |fields| && fields[k].name == name
  {
    if fields != [] && fields[|fields| - 1].name != name {
      FindIsIn(fields[..|fields| - 1], name);
    }
  }

  lemma {:induction false} NamedIsShorter(rels: seq<Rel>, name: string)
    ensures |Named(rels, name)| <= |rels|
  {
    if rels != [] {
      NamedIsShorter(rels[..|rels| - 1], name);
    }
  }

  /** The list of an edge property has one value for every edge exactly when all edges have the property;
      entry k is then that of edge k. */
  lemma {:induction false} PropertiesAlignIff(rels: seq<Rel>, name: string)
    ensures |Named(rels, name)| == |rels| <==> forall k :: 0 <= k < |rels| ==> Find(rels[k].fields, name).Some?
    ensures |Named(rels, name)| == |rels| ==>
              forall k :: 0 <= k < |rels| ==> Find(rels[k].fields, name) == Some(Named(rels, name)[k])
  {
    hide Find;
    if rels != [] {
      var front := rels[..|rels| - 1];
      PropertiesAlignIff(front, name);
      NamedIsShorter(front, name);
      assert forall k :: 0 <= k < |front| ==> rels[k] == front[k];
    }
  }

  /** Two relationships between one pair of labels, of which the second alone has a property: there are
      two edges and one entry, and entry 0 is that of edge 1. */
  lemma MissingPropertyMisaligns(lab: string, name: string, v: Value)
    ensures var rels := [Rel(Id(0, 0), Id(0, 1), []), Rel(Id(0, 1), Id(0, 0), [Field(name, v)])];
            && Between(rels, map[0 := lab], Pair(lab, lab)) == rels
            && Find(rels[0].fields, name) == None && Find(rels[1].fields, name) == Some(v)
            && Named(rels, name) == [v]
  {
    var first, second := Rel(Id(0, 0), Id(0, 1), []), Rel(Id(0, 1), Id(0, 0), [Field(name, v)]);
    var labels, pair := map[0 := lab], Pair(lab, lab);
    assert Joins(first, labels, pair) && Joins(second, labels, pair);
    assert Find(first.fields, name) == None && Find(second.fields, name) == Some(v);
    assert Between([], labels, pair) == [] && Named([], name) == [];
    hide *;
    BetweenNext([], first, labels, pair);
    BetweenNext([first], second, labels, pair);
    NamedNext([], first, name);
    NamedNext([first], second, name);
    assert [] + [first] == [first] && [first] + [second] == [first, second];
  }

  ghost predicate IsPrimaryKey(node: Node, v: Value, props: map<string, seq<Property>>) {
    && node.lab in props
    && exists k :: 0 <= k < |props[node.lab]| && props[node.lab][k].isPrimaryKey
           && props[node.lab][k].name in node.values && v == node.values[props[node.lab][k].name]
  }

  /** The positions of the nodes and the primary keys by position. */
  datatype Index = Index(positions: map<Id, nat>, labels: map<int, string>, keys: map<string, map<int, Value>>)

  /** An id has the position of its node among those of the label of its table. */
  ghost predicate PositionHolds(x: Index, seen: seq<Node>, props: map<string, seq<Property>>, id: Id) {
    && id in x.positions && id.table in x.labels
    && var lab, pos := x.labels[id.table], x.positions[id];
       var nodes := Of(seen, lab);
       && pos < |nodes| && nodes[pos].id == id
       && lab in x.keys && pos in x.keys[lab]
       && IsPrimaryKey(nodes[pos], x.keys[lab][pos], props)
  }

  ghost predicate PositionsHold(x: Index, seen: seq<Node>, labels: map<int, string>, props: map<string,
      seq<Property>>) {
    && (forall id :: id in x.positions <==> IsSeen(seen, id))
    && (forall id :: id in x.positions ==> PositionHolds(x, seen, props, id))
    && (forall table :: table in x.labels ==> table in labels && x.labels[table] == labels[table])
  }

  function AddLabel(x: Index, node: Node): Index {
    x.(labels := x.labels[node.id.table := node.lab])
  }

  function AddPosition(x: Index, node: Node, pos: nat, key: Value): Index {
    x.(positions := x.positions[node.id := pos],
       keys := x.keys[node.lab := (if node.lab in x.keys then x.keys[node.lab] else map[])[pos := key]])
  }

  lemma AddLabelKeeps(x: Index, seen: seq<Node>, node: Node, labels: map<int, string>, props: map<string,
      seq<Property>>)
    requires PositionsHold(x, seen, labels, props) && WellFormed(node, labels, props)
    ensures PositionsHold(AddLabel(x, node), seen, labels, props)
  {
  }

  lemma PositionsAreSeen(x: Index, seen: seq<Node>, labels: map<int, string>, props: map<string, seq<Property>>)
    requires PositionsHold(x, seen, labels, props)
    ensures forall id :: id in x.positions <==> IsSeen(seen, id)
  {
  }

  lemma SeenNext(seen: seq<Node>, node: Node)
    ensures forall id :: IsSeen(seen + [node], id) <==> IsSeen(seen, id) || id == node.id
  {
    var more := seen + [node];
    forall id ensures IsSeen(more, id) <==> IsSeen(seen, id) || id == node.id {
      if IsSeen(seen, id) {
        var k :| 0 <= k < |seen| && seen[k].id == id;
        assert more[k].id == id;
      }
      if id == node.id {
        assert more[|seen|].id == id;
      }
    }
  }

  lemma NewPositionHolds(x: Index, seen: seq<Node>, node: Node, key: Value, props: map<string, seq<Property>>)
    requires node.id.table in x.labels && x.labels[node.id.table] == node.lab && IsPrimaryKey(node, key, props)
    ensures PositionHolds(AddPosition(x, node, |Of(seen, node.lab)|, key), seen + [node], props, node.id)
  {
  }

  lemma OldPositionHolds(x: Index, seen: seq<Node>, node: Node, key: Value, props: map<string, seq<Property>>, id: Id)
    requires PositionHolds(x, seen, props, id) && id != node.id
    ensures PositionHolds(AddPosition(x, node, |Of(seen, node.lab)|, key), seen + [node], props, id)
  {
  }

  lemma AddPositionKeeps(x: Index, seen: seq<Node>, node: Node, key: Value, labels: map<int, string>,
      props: map<string, seq<Property>>)
    requires PositionsHold(x, seen, labels, props) && !IsSeen(seen, node.id)
    requires node.id.table in x.labels && x.labels[node.id.table] == node.lab && IsPrimaryKey(node, key, props)
    ensures PositionsHold(AddPosition(x, node, |Of(seen, node.lab)|, key), seen + [node], labels, props)
  {
    hide PositionHolds, IsPrimaryKey, IsSeen, Of;
    var y, more := AddPosition(x, node, |Of(seen, node.lab)|, key), seen + [node];
    SeenNext(seen, node);
    forall id | id in y.positions ensures PositionHolds(y, more, props, id) {
      if id == node.id {
        NewPositionHolds(x, seen, node, key, props);
      } else {
        OldPositionHolds(x, seen, node, key, props, id);
      }
    }
  }

  predicate Known(r: Rel, positions: map<Id, nat>) {
    r.src in positions && r.dst in positions
  }

  predicate AllKnown(rels: seq<Rel>, positions: map<Id, nat>) {
    forall k :: 0 <= k < |rels| ==> Known(rels[k], positions)
  }

  /** The edges of relationships whose nodes are all known. */
  function EdgesFrom(rels: seq<Rel>, positions: map<Id, nat>): (edges: seq<Edge>)
    requires AllKnown(rels, positions)
    ensures |edges| == |rels|
  {
    seq(|rels|, k requires 0 <= k < |rels| =>
      assert Known(rels[k], positions);
      Edge(positions[rels[k].src], positions[rels[k].dst]))
  }

  lemma {:induction false} BetweenKnown(rels: seq<Rel>, labels: map<int, string>, pair: Pair, positions: map<Id, nat>)
    requires AllKnown(rels, positions)
    ensures AllKnown(Between(rels, labels, pair), positions)
    ensures forall k :: 0 <= k < |Between(rels, labels, pair)| ==> Joins(Between(rels, labels, pair)[k], labels, pair)
  {
    if rels != [] {
      BetweenKnown(rels[..|rels| - 1], labels, pair, positions);
    }
  }

  class Converter {
    const labels: map<int, string>
    const props: map<string, seq<Property>>
    var nodesDict: Dict
    var unconverted: Dict
    var internalIdToPos: map<Id, nat>
    var tableToLabel: map<int, string>
    var posToPrimaryKey: map<string, map<int, Value>>
    var rels: seq<Rel>
    var edgesDict: map<Pair, seq<Edge>>
    var edgesProperties: map<Pair, map<string, seq<Value>>>
    ghost var seen: seq<Node>

    function Col(lab: string, name: string): Column
      reads `nodesDict, `unconverted
    {
      if Get(unconverted, lab, name).Some? then Unconverted(Get(unconverted, lab, name).value)
      else if Get(nodesDict, lab, name).Some? then Converted(Get(nodesDict, lab, name).value)
      else Absent
    }

    /** No property is both converted and unconverted, and no label is without properties. */
    ghost predicate Apart()
      reads `nodesDict, `unconverted
    {
      && (forall l, n :: Get(nodesDict, l, n).None? || Get(unconverted, l, n).None?)
      && NoEmptyLabel(nodesDict) && NoEmptyLabel(unconverted)
    }

    method MarkPropertyUnconverted(lab: string, name: string)
      requires Apart()
      modifies `nodesDict, `unconverted
      ensures Apart() && Col(lab, name) == Demote(old(Col(lab, name)))
      ensures forall l, n :: l != lab || n != name ==> Col(l, n) == old(Col(l, n))
    {
      GetPut(unconverted, lab, name, []);
      if Get(unconverted, lab, name).None? {
        if Get(nodesDict, lab, name).Some? {
          var entries := nodesDict[lab][name];
          GetDrop(nodesDict, lab, name);
          GetPut(unconverted, lab, name, Relist(entries));
          nodesDict := Drop(nodesDict, lab, name);
          unconverted := Put(unconverted, lab, name, Relist(entries));
        } else {
          unconverted := Put(unconverted, lab, name, []);
        }
      }
    }

    method AddUnconvertedProperty(v: Value, lab: string, name: string) returns (pos: nat)
      requires Apart() && Col(lab, name).Unconverted?
      modifies `unconverted
      ensures Apart() && Col(lab, name) == Unconverted(old(Col(lab, name).entries) + [Raw(v)])
      ensures pos == |old(Col(lab, name).entries)|
      ensures forall l, n :: l != lab || n != name ==> Col(l, n) == old(Col(l, n))
    {
      GetPut(unconverted, lab, name, unconverted[lab][name] + [Raw(v)]);
      unconverted := Put(unconverted, lab, name, unconverted[lab][name] + [Raw(v)]);
      pos := |unconverted[lab][name]| - 1;
    }

    /** One property of one node. */
    method ExtractProperty(v: Value, lab: string, p: Property) returns (pos: nat)
      requires Apart() && (Col(lab, p.name).Converted? ==>
                 Col(lab, p.name).entries != [] && Col(lab, p.name).entries[0].v != Null)
      modifies `nodesDict, `unconverted
      ensures Apart() && Col(lab, p.name) == Extend(old(Col(lab, p.name)), p, v)
      ensures pos == |Entries(old(Col(lab, p.name)))|
      ensures forall l, n :: l != lab || n != p.name ==> Col(l, n) == old(Col(l, n))
    {
      if lab in unconverted && p.name in unconverted[lab] {
        pos := AddUnconvertedProperty(v, lab, p.name);
        return;
      }
      if !p.supported || v == Null {
        MarkPropertyUnconverted(lab, p.name);
        pos := AddUnconvertedProperty(v, lab, p.name);
        return;
      }
      var value := Raw(v);
      if p.dimension != 0 {
        if v.shape.None? {
          MarkPropertyUnconverted(lab, p.name);
          pos := AddUnconvertedProperty(v, lab, p.name);
          return;
        }
        value := Tensor(v);
        if lab in nodesDict && p.name in nodesDict[lab] && v.shape != nodesDict[lab][p.name][0].v.shape {
          MarkPropertyUnconverted(lab, p.name);
          pos := AddUnconvertedProperty(v, lab, p.name);
          return;
        }
      }
      var entries := if lab in nodesDict && p.name in nodesDict[lab] then nodesDict[lab][p.name] else [];
      GetPut(nodesDict, lab, p.name, entries + [value]);
      nodesDict := Put(nodesDict, lab, p.name, entries + [value]);
      pos := |nodesDict[lab][p.name]| - 1;
    }

    /** The columns of a label hold the values of these nodes. */
    ghost predicate ColumnsHold(lab: string, nodes: seq<Node>)
      reads `nodesDict, `unconverted
    {
      lab in props ==> forall k :: 0 <= k < |props[lab]| ==>
        Col(lab, props[lab][k].name) == ColumnOf(ValuesOf(nodes, props[lab][k].name), props[lab][k])
    }

    ghost predicate Valid()
      reads `nodesDict, `unconverted, `internalIdToPos, `tableToLabel, `posToPrimaryKey, `seen
    {
      && Apart()
      && (forall lab :: lab in props ==> DistinctNames(props[lab]))
      && (forall lab :: ColumnsHold(lab, Of(seen, lab)))
      && PositionsHold(Positions(), seen, labels, props)
    }

    ghost function Positions(): Index
      reads `internalIdToPos, `tableToLabel, `posToPrimaryKey
    {
      Index(internalIdToPos, tableToLabel, posToPrimaryKey)
    }

    /** The properties of a node that was not seen before. */
    method ExtractPropertiesFromNode(node: Node, ghost before: seq<Node>) returns (pos: nat, primaryKey: Value)
      requires Apart() && ColumnsHold(node.lab, before)
      requires WellFormed(node, labels, props) && DistinctNames(props[node.lab])
      modifies `nodesDict, `unconverted
      ensures Apart() && ColumnsHold(node.lab, before + [node])
      ensures forall l, n :: l != node.lab ==> Col(l, n) == old(Col(l, n))
      ensures pos == |before| && IsPrimaryKey(node, primaryKey, props)
    {
      hide Extend, ColumnOf, ValuesOf;
      var properties := props[node.lab];
      pos, primaryKey := 0, Null;
      ghost var key := -1;
      for i := 0 to |properties|
        invariant Apart()
        invariant forall k :: 0 <= k < i ==>
                    Col(node.lab, properties[k].name) ==
                    ColumnOf(ValuesOf(before + [node], properties[k].name), properties[k])
        invariant forall k :: i <= k < |properties| ==>
                    Col(node.lab, properties[k].name) == ColumnOf(ValuesOf(before, properties[k].name), properties[k])
        invariant forall l, n :: l != node.lab ==> Col(l, n) == old(Col(l, n))
        invariant i > 0 ==> pos == |before|
        invariant -1 <= key < i
        invariant key == -1 ==> forall k :: 0 <= k < i ==> !properties[k].isPrimaryKey
        invariant key >= 0 ==> properties[key].isPrimaryKey && primaryKey == node.values[properties[key].name]
      {
        var p := properties[i];
        if p.isPrimaryKey {
          primaryKey, key := node.values[p.name], i;
        }
        ColumnIsAligned(ValuesOf(before, p.name), p);
        ColumnNext(before, node, p);
        pos := ExtractProperty(node.values[p.name], node.lab, p);
      }
    }

    constructor (labels: map<int, string>, props: map<string, seq<Property>>)
      requires forall lab :: lab in props ==> DistinctNames(props[lab])
      ensures Valid() && seen == [] && rels == [] && edgesDict == map[] && edgesProperties == map[]
      ensures this.labels == labels && this.props == props
    {
      this.labels, this.props := labels, props;
      nodesDict, unconverted := map[], map[];
      internalIdToPos, tableToLabel, posToPrimaryKey := map[], map[], map[];
      rels, edgesDict, edgesProperties := [], map[], map[];
      seen := [];
    }

    method AddNode(node: Node)
      requires Valid() && WellFormed(node, labels, props)
      modifies `nodesDict, `unconverted, `internalIdToPos, `tableToLabel, `posToPrimaryKey, `seen
      ensures Valid()
      ensures seen == if IsSeen(old(seen), node.id) then old(seen) else old(seen) + [node]
    {
      hide PositionsHold, PositionHolds, ColumnOf, Of, Col, Get, NoEmptyLabel;
      assert node.id in internalIdToPos <==> IsSeen(seen, node.id) by {
        PositionsAreSeen(Positions(), seen, labels, props);
      }
      AddLabelKeeps(Positions(), seen, node, labels, props);
      ghost var labelled := AddLabel(Positions(), node);
      tableToLabel := tableToLabel[node.id.table := node.lab];
      assert Positions() == labelled;
      if node.id in internalIdToPos {
        assert forall lab :: ColumnsHold(lab, Of(seen, lab));
        return;
      }
      var pos, primaryKey := ExtractPropertiesFromNode(node, Of(seen, node.lab));
      AddPositionKeeps(labelled, seen, node, primaryKey, labels, props);
      RecordPosition(node, pos, primaryKey);
      ghost var before := seen;
      seen := seen + [node];
      forall lab ensures ColumnsHold(lab, Of(seen, lab)) {
        OfNext(before, node, lab);
        assert lab != node.lab ==> old(ColumnsHold(lab, Of(seen, lab)));
      }
    }

    method RecordPosition(node: Node, pos: nat, primaryKey: Value)
      modifies `internalIdToPos, `posToPrimaryKey
      ensures Positions() == AddPosition(old(Positions()), node, pos, primaryKey)
    {
      internalIdToPos := internalIdToPos[node.id := pos];
      if node.lab !in posToPrimaryKey {
        posToPrimaryKey := posToPrimaryKey[node.lab := map[]];
      }
      posToPrimaryKey := posToPrimaryKey[node.lab := posToPrimaryKey[node.lab][pos := primaryKey]];
    }

    /** All rows of the result: each distinct node is added once, relationships are kept by their ends. */
    method Populate(rows: seq<seq<Item>>)
      requires Valid() && seen == [] && rels == []
      requires forall i, j :: 0 <= i < |rows| && 0 <= j < |rows[i]| && rows[i][j].NodeItem? ==>
                 WellFormed(rows[i][j].node, labels, props)
      modifies `nodesDict, `unconverted, `internalIdToPos, `tableToLabel, `posToPrimaryKey, `seen, `rels
      ensures Valid()
      ensures seen == Distinct(Flatten(rows)) && rels == RelsOf(Flatten(rows))
      ensures forall lab :: ColumnsHold(lab, Of(seen, lab))
      ensures PositionsHold(Positions(), seen, labels, props)
    {
      hide *;
      NoItems();
      assert rows[..0] == [];
      for i := 0 to |rows|
        invariant Valid()
        invariant seen == Distinct(Flatten(rows[..i])) && rels == RelsOf(Flatten(rows[..i]))
      {
        FlattenNext(rows, i);
        AddRow(rows[i], Flatten(rows[..i]));
      }
      assert rows[..|rows|] == rows;
      ValidMeans();
    }

    lemma ValidMeans()
      requires Valid()
      ensures forall lab :: ColumnsHold(lab, Of(seen, lab))
      ensures PositionsHold(Positions(), seen, labels, props)
    {
    }

    method AddRow(row: seq<Item>, ghost before: seq<Item>)
      requires Valid() && seen == Distinct(before) && rels == RelsOf(before)
      requires forall j :: 0 <= j < |row| && row[j].NodeItem? ==> WellFormed(row[j].node, labels, props)
      modifies `nodesDict, `unconverted, `internalIdToPos, `tableToLabel, `posToPrimaryKey, `seen, `rels
      ensures Valid() && seen == Distinct(before + row) && rels == RelsOf(before + row)
    {
      hide *;
      assert before + row[..0] == before;
      for j := 0 to |row|
        invariant Valid() && seen == Distinct(before + row[..j]) && rels == RelsOf(before + row[..j])
      {
        ghost var items := before + row[..j];
        assert before + row[..j + 1] == items + [row[j]];
        ItemNext(items, row[j]);
        match row[j] {
          case NodeItem(node) => AddNode(node);
          case RelItem(rel) => rels := PutRel(rels, rel);
        }
      }
      assert row[..|row|] == row;
    }

    function EdgesAt(pair: Pair): seq<Edge>
      reads `edgesDict
    {
      if pair in edgesDict then edgesDict[pair] else []
    }

    function PropertyAt(pair: Pair, name: string): seq<Value>
      reads `edgesProperties
    {
      if pair in edgesProperties && name in edgesProperties[pair] then edgesProperties[pair][name] else []
    }

    /** The lists of a pair of labels hold the edges and properties of these relationships. */
    ghost predicate ListsHold(pair: Pair, between: seq<Rel>)
      reads `edgesDict, `edgesProperties, `internalIdToPos
    {
      && AllKnown(between, internalIdToPos)
      && EdgesAt(pair) == EdgesFrom(between, internalIdToPos)
      && forall name :: PropertyAt(pair, name) == if IsInternal(name) then [] else Named(between, name)
    }

    /** The ends and the id of a relationship are not listed as properties. */
    lemma InternalFieldsAreLeftOut(pair: Pair, between: seq<Rel>)
      requires ListsHold(pair, between)
      ensures PropertyAt(pair, "_SRC") == PropertyAt(pair, "_DST") == PropertyAt(pair, "_ID") == []
    {
    }

    /** Every relationship between known nodes becomes an edge between their positions. A node that was
        not in the result raises a KeyError. */
    method PopulateEdges() returns (r: Result<(), Id>)
      requires Valid() && edgesDict == map[] && edgesProperties == map[]
      requires forall k :: 0 <= k < |rels| ==> DistinctFields(rels[k].fields)
      modifies `edgesDict, `edgesProperties
      ensures Valid()
      ensures r.Ok? <==> AllKnown(rels, internalIdToPos)
      ensures r.Ok? ==> forall pair :: ListsHold(pair, Between(rels, tableToLabel, pair))
    {
      hide *;
      StartOfLists();
      assert rels[..0] == [];
      for i := 0 to |rels|
        invariant Valid()
        invariant AllKnown(rels[..i], internalIdToPos)
        invariant forall pair :: ListsHold(pair, Between(rels[..i], tableToLabel, pair))
      {
        var rel := rels[i];
        UnknownAt(rels, i, internalIdToPos);
        if rel.src !in internalIdToPos {
          return Err(rel.src);
        }
        if rel.dst !in internalIdToPos {
          return Err(rel.dst);
        }
        AddEdge(rel, rels[..i]);
        assert rels[..i + 1] == rels[..i] + [rel];
      }
      assert rels[..|rels|] == rels;
      r := Ok(());
    }

    /** One relationship between known nodes. */
    method AddEdge(rel: Rel, ghost before: seq<Rel>)
      requires Valid() && Known(rel, internalIdToPos) && DistinctFields(rel.fields)
      requires forall pair :: ListsHold(pair, Between(before, tableToLabel, pair))
      modifies `edgesDict, `edgesProperties
      ensures forall pair :: ListsHold(pair, Between(before + [rel], tableToLabel, pair))
    {
      KnownHasLabel(rel.src);
      KnownHasLabel(rel.dst);
      var pair := Pair(tableToLabel[rel.src.table], tableToLabel[rel.dst.table]);
      AddEdgeBetween(rel, pair, Between(before, tableToLabel, pair));
      hide *;
      ghost var next := before + [rel];
      forall p ensures ListsHold(p, Between(next, tableToLabel, p)) {
        BetweenNext(before, rel, tableToLabel, p);
        JoinsOne(rel, tableToLabel, p);
      }
    }

    lemma KnownHasLabel(id: Id)
      requires Valid() && id in internalIdToPos
      ensures id.table in tableToLabel
    {
    }

    lemma StartOfLists()
      requires edgesDict == map[] && edgesProperties == map[]
      ensures AllKnown([], internalIdToPos)
      ensures forall pair :: ListsHold(pair, Between([], tableToLabel, pair))
    {
    }

    method AddEdgeBetween(rel: Rel, pair: Pair, ghost between: seq<Rel>)
      requires Known(rel, internalIdToPos) && DistinctFields(rel.fields)
      requires ListsHold(pair, between)
      modifies `edgesDict, `edgesProperties
      ensures ListsHold(pair, between + [rel])
      ensures forall p, other :: p != pair && old(ListsHold(p, other)) ==> ListsHold(p, other)
    {
      hide Named, Find, EdgesFrom, AllKnown;
      EdgesFromNext(between, rel, internalIdToPos);
      var edge := Edge(internalIdToPos[rel.src], internalIdToPos[rel.dst]);
      edgesDict := edgesDict[pair := (if pair in edgesDict then edgesDict[pair] else []) + [edge]];
      if pair !in edgesProperties {
        edgesProperties := edgesProperties[pair := map[]];
      }
      AddFields(rel.fields, pair);
      forall name ensures PropertyAt(pair, name) == if IsInternal(name) then [] else Named(between + [rel], name) {
        NamedNext(between, rel, name);
      }
    }

    method AddField(field: Field, pair: Pair)
      requires pair in edgesProperties
      modifies `edgesProperties
      ensures pair in edgesProperties
      ensures PropertyAt(pair, field.name) == old(PropertyAt(pair, field.name)) + [field.value]
      ensures forall p, name :: p != pair || name != field.name ==> PropertyAt(p, name) == old(PropertyAt(p, name))
    {
      var list := if field.name in edgesProperties[pair] then edgesProperties[pair][field.name] else [];
      edgesProperties := edgesProperties[pair := edgesProperties[pair][field.name := list + [field.value]]];
    }

    method AddFields(fields: seq<Field>, pair: Pair)
      requires DistinctFields(fields) && pair in edgesProperties
      modifies `edgesProperties
      ensures forall name :: PropertyAt(pair, name) == old(PropertyAt(pair, name)) + Added(fields, name)
      ensures forall p, name :: p != pair ==> PropertyAt(p, name) == old(PropertyAt(p, name))
    {
      AddedNone();
      hide *;
      for j := 0 to |fields|
        invariant pair in edgesProperties
        invariant forall name :: PropertyAt(pair, name) == old(PropertyAt(pair, name)) + Added(fields[..j], name)
        invariant forall p, name :: p != pair ==> PropertyAt(p, name) == old(PropertyAt(p, name))
      {
        AddedNext(fields, j);
        if !IsInternal(fields[j].name) {
          AddField(fields[j], pair);
        }
      }
      assert fields[..|fields|] == fields;
    }
  }

  lemma AddedNone()
    ensures forall name :: Added([], name) == []
  {
  }

  /** What the fields add to the list of a property. */
  function Added(fields: seq<Field>, name: string): seq<Value> {
    if IsInternal(name) || Find(fields, name).None? then [] else [Find(fields, name).value]
  }

  lemma AddedNext(fields: seq<Field>, j: nat)
    requires DistinctFields(fields) && j < |fields|
    ensures forall name :: Added(fields[..j + 1], name) ==
              if name == fields[j].name && !IsInternal(name) then Added(fields[..j], name) + [fields[j].value]
              else Added(fields[..j], name)
  {
    NotFound(fields, j);
    forall name
      ensures Find(fields[..j + 1], name) ==
              if fields[j].name == name then Some(fields[j].value) else Find(fields[..j], name)
    {
      FindNext(fields, j, name);
    }
  }

  lemma JoinsOne(r: Rel, labels: map<int, string>, pair: Pair)
    requires r.src.table in labels && r.dst.table in labels
    ensures Joins(r, labels, pair) <==> pair == Pair(labels[r.src.table], labels[r.dst.table])
  {
  }

  lemma EdgesFromNext(rels: seq<Rel>, r: Rel, positions: map<Id, nat>)
    requires Known(r, positions) && AllKnown(rels, positions)
    ensures AllKnown(rels + [r], positions)
    ensures EdgesFrom(rels + [r], positions) == EdgesFrom(rels, positions) + [Edge(positions[r.src], positions[r.dst])]
  {
  }

  lemma UnknownAt(rels: seq<Rel>, i: nat, positions: map<Id, nat>)
    requires i < |rels| && AllKnown(rels[..i], positions)
    ensures rels[i].src in positions && rels[i].dst in positions ==>
              Known(rels[i], positions) && AllKnown(rels[..i + 1], positions)
    ensures rels[i].src !in positions || rels[i].dst !in positions ==> !AllKnown(rels, positions)
  {
  }

  /** The ends of every edge are positions of nodes of its labels, and the nodes there are those that the
      relationship joins. */
  lemma EdgesAreValid(x: Index, seen: seq<Node>, labels: map<int, string>, props: map<string, seq<Property>>,
      rels: seq<Rel>, pair: Pair, k: nat)
    requires PositionsHold(x, seen, labels, props)
    requires AllKnown(rels, x.positions)
    requires k < |Between(rels, x.labels, pair)|
    ensures var rel := Between(rels, x.labels, pair)[k];
            && Known(rel, x.positions)
            && x.positions[rel.src] < |Of(seen, pair.src)| && Of(seen, pair.src)[x.positions[rel.src]].id == rel.src
            && x.positions[rel.dst] < |Of(seen, pair.dst)| && Of(seen, pair.dst)[x.positions[rel.dst]].id == rel.dst
  {
    BetweenKnown(rels, x.labels, pair, x.positions);
    var rel := Between(rels, x.labels, pair)[k];
    assert PositionHolds(x, seen, props, rel.src) && PositionHolds(x, seen, props, rel.dst);
  }

  lemma NoItems()
    ensures Flatten([]) == [] && Distinct([]) == [] && RelsOf([]) == []
  {
  }

  lemma FlattenNext(rows: seq<seq<Item>>, i: nat)
    requires i < |rows|
    ensures Flatten(rows[..i + 1]) == Flatten(rows[..i]) + rows[i]
  {
    assert rows[..i + 1][..i] == rows[..i];
  }

  lemma ItemNext(items: seq<Item>, next: Item)
    ensures Distinct(items + [next]) ==
              if next.NodeItem? && !IsSeen(Distinct(items), next.node.id) then Distinct(items) + [next.node]
              else Distinct(items)
    ensures RelsOf(items + [next]) == if next.RelItem? then PutRel(RelsOf(items), next.rel) else RelsOf(items)
  {
  }
}
