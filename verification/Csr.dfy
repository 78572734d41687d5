/** Adjacency lists in compressed form, made from the rows of a query (src_py/_lbug_capi.py).

  indptr[s] is where the edges from node s begin; indices holds their destinations and edgeIds, if the
  query has them, their ids.
 */
module Csr {
  import opened Wrappers

  datatype Csr = Csr(indptr: seq<int>, indices: seq<int>, edgeIds: Option<seq<int>>)

  datatype Edge = Edge(src: int, id: Option<int>, dst: int)

  /** Where the id and the destination of an edge are in a row; its source is first. */
  datatype Layout = Layout(edgeAt: Option<nat>, dstAt: nat)

  predicate IsRowid(name: string) {
    |name| >= 6 && name[|name| - 6..] == ".rowid"
  }

  /** Any name that ends so, the suffix alone included. */
  lemma RowidNames(name: string)
    ensures IsRowid(name) <==> exists prefix: string :: name == prefix + ".rowid"
  {
    if IsRowid(name) {
      assert name == name[..|name| - 6] + ".rowid";
    }
  }

  // ---------- Specification ----------

  predicate HasLayout(rows: seq<seq<int>>, layout: Layout) {
    forall k :: 0 <= k < |rows| ==>
        layout.dstAt < |rows[k]| && (layout.edgeAt.Some? ==> layout.edgeAt.value < |rows[k]|)
  }

  /** The number of sources up to the largest; none if there are no rows or only negative sources. */
  function NumSources(rows: seq<seq<int>>): (n: nat)
    requires forall k :: 0 <= k < |rows| ==> rows[k] != []
    ensures forall k :: 0 <= k < |rows| ==> rows[k][0] < n
    ensures n > 0 ==> exists k :: 0 <= k < |rows| && rows[k][0] == n - 1
  {
    if rows == [] then 0
    else
      var n, last := NumSources(rows[..|rows| - 1]), rows[|rows| - 1][0];
      if last >= n then last + 1 else n
  }

  /** Where an index of Python stands in a list of length n: a negative one counts from the end. */
  function Slot(index: int, n: nat): int {
    if index < 0 then index + n else index
  }

  function EdgeOf(row: seq<int>, layout: Layout, n: nat): Edge
    requires layout.dstAt < |row| && (layout.edgeAt.Some? ==> layout.edgeAt.value < |row|)
  {
    Edge(Slot(row[0], n), if layout.edgeAt.Some? then Some(row[layout.edgeAt.value]) else None, row[layout.dstAt])
  }

  function EdgesOf(rows: seq<seq<int>>, layout: Layout, n: nat): (edges: seq<Edge>)
    requires HasLayout(rows, layout)
    ensures |edges| == |rows|
  {
    seq(|rows|, k requires 0 <= k < |rows| => EdgeOf(rows[k], layout, n))
  }

  /** The edges from s, in their order. */
  function From(edges: seq<Edge>, s: int): seq<Edge> {
    if edges == [] then []
    else From(edges[..|edges| - 1], s) + if edges[|edges| - 1].src == s then [edges[|edges| - 1]] else []
  }

  /** The edges from 0, then those from 1, up to those from n - 1. */
  function UpTo(edges: seq<Edge>, n: nat): seq<Edge> {
    if n == 0 then [] else UpTo(edges, n - 1) + From(edges, n - 1)
  }

  predicate Monotone(a: seq<int>) {
    forall i, j :: 0 <= i <= j < |a| ==> a[i] <= a[j]
  }

  predicate WellFormed(c: Csr) {
    && |c.indptr| > 0 && c.indptr[0] == 0 && c.indptr[|c.indptr| - 1] == |c.indices|
    && Monotone(c.indptr)
    && (c.edgeIds.Some? ==> |c.edgeIds.value| == |c.indices|)
  }

  /** The edges of the first n nodes that c describes. */
  function Expand(c: Csr, n: nat): seq<Edge>
    requires WellFormed(c) && n < |c.indptr|
  {
    if n == 0 then [] else Expand(c, n - 1) + Part(c, n)
  }

  /** The edges of node n - 1. */
  function Part(c: Csr, n: nat): seq<Edge>
    requires WellFormed(c) && 0 < n < |c.indptr|
  {
    var lo, hi := c.indptr[n - 1], c.indptr[n];
    assert 0 == c.indptr[0] <= lo <= hi <= c.indptr[|c.indptr| - 1] == |c.indices|;
    seq(hi - lo, i requires 0 <= i < hi - lo =>
      Edge(n - 1, if c.edgeIds.Some? then Some(c.edgeIds.value[lo + i]) else None, c.indices[lo + i]))
  }

  function Dsts(edges: seq<Edge>): seq<int> {
    seq(|edges|, k requires 0 <= k < |edges| => edges[k].dst)
  }

  function Ids(edges: seq<Edge>): seq<int> {
    if edges == [] then []
    else Ids(edges[..|edges| - 1]) + if edges[|edges| - 1].id.Some? then [edges[|edges| - 1].id.value] else []
  }

  /** The sources do not descend. */
  predicate Sorted(edges: seq<Edge>) {
    forall i, j :: 0 <= i <= j < |edges| ==> edges[i].src <= edges[j].src
  }

  predicate Below(edges: seq<Edge>, n: int) {
    forall k :: 0 <= k < |edges| ==> 0 <= edges[k].src < n
  }

  // ---------- The export ----------

  /** c is the export of these edges for n sources. */
  ghost predicate Exports(c: Csr, edges: seq<Edge>, layout: Layout, n: nat) {
    && WellFormed(c)
    && |c.indptr| == n + 1 && c.indptr[n] == |edges|
    && (c.edgeIds.Some? <==> layout.edgeAt.Some?)
    && Expand(c, n) == UpTo(edges, n)
    && Below(edges, n)
  }

  /** Rowids are not negative, but nothing here depends on it: a negative source is an index from the
      end, and one beyond it raises. */
  method GetCsr(names: seq<string>, rows: seq<seq<int>>) returns (r: Result<Csr, string>)
    requires forall k :: 0 <= k < |rows| ==> |rows[k]| == |names|
    ensures if !(|names| == 2 && IsRowid(names[0]) && IsRowid(names[1])) &&
               !(|names| >= 3 && IsRowid(names[0]) && IsRowid(names[1]) && IsRowid(names[2])) then
              r == Err("CSR export is only supported for rowid projections")
            else
              var n := NumSources(rows);
              var layout := if |names| == 2 then Layout(None, 1) else Layout(Some(1), 2);
              if exists k :: 0 <= k < |rows| && rows[k][0] + n < 0 then r == Err("list index out of range")
              else r.Ok? && Exports(r.value, EdgesOf(rows, layout, n), layout, n)
  {
    hide EdgesOf, EdgeOf, From, UpTo, Dsts, Ids, Expand, WellFormed, NumSources, Exports;
    var edgeIdx: Option<nat>, dstIdx: nat := None, 1;
    if |names| == 2 && IsRowid(names[0]) && IsRowid(names[1]) {
    } else if |names| >= 3 && IsRowid(names[0]) && IsRowid(names[1]) && IsRowid(names[2]) {
      edgeIdx, dstIdx := Some(1), 2;
    } else {
      return Err("CSR export is only supported for rowid projections");
    }
    var maxSrc := MaxSource(rows);
    var n := if maxSrc + 1 > 0 then maxSrc + 1 else 0;
    var grouped := GroupBySource(rows, n, edgeIdx, dstIdx);
    if grouped.Err? {
      return Err(grouped.error);
    }
    ghost var edges := EdgesOf(rows, Layout(edgeIdx, dstIdx), n);
    var indptr, indices, edgeIds := Compress(grouped.value, edges);
    var c := Csr(indptr, indices, if edgeIdx.Some? then Some(edgeIds) else None);
    EdgesAt(rows, Layout(edgeIdx, dstIdx), n);
    Exported(c, edges, Layout(edgeIdx, dstIdx), n);
    r := Ok(c);
  }

  lemma EdgesAt(rows: seq<seq<int>>, layout: Layout, n: nat)
    requires HasLayout(rows, layout)
    requires forall k :: 0 <= k < |rows| ==> 0 <= rows[k][0] + n && rows[k][0] < n
    ensures Below(EdgesOf(rows, layout, n), n)
    ensures forall k :: 0 <= k < |rows| ==> EdgesOf(rows, layout, n)[k].id.Some? == layout.edgeAt.Some?
  {
  }

  lemma EdgeAt(rows: seq<seq<int>>, layout: Layout, n: nat, k: nat)
    requires HasLayout(rows, layout) && k < |rows|
    ensures EdgesOf(rows, layout, n)[k] ==
            Edge(Slot(rows[k][0], n),
                 if layout.edgeAt.Some? then Some(rows[k][layout.edgeAt.value]) else None,
                 rows[k][layout.dstAt])
  {
  }

  /** The largest source, or -1 if there are no rows. */
  method MaxSource(rows: seq<seq<int>>) returns (maxSrc: int)
    requires forall k :: 0 <= k < |rows| ==> rows[k] != []
    ensures NumSources(rows) == if maxSrc + 1 > 0 then maxSrc + 1 else 0
  {
    maxSrc := if rows == [] then -1 else rows[0][0];
    for i := 0 to |rows|
      invariant forall k :: 0 <= k < i ==> rows[k][0] <= maxSrc
      invariant if rows == [] then maxSrc == -1 else exists k :: 0 <= k < |rows| && rows[k][0] == maxSrc
    {
      if rows[i][0] > maxSrc {
        maxSrc := rows[i][0];
      }
    }
  }

  /** The ids and destinations of the edges from each of n sources. */
  method GroupBySource(rows: seq<seq<int>>, n: nat, edgeIdx: Option<nat>, dstIdx: nat)
      returns (r: Result<seq<seq<(Option<int>, int)>>, string>)
    requires HasLayout(rows, Layout(edgeIdx, dstIdx))
    requires forall k :: 0 <= k < |rows| ==> rows[k][0] < n
    ensures r.Err? ==> r.error == "list index out of range"
    ensures r.Ok? <==> forall k :: 0 <= k < |rows| ==> 0 <= rows[k][0] + n
    ensures r.Ok? ==> |r.value| == n && Grouped(r.value, EdgesOf(rows, Layout(edgeIdx, dstIdx), n))
  {
    ghost var layout := Layout(edgeIdx, dstIdx);
    ghost var edges := EdgesOf(rows, layout, n);
    var grouped: seq<seq<(Option<int>, int)>> := seq(n, s => []);
    hide From, Grouped, EdgesOf, EdgeOf;
    NoGroups(grouped);
    assert edges[..0] == [];
    for i := 0 to |rows|
      invariant |grouped| == n
      invariant forall k :: 0 <= k < i ==> 0 <= rows[k][0] + n
      invariant Grouped(grouped, edges[..i])
    {
      var row := rows[i];
      var src := if row[0] < 0 then row[0] + n else row[0];
      if src < 0 {
        return Err("list index out of range");
      }
      var edge := if edgeIdx.Some? then Some(row[edgeIdx.value]) else None;
      var dst := row[dstIdx];
      EdgeAt(rows, layout, n, i);
      GroupNext(grouped, edges, i);
      grouped := grouped[src := grouped[src] + [(edge, dst)]];
    }
    assert edges[..|rows|] == edges;
    r := Ok(grouped);
  }

  /** The lists of the export, from the edges of each source. */
  method Compress(grouped: seq<seq<(Option<int>, int)>>, ghost edges: seq<Edge>)
      returns (indptr: seq<int>, indices: seq<int>, edgeIds: seq<int>)
    requires Grouped(grouped, edges)
    ensures |indptr| == |grouped| + 1
    ensures forall t: nat :: t <= |grouped| ==> indptr[t] == |UpTo(edges, t)|
    ensures indices == Dsts(UpTo(edges, |grouped|)) && edgeIds == Ids(UpTo(edges, |grouped|))
  {
    indptr, indices, edgeIds := [0], [], [];
    StartOfLists(edges);
    hide From, Ids, Dsts, UpTo;
    for s := 0 to |grouped|
      invariant |indptr| == s + 1
      invariant forall t: nat :: t <= s ==> indptr[t] == |UpTo(edges, t)|
      invariant indices == Dsts(UpTo(edges, s)) && edgeIds == Ids(UpTo(edges, s))
    {
      var entries := grouped[s];
      ghost var before, group := UpTo(edges, s), From(edges, s);
      assert IsGroup(entries, group);
      assert before + group[..0] == before;
      for j := 0 to |entries|
        invariant indices == Dsts(before + group[..j]) && edgeIds == Ids(before + group[..j])
      {
        var edge, dst := entries[j].0, entries[j].1;
        assert before + group[..j + 1] == (before + group[..j]) + [group[j]];
        ListsNext(before + group[..j], group[j]);
        indices := indices + [dst];
        if edge.Some? {
          edgeIds := edgeIds + [edge.value];
        }
      }
      assert group[..|entries|] == group;
      UpToNext(edges, s);
      indptr := indptr + [|indices|];
    }
  }

  ghost predicate IsGroup(entries: seq<(Option<int>, int)>, edges: seq<Edge>) {
    |entries| == |edges| && forall k :: 0 <= k < |edges| ==> entries[k] == (edges[k].id, edges[k].dst)
  }

  ghost predicate Grouped(grouped: seq<seq<(Option<int>, int)>>, edges: seq<Edge>) {
    forall s :: 0 <= s < |grouped| ==> IsGroup(grouped[s], From(edges, s))
  }

  lemma NoGroups(grouped: seq<seq<(Option<int>, int)>>)
    requires forall s :: 0 <= s < |grouped| ==> grouped[s] == []
    ensures Grouped(grouped, [])
  {
  }

  lemma GroupNext(grouped: seq<seq<(Option<int>, int)>>, edges: seq<Edge>, i: nat)
    requires i < |edges| && 0 <= edges[i].src < |grouped| && Grouped(grouped, edges[..i])
    ensures var e := edges[i];
            Grouped(grouped[e.src := grouped[e.src] + [(e.id, e.dst)]], edges[..i + 1])
  {
    FromNext(edges, i);
    hide From;
    var e, front, more := edges[i], edges[..i], edges[..i + 1];
    var next := grouped[e.src := grouped[e.src] + [(e.id, e.dst)]];
    forall s | 0 <= s < |next| ensures IsGroup(next[s], From(more, s)) {
      assert IsGroup(grouped[s], From(front, s));
    }
  }

  lemma StartOfLists(edges: seq<Edge>)
    ensures UpTo(edges, 0) == [] && Dsts([]) == [] && Ids([]) == []
  {
  }

  lemma UpToNext(edges: seq<Edge>, s: nat)
    ensures UpTo(edges, s + 1) == UpTo(edges, s) + From(edges, s)
    ensures |Dsts(UpTo(edges, s + 1))| == |UpTo(edges, s + 1)|
  {
  }

  lemma ListsNext(edges: seq<Edge>, e: Edge)
    ensures Dsts(edges + [e]) == Dsts(edges) + [e.dst]
    ensures Ids(edges + [e]) == Ids(edges) + if e.id.Some? then [e.id.value] else []
  {
  }

  lemma FromNone()
    ensures forall s :: From([], s) == []
  {
  }

  lemma FromNext(edges: seq<Edge>, i: nat)
    requires i < |edges|
    ensures forall s :: From(edges[..i + 1], s) ==
              if edges[i].src == s then From(edges[..i], s) + [edges[i]] else From(edges[..i], s)
  {
    assert edges[..i + 1][..i] == edges[..i];
  }

  /** The group of s holds the edges from s and no others. */
  lemma {:induction false} FromOnly(edges: seq<Edge>, s: int)
    ensures forall k :: 0 <= k < |From(edges, s)| ==> From(edges, s)[k].src == s && From(edges, s)[k] in edges
  {
    if edges != [] {
      FromOnly(edges[..|edges| - 1], s);
    }
  }

  lemma {:induction false} UpToMonotone(edges: seq<Edge>, m: nat, n: nat)
    requires m <= n
    ensures |UpTo(edges, m)| <= |UpTo(edges, n)|
    ensures UpTo(edges, n)[..|UpTo(edges, m)|] == UpTo(edges, m)
  {
    if m < n {
      UpToMonotone(edges, m, n - 1);
    }
  }

  lemma {:induction false} UpToOnly(edges: seq<Edge>, n: nat)
    ensures forall k :: 0 <= k < |UpTo(edges, n)| ==> 0 <= UpTo(edges, n)[k].src < n && UpTo(edges, n)[k] in edges
    ensures Sorted(UpTo(edges, n))
  {
    if n > 0 {
      UpToOnly(edges, n - 1);
      FromOnly(edges, n - 1);
    }
  }

  lemma {:induction false} AllIds(edges: seq<Edge>)
    requires forall k :: 0 <= k < |edges| ==> edges[k].id.Some?
    ensures |Ids(edges)| == |edges| && forall k :: 0 <= k < |edges| ==> Ids(edges)[k] == edges[k].id.value
  {
    if edges != [] {
      AllIds(edges[..|edges| - 1]);
    }
  }

  ghost predicate Describes(c: Csr, edges: seq<Edge>, n: nat) {
    && |c.indptr| == n + 1
    && (forall t: nat :: t <= n ==> c.indptr[t] == |UpTo(edges, t)|)
    && c.indices == Dsts(UpTo(edges, n))
    && (c.edgeIds.Some? ==>
          c.edgeIds.value == Ids(UpTo(edges, n)) && forall k :: 0 <= k < |edges| ==> edges[k].id.Some?)
    && (c.edgeIds.None? ==> forall k :: 0 <= k < |edges| ==> edges[k].id.None?)
  }

  lemma Described(c: Csr, edges: seq<Edge>, n: nat)
    requires Describes(c, edges, n)
    ensures WellFormed(c) && Expand(c, n) == UpTo(edges, n)
  {
    forall i, j | 0 <= i <= j <= n ensures c.indptr[i] <= c.indptr[j] {
      UpToMonotone(edges, i, j);
    }
    assert IdsOf(c.edgeIds, UpTo(edges, n)) by {
      UpToOnly(edges, n);
      if c.edgeIds.Some? {
        AllIds(UpTo(edges, n));
      }
    }
    ExpandTo(c, edges, n, n);
  }

  lemma Exported(c: Csr, edges: seq<Edge>, layout: Layout, n: nat)
    requires Describes(c, edges, n) && Below(edges, n) && (c.edgeIds.Some? <==> layout.edgeAt.Some?)
    ensures Exports(c, edges, layout, n)
  {
    Described(c, edges, n);
    SameEdges(edges, n);
    assert |multiset(UpTo(edges, n))| == |UpTo(edges, n)| && |multiset(edges)| == |edges|;
  }

  lemma {:induction false} ExpandTo(c: Csr, edges: seq<Edge>, n: nat, t: nat)
    requires Describes(c, edges, n) && WellFormed(c) && t <= n
    requires IdsOf(c.edgeIds, UpTo(edges, n))
    ensures Expand(c, t) == UpTo(edges, t)
  {
    ListsAt(c, edges, n, t);
    hide From, Describes, Monotone;
    if t > 0 {
      ExpandTo(c, edges, n, t - 1);
      UpToNext(edges, t - 1);
      PartIsGroup(c, edges, n, t);
    }
  }

  lemma PartIsGroup(c: Csr, edges: seq<Edge>, n: nat, t: nat)
    requires Describes(c, edges, n) && WellFormed(c) && 0 < t <= n && |c.indptr| == n + 1
    requires IdsOf(c.edgeIds, UpTo(edges, n))
    ensures Part(c, t) == From(edges, t - 1)
  {
    hide *;
    PartLength(c, edges, n, t);
    var group := From(edges, t - 1);
    forall k | 0 <= k < |group| ensures Part(c, t)[k] == group[k] {
      GroupAt(edges, t - 1, n, k);
      PartAt(c, edges, n, t, k);
    }
  }

  /** What the lists hold at one place. */
  lemma ListsAt(c: Csr, edges: seq<Edge>, n: nat, t: nat)
    requires Describes(c, edges, n) && t <= n
    ensures |c.indptr| == n + 1 && c.indptr[t] == |UpTo(edges, t)| && |c.indices| == |UpTo(edges, n)|
    ensures forall p :: 0 <= p < |c.indices| ==> c.indices[p] == UpTo(edges, n)[p].dst
  {
    hide UpTo, Ids;
  }

  lemma PartLength(c: Csr, edges: seq<Edge>, n: nat, t: nat)
    requires Describes(c, edges, n) && WellFormed(c) && 0 < t <= n && |c.indptr| == n + 1
    ensures c.indptr[t - 1] == |UpTo(edges, t - 1)| && |Part(c, t)| == |From(edges, t - 1)|
  {
    UpToNext(edges, t - 1);
    ListsAt(c, edges, n, t - 1);
    ListsAt(c, edges, n, t);
    hide From, UpTo, WellFormed, Describes;
  }

  lemma PartAt(c: Csr, edges: seq<Edge>, n: nat, t: nat, k: nat)
    requires Describes(c, edges, n) && WellFormed(c) && 0 < t <= n && |c.indptr| == n + 1
    requires IdsOf(c.edgeIds, UpTo(edges, n))
    requires k < |Part(c, t)|
    requires c.indptr[t - 1] == |UpTo(edges, t - 1)| && |UpTo(edges, t - 1)| + k < |UpTo(edges, n)|
    ensures var e := UpTo(edges, n)[|UpTo(edges, t - 1)| + k];
            Part(c, t)[k] == Edge(t - 1, e.id, e.dst)
  {
    ListsAt(c, edges, n, t);
    hide From, UpTo, WellFormed, Describes;
  }

  ghost predicate IdsOf(ids: Option<seq<int>>, edges: seq<Edge>) {
    match ids
    case Some(ids) => |ids| == |edges| && forall k :: 0 <= k < |edges| ==> edges[k].id == Some(ids[k])
    case None => forall k :: 0 <= k < |edges| ==> edges[k].id == None
  }

  lemma GroupAt(edges: seq<Edge>, s: nat, n: nat, k: nat)
    requires s < n && k < |From(edges, s)|
    ensures |UpTo(edges, s)| + k < |UpTo(edges, n)|
    ensures UpTo(edges, n)[|UpTo(edges, s)| + k] == From(edges, s)[k] && From(edges, s)[k].src == s
  {
    hide *;
    FromOnly(edges, s);
    UpToNext(edges, s);
    UpToMonotone(edges, s + 1, n);
    var all, part, at := UpTo(edges, n), UpTo(edges, s + 1), |UpTo(edges, s)| + k;
    assert part[at] == From(edges, s)[k];
    assert all[..|part|][at] == all[at];
  }

  // ---------- The order of the edges ----------

  lemma FromAppend(edges: seq<Edge>, e: Edge, s: int)
    ensures From(edges + [e], s) == From(edges, s) + if e.src == s then [e] else []
  {
  }

  /** An edge behind all others stays there. */
  lemma {:induction false} UpToLast(edges: seq<Edge>, e: Edge, n: nat)
    requires forall k :: 0 <= k < |edges| ==> edges[k].src <= e.src
    ensures UpTo(edges + [e], n) == UpTo(edges, n) + if 0 <= e.src < n then [e] else []
  {
    hide From;
    if n > 0 {
      UpToLast(edges, e, n - 1);
      FromAppend(edges, e, n - 1);
      var before, group := UpTo(edges, n - 1), From(edges, n - 1);
      if e.src == n - 1 {
        assert before + [] == before;
        assert before + (group + [e]) == (before + group) + [e];
      } else if e.src < n - 1 {
        NoneFrom(edges, n - 1);
        assert UpTo(edges, n) == before;
      }
    }
  }

  lemma {:induction false} NoneFrom(edges: seq<Edge>, s: int)
    requires forall k :: 0 <= k < |edges| ==> edges[k].src != s
    ensures From(edges, s) == []
  {
    if edges != [] {
      NoneFrom(edges[..|edges| - 1], s);
    }
  }

  lemma {:induction false} SortedStays(edges: seq<Edge>, n: nat)
    requires Sorted(edges) && Below(edges, n)
    ensures UpTo(edges, n) == edges
  {
    if edges == [] {
      EmptyStays(n);
    } else {
      var last := |edges| - 1;
      assert edges == edges[..last] + [edges[last]];
      SortedStays(edges[..last], n);
      UpToLast(edges[..last], edges[last], n);
    }
  }

  lemma {:induction false} EmptyStays(n: nat)
    ensures UpTo([], n) == []
  {
    if n > 0 {
      EmptyStays(n - 1);
    }
  }

  lemma {:induction false} SameGroupsSameOrder(a: seq<Edge>, b: seq<Edge>, n: nat)
    requires SameGroups(a, b, n)
    ensures UpTo(a, n) == UpTo(b, n)
  {
    if n > 0 {
      SameGroupsSameOrder(a, b, n - 1);
    }
  }

  lemma {:induction false} FromConcat(a: seq<Edge>, b: seq<Edge>, s: int)
    ensures From(a + b, s) == From(a, s) + From(b, s)
  {
    if b == [] {
      assert a + b == a;
    } else {
      var last := |b| - 1;
      assert (a + b)[..|a + b| - 1] == a + b[..last];
      FromConcat(a, b[..last], s);
    }
  }

  lemma {:induction false} FromFrom(edges: seq<Edge>, t: int, s: int)
    requires forall k :: 0 <= k < |edges| ==> edges[k].src == t
    ensures From(edges, s) == if s == t then edges else []
  {
    if edges != [] {
      FromFrom(edges[..|edges| - 1], t, s);
    }
  }

  lemma GroupOfGroup(edges: seq<Edge>, t: int, s: int)
    ensures From(From(edges, t), s) == if s == t then From(edges, t) else []
  {
    FromOnly(edges, t);
    FromFrom(From(edges, t), t, s);
  }

  lemma {:induction false} FromUpTo(edges: seq<Edge>, n: nat, s: int)
    ensures From(UpTo(edges, n), s) == if 0 <= s < n then From(edges, s) else []
  {
    hide *;
    if n == 0 {
      StartOfLists(edges);
      FromNone();
    } else {
      FromUpTo(edges, n - 1, s);
      GroupOfGroup(edges, n - 1, s);
      UpToNext(edges, n - 1);
      var before, group := UpTo(edges, n - 1), From(edges, n - 1);
      FromConcat(before, group, s);
      if s == n - 1 {
        assert [] + group == group;
      } else {
        assert From(before, s) + [] == From(before, s);
      }
    }
  }

  predicate SameGroups(a: seq<Edge>, b: seq<Edge>, n: nat) {
    forall s :: 0 <= s < n ==> From(a, s) == From(b, s)
  }

  lemma UpToKeepsGroups(edges: seq<Edge>, n: nat)
    requires Below(edges, n)
    ensures Below(UpTo(edges, n), n) && Sorted(UpTo(edges, n)) && SameGroups(UpTo(edges, n), edges, n)
  {
    UpToOnly(edges, n);
    forall s | 0 <= s < n ensures From(UpTo(edges, n), s) == From(edges, s) {
      FromUpTo(edges, n, s);
    }
  }

  /** UpTo is the stable sort by source: it is the one sequence in which no source descends and the
      edges of each source are those of the input, in the same order. */
  lemma StableSortIff(edges: seq<Edge>, sorted: seq<Edge>, n: nat)
    requires Below(edges, n)
    ensures sorted == UpTo(edges, n) <==> Below(sorted, n) && Sorted(sorted) && SameGroups(sorted, edges, n)
  {
    UpToKeepsGroups(edges, n);
    if Below(sorted, n) && Sorted(sorted) && SameGroups(sorted, edges, n) {
      SortedStays(sorted, n);
      SameGroupsSameOrder(sorted, edges, n);
    }
  }

  // ---------- The columns ----------

  /** A column of the rows from s, in their order. */
  function ColumnFrom(rows: seq<seq<int>>, s: int, column: nat): seq<int>
    requires forall k :: 0 <= k < |rows| ==> column < |rows[k]|
  {
    if rows == [] then []
    else
      var last := rows[|rows| - 1];
      ColumnFrom(rows[..|rows| - 1], s, column) + if last[0] == s then [last[column]] else []
  }

  lemma {:induction false} FromExpand(c: Csr, n: nat, s: int)
    requires WellFormed(c) && n < |c.indptr|
    ensures From(Expand(c, n), s) == if 0 <= s < n then Part(c, s + 1) else []
  {
    assert n > 0 ==> forall k :: 0 <= k < |Part(c, n)| ==> Part(c, n)[k].src == n - 1;
    hide From, WellFormed, Part;
    if n == 0 {
      FromNone();
    } else {
      FromExpand(c, n - 1, s);
      FromConcat(Expand(c, n - 1), Part(c, n), s);
      FromFrom(Part(c, n), n - 1, s);
      if s == n - 1 {
        assert [] + Part(c, n) == Part(c, n);
      } else {
        assert From(Expand(c, n - 1), s) + [] == From(Expand(c, n - 1), s);
      }
    }
  }

  lemma {:induction false} ColumnsOfGroup(rows: seq<seq<int>>, layout: Layout, n: nat, s: int)
    requires HasLayout(rows, layout) && forall k :: 0 <= k < |rows| ==> 0 <= rows[k][0]
    ensures Dsts(From(EdgesOf(rows, layout, n), s)) == ColumnFrom(rows, s, layout.dstAt)
    ensures layout.edgeAt.Some? ==>
              IdsOf(Some(ColumnFrom(rows, s, layout.edgeAt.value)), From(EdgesOf(rows, layout, n), s))
  {
    if rows != [] {
      var front, edges := rows[..|rows| - 1], EdgesOf(rows, layout, n);
      ColumnsOfGroup(front, layout, n, s);
      assert EdgesOf(front, layout, n) == edges[..|rows| - 1];
    }
  }

  /** In terms of the columns of the query: between indptr[s] and indptr[s + 1] are the destinations of the
      rows whose first column is s, in the order of the rows, and their ids stand beside them. */
  lemma ByColumns(c: Csr, rows: seq<seq<int>>, layout: Layout, n: nat, s: nat)
    requires HasLayout(rows, layout) && (forall k :: 0 <= k < |rows| ==> rows[k] != [] && 0 <= rows[k][0]) && s < n
    requires Exports(c, EdgesOf(rows, layout, n), layout, n)
    ensures |c.indptr| == n + 1 && 0 <= c.indptr[s] <= c.indptr[s + 1] <= |c.indices|
    ensures c.indices[c.indptr[s]..c.indptr[s + 1]] == ColumnFrom(rows, s, layout.dstAt)
    ensures match (layout.edgeAt, c.edgeIds)
            case (Some(at), Some(ids)) =>
              |ids| == |c.indices| && ids[c.indptr[s]..c.indptr[s + 1]] == ColumnFrom(rows, s, at)
            case (None, None) => true
            case _ => false
  {
    var edges := EdgesOf(rows, layout, n);
    GroupIsPart(c, edges, layout, n, s);
    ColumnsOfGroup(rows, layout, n, s);
    PartLists(c, n, s);
    hide *;
    if layout.edgeAt.Some? {
      SameIds(From(edges, s), ColumnFrom(rows, s, layout.edgeAt.value), c.edgeIds.value[c.indptr[s]..c.indptr[s + 1]]);
    }
  }

  lemma GroupIsPart(c: Csr, edges: seq<Edge>, layout: Layout, n: nat, s: nat)
    requires Exports(c, edges, layout, n) && s < n
    ensures |c.indptr| == n + 1 && Part(c, s + 1) == From(edges, s)
    ensures WellFormed(c) && (c.edgeIds.Some? <==> layout.edgeAt.Some?)
  {
    FromExpand(c, n, s);
    FromUpTo(edges, n, s);
  }

  /** The lists hold the destinations and ids of a node's edges. */
  lemma PartLists(c: Csr, n: nat, s: nat)
    requires WellFormed(c) && |c.indptr| == n + 1 && s < n
    ensures 0 <= c.indptr[s] <= c.indptr[s + 1] <= |c.indices|
    ensures c.indices[c.indptr[s]..c.indptr[s + 1]] == Dsts(Part(c, s + 1))
    ensures c.edgeIds.Some? ==>
              && |c.edgeIds.value| == |c.indices|
              && IdsOf(Some(c.edgeIds.value[c.indptr[s]..c.indptr[s + 1]]), Part(c, s + 1))
  {
    assert 0 == c.indptr[0] <= c.indptr[s] <= c.indptr[s + 1] <= c.indptr[n] == |c.indices|;
  }

  lemma SameIds(edges: seq<Edge>, a: seq<int>, b: seq<int>)
    requires IdsOf(Some(a), edges) && IdsOf(Some(b), edges)
    ensures a == b
  {
    forall k | 0 <= k < |a| && |a| == |b| ensures a[k] == b[k] {
      assert edges[k].id == Some(a[k]) == Some(b[k]);
    }
  }

  lemma {:induction false} CountFrom(edges: seq<Edge>, e: Edge)
    ensures multiset(edges)[e] == multiset(From(edges, e.src))[e]
  {
    if edges != [] {
      var front, last := edges[..|edges| - 1], edges[|edges| - 1];
      assert edges == front + [last];
      CountFrom(front, e);
    }
  }

  /** Each edge is as often in it as in the input. */
  lemma SameEdges(edges: seq<Edge>, n: nat)
    requires Below(edges, n)
    ensures multiset(UpTo(edges, n)) == multiset(edges)
  {
    UpToKeepsGroups(edges, n);
    forall e: Edge ensures multiset(UpTo(edges, n))[e] == multiset(edges)[e] {
      CountFrom(edges, e);
      CountFrom(UpTo(edges, n), e);
      if !(0 <= e.src < n) {
        assert e !in edges && e !in UpTo(edges, n);
      }
    }
  }

  /** Rows that are already sorted by source are what the lists describe. */
  lemma SortedIsExact(c: Csr, edges: seq<Edge>, layout: Layout, n: nat)
    requires Exports(c, edges, layout, n) && Sorted(edges)
    ensures Expand(c, n) == edges
  {
    SortedStays(edges, n);
  }
}
