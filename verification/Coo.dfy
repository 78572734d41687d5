/** All edges of a relation copied into a numpy buffer, sources before destinations, one batch of
    destinations at a time (src_cpp/py_connection.cpp). */
module Coo {
  import opened Wrappers

  datatype Edge = Edge(src: int, dst: int)

  /** A tuple of a factorized table holds one value of its flat column and many of the other. */
  datatype Tuple = Tuple(flat: int, unflat: seq<int>)

  datatype Table =
    | Failed(message: string)
    | Table(srcIsFlat: bool, dstIsFlat: bool, tuples: seq<Tuple>)

  /** The result of the query for destinations from s to e. */
  type Engine = (int, int) -> Table

  // ---------- What the engine promises ----------

  function RowsOf(t: Tuple, srcIsFlat: bool): (rows: seq<Edge>)
    ensures |rows| == |t.unflat|
  {
    seq(|t.unflat|, j requires 0 <= j < |t.unflat| =>
      if srcIsFlat then Edge(t.flat, t.unflat[j]) else Edge(t.unflat[j], t.flat))
  }

  /** The value of the flat column is repeated in every row, that of the other column differs. */
  lemma FlatIsRepeated(t: Tuple, srcIsFlat: bool, j: nat)
    requires j < |t.unflat|
    ensures var row := RowsOf(t, srcIsFlat)[j];
            if srcIsFlat then row.src == t.flat && row.dst == t.unflat[j]
            else row.dst == t.flat && row.src == t.unflat[j]
  {
  }

  function Rows(tuples: seq<Tuple>, srcIsFlat: bool): seq<Edge> {
    if tuples == [] then []
    else Rows(tuples[..|tuples| - 1], srcIsFlat) + RowsOf(tuples[|tuples| - 1], srcIsFlat)
  }

  function Between(edges: seq<Edge>, s: int, e: int): seq<Edge> {
    if edges == [] then []
    else
      var last := edges[|edges| - 1];
      Between(edges[..|edges| - 1], s, e) + if s <= last.dst < e then [last] else []
  }

  /** A query that succeeds returns each edge with a destination in its range once. */
  ghost predicate Answers(engine: Engine, edges: seq<Edge>) {
    forall s, e :: engine(s, e).Table? ==>
      multiset(Rows(engine(s, e).tuples, engine(s, e).srcIsFlat)) == multiset(Between(edges, s, e))
  }

  // ---------- Specification ----------

  function Batches(numDst: nat, size: nat): nat
    requires size > 0
  {
    numDst / size + if numDst % size != 0 then 1 else 0
  }

  function End(batch: nat, numDst: nat, size: nat): nat {
    if (batch + 1) * size > numDst then numDst else (batch + 1) * size
  }

  /** Where the next batch starts; past the last one, the end. */
  function Start(batch: nat, numDst: nat, size: nat): nat {
    if batch * size > numDst then numDst else batch * size
  }

  /** Only one flat column of the two is expected. */
  predicate Usable(t: Table) {
    t.Table? && t.srcIsFlat != t.dstIsFlat
  }

  /** Exactly the tables in which one column of the two is flat. */
  lemma OneFlatColumn(t: Table)
    ensures Usable(t) <==> exists tuples :: t == Table(true, false, tuples) || t == Table(false, true, tuples)
  {
    if Usable(t) {
      assert t == Table(true, false, t.tuples) || t == Table(false, true, t.tuples);
    }
  }

  function TableOf(engine: Engine, numDst: nat, size: nat, batch: nat): Table {
    engine(batch * size, End(batch, numDst, size))
  }

  /** The rows of the first n batches, in the order of their arrival. */
  function RowsOfBatches(engine: Engine, numDst: nat, size: nat, n: nat): seq<Edge> {
    if n == 0 then []
    else
      var t := TableOf(engine, numDst, size, n - 1);
      RowsOfBatches(engine, numDst, size, n - 1) + if t.Table? then Rows(t.tuples, t.srcIsFlat) else []
  }

  /** The sources of the rows are at the front of the buffer, their destinations numRels behind. */
  ghost predicate Holds(buffer: array<int>, numRels: nat, rows: seq<Edge>)
    reads buffer
  {
    && |rows| <= numRels && 2 * numRels <= buffer.Length
    && forall k :: 0 <= k < |rows| ==> buffer[k] == rows[k].src && buffer[numRels + k] == rows[k].dst
  }

  class Connection {
    var maxThreads: nat

    /** After an exception the queries of the connection go on with one thread. */
    method GetAllEdges(buffer: array<int>, engine: Engine, numDst: nat, numRels: nat, batchSize: nat,
        ghost edges: seq<Edge>)
        returns (r: Result<(), string>)
      requires batchSize > 0 && buffer.Length >= 2 * numRels
      requires Answers(engine, edges) && |edges| == numRels
      requires forall k :: 0 <= k < |edges| ==> 0 <= edges[k].dst < numDst
      modifies this, buffer
      ensures r.Ok? <==>
                forall n :: 0 <= n < Batches(numDst, batchSize) ==> Usable(TableOf(engine, numDst, batchSize, n))
      ensures maxThreads == if r.Ok? then old(maxThreads) else 1
      ensures r.Ok? ==>
                var rows := RowsOfBatches(engine, numDst, batchSize, Batches(numDst, batchSize));
                && |rows| == numRels
                && Holds(buffer, numRels, rows)
                && multiset(rows) == multiset(edges)
      ensures forall k :: 2 * numRels <= k < buffer.Length ==> buffer[k] == old(buffer[k])
    {
      hide *;
      var batches := CountBatches(numDst, batchSize);
      var numThreadsForExec := maxThreads;
      maxThreads := 1;
      var srcAt, dstAt: nat := 0, numRels;
      NothingFetched(buffer, engine, edges, numDst, batchSize);
      for batch := 0 to batches
        invariant maxThreads == 1
        invariant srcAt == |RowsOfBatches(engine, numDst, batchSize, batch)| && dstAt == numRels + srcAt
        invariant Fetched(engine, edges, numDst, batchSize, batch)
        invariant Holds(buffer, numRels, RowsOfBatches(engine, numDst, batchSize, batch))
        invariant forall n :: 0 <= n < batch ==> Usable(TableOf(engine, numDst, batchSize, n))
        invariant forall k :: 2 * numRels <= k < buffer.Length ==> buffer[k] == old(buffer[k])
      {
        var fetched := FetchBatch(buffer, engine, numDst, numRels, batchSize, batch, srcAt, edges);
        if fetched.Err? {
          return Err(fetched.error);
        }
        srcAt, dstAt := fetched.value, numRels + fetched.value;
      }
      AllFetched(engine, edges, numDst, batchSize);
      maxThreads := numThreadsForExec;
      r := Ok(());
    }
  }

  method CountBatches(numDst: nat, batchSize: nat) returns (batches: nat)
    requires batchSize > 0
    ensures batches == Batches(numDst, batchSize)
  {
    batches := numDst / batchSize;
    if numDst % batchSize != 0 {
      batches := batches + 1;
    }
  }

  /** The rows of the first n batches are the edges up to where the next one starts. */
  ghost predicate Fetched(engine: Engine, edges: seq<Edge>, numDst: nat, size: nat, n: nat) {
    var rows := RowsOfBatches(engine, numDst, size, n);
    multiset(rows) == multiset(Between(edges, 0, Start(n, numDst, size)))
  }

  /** One batch: its rows are written where the pointers stand. */
  method FetchBatch(buffer: array<int>, engine: Engine, numDst: nat, numRels: nat, batchSize: nat, batch: nat,
      at: nat, ghost edges: seq<Edge>)
      returns (r: Result<nat, string>)
    requires batchSize > 0 && buffer.Length >= 2 * numRels && |edges| == numRels && Answers(engine, edges)
    requires batch < Batches(numDst, batchSize) && Fetched(engine, edges, numDst, batchSize, batch)
    requires at == |RowsOfBatches(engine, numDst, batchSize, batch)|
    requires Holds(buffer, numRels, RowsOfBatches(engine, numDst, batchSize, batch))
    modifies buffer
    ensures r.Ok? <==> Usable(TableOf(engine, numDst, batchSize, batch))
    ensures r.Ok? ==> var rows := RowsOfBatches(engine, numDst, batchSize, batch + 1);
              r.value == |rows| && Holds(buffer, numRels, rows) && Fetched(engine, edges, numDst, batchSize, batch + 1)
    ensures forall k :: 2 * numRels <= k < buffer.Length ==> buffer[k] == old(buffer[k])
  {
    var start := batch * batchSize;
    var end := (batch + 1) * batchSize;
    end := if end > numDst then numDst else end;
    TableIs(engine, numDst, batchSize, batch);
    var table := engine(start, end);
    hide Holds, Rows, Batches, TableOf, RowsOfBatches, Fetched, Answers;
    if table.Failed? {
      return Err(table.message);
    }
    if table.srcIsFlat == table.dstIsFlat {
      return Err("Wrong result table schema.");
    }
    NextBatch(engine, edges, numDst, batchSize, batch);
    var srcAt, dstAt := CopyTuples(buffer, numRels, at, table.tuples, table.srcIsFlat,
        RowsOfBatches(engine, numDst, batchSize, batch));
    r := Ok(srcAt);
  }

  /** Writes the rows of the tuples behind the rows that are there. The two layouts differ in which of
      the columns repeats its one value. */
  method CopyTuples(buffer: array<int>, numRels: nat, at: nat, tuples: seq<Tuple>, srcIsFlat: bool,
      ghost before: seq<Edge>)
      returns (srcAt: nat, dstAt: nat)
    requires buffer.Length >= 2 * numRels && at == |before|
    requires |before| + |Rows(tuples, srcIsFlat)| <= numRels
    requires Holds(buffer, numRels, before)
    modifies buffer
    ensures srcAt == |before| + |Rows(tuples, srcIsFlat)| && dstAt == numRels + srcAt
    ensures Holds(buffer, numRels, before + Rows(tuples, srcIsFlat))
    ensures forall k :: 2 * numRels <= k < buffer.Length ==> buffer[k] == old(buffer[k])
  {
    srcAt, dstAt := at, numRels + at;
    assert before + Rows(tuples[..0], srcIsFlat) == before;
    hide Rows, RowsOf, Holds;
    for i := 0 to |tuples|
      invariant srcAt == |before| + |Rows(tuples[..i], srcIsFlat)| && dstAt == numRels + srcAt
      invariant Holds(buffer, numRels, before + Rows(tuples[..i], srcIsFlat))
      invariant forall k :: 2 * numRels <= k < buffer.Length ==> buffer[k] == old(buffer[k])
    {
      RowsGrow(tuples, i + 1, srcIsFlat);
      RowsNext(tuples, i, srcIsFlat);
      ghost var done := before + Rows(tuples[..i], srcIsFlat);
      assert before + Rows(tuples[..i + 1], srcIsFlat) == done + RowsOf(tuples[i], srcIsFlat);
      CopyTuple(buffer, numRels, srcAt, dstAt, tuples[i], srcIsFlat, done);
      srcAt, dstAt := srcAt + |tuples[i].unflat|, dstAt + |tuples[i].unflat|;
    }
    assert tuples[..|tuples|] == tuples;
  }

  method CopyTuple(buffer: array<int>, numRels: nat, srcAt: nat, dstAt: nat, t: Tuple, srcIsFlat: bool,
      ghost done: seq<Edge>)
    requires buffer.Length >= 2 * numRels && srcAt == |done| && dstAt == numRels + srcAt
    requires |done| + |t.unflat| <= numRels && Holds(buffer, numRels, done)
    modifies buffer
    ensures Holds(buffer, numRels, done + RowsOf(t, srcIsFlat))
    ensures forall k :: 2 * numRels <= k < buffer.Length ==> buffer[k] == old(buffer[k])
  {
    CopyColumn(buffer, srcAt, t, srcIsFlat);
    CopyColumn(buffer, dstAt, t, !srcIsFlat);
    HoldsMore(buffer, numRels, done, t, srcIsFlat);
  }

  /** The values of one column in the rows of t. */
  function Column(t: Tuple, isFlat: bool): (values: seq<int>)
    ensures |values| == |t.unflat|
  {
    if isFlat then seq(|t.unflat|, j => t.flat) else t.unflat
  }

  /** Writes the values of one column from at on, and nothing else. */
  method CopyColumn(buffer: array<int>, at: nat, t: Tuple, isFlat: bool)
    requires at + |t.unflat| <= buffer.Length
    modifies buffer
    ensures forall k :: at <= k < at + |t.unflat| ==> buffer[k] == Column(t, isFlat)[k - at]
    ensures forall k :: 0 <= k < buffer.Length && !(at <= k < at + |t.unflat|) ==> buffer[k] == old(buffer[k])
  {
    for j := 0 to |t.unflat|
      invariant forall k :: at <= k < at + j ==> buffer[k] == Column(t, isFlat)[k - at]
      invariant forall k :: 0 <= k < buffer.Length && !(at <= k < at + j) ==> buffer[k] == old(buffer[k])
    {
      buffer[at + j] := if isFlat then t.flat else t.unflat[j];
    }
  }

  lemma HoldsMore(buffer: array<int>, numRels: nat, done: seq<Edge>, t: Tuple, srcIsFlat: bool)
    requires |done| + |t.unflat| <= numRels
    requires Holds(buffer, numRels, done)
    requires forall k :: |done| <= k < |done| + |t.unflat| ==> buffer[k] == Column(t, srcIsFlat)[k - |done|]
    requires forall k :: numRels + |done| <= k < numRels + |done| + |t.unflat| ==>
               buffer[k] == Column(t, !srcIsFlat)[k - (numRels + |done|)]
    ensures Holds(buffer, numRels, done + RowsOf(t, srcIsFlat))
  {
  }

  lemma RowsNext(tuples: seq<Tuple>, i: nat, srcIsFlat: bool)
    requires i < |tuples|
    ensures Rows(tuples[..i + 1], srcIsFlat) == Rows(tuples[..i], srcIsFlat) + RowsOf(tuples[i], srcIsFlat)
  {
    assert tuples[..i + 1][..i] == tuples[..i];
  }

  lemma {:induction false} RowsGrow(tuples: seq<Tuple>, i: nat, srcIsFlat: bool)
    requires i <= |tuples|
    ensures |Rows(tuples[..i], srcIsFlat)| <= |Rows(tuples, srcIsFlat)|
  {
    if i < |tuples| {
      RowsGrow(tuples[..|tuples| - 1], i, srcIsFlat);
      assert tuples[..|tuples| - 1][..i] == tuples[..i];
    } else {
      assert tuples[..i] == tuples;
    }
  }

  // ---------- The batches partition the destinations ----------

  lemma TableIs(engine: Engine, numDst: nat, size: nat, batch: nat)
    ensures TableOf(engine, numDst, size, batch) ==
            engine(batch * size, if (batch + 1) * size > numDst then numDst else (batch + 1) * size)
  {
  }

  lemma {:induction false} NoneBetween(edges: seq<Edge>, s: int)
    ensures Between(edges, s, s) == []
  {
    if edges != [] {
      NoneBetween(edges[..|edges| - 1], s);
    }
  }

  lemma {:induction false} BetweenSplits(edges: seq<Edge>, s: int, m: int, e: int)
    requires s <= m <= e
    ensures multiset(Between(edges, s, e)) == multiset(Between(edges, s, m)) + multiset(Between(edges, m, e))
  {
    if edges != [] {
      BetweenSplits(edges[..|edges| - 1], s, m, e);
    }
  }

  lemma {:induction false} BetweenAll(edges: seq<Edge>, s: int, e: int)
    requires forall k :: 0 <= k < |edges| ==> s <= edges[k].dst < e
    ensures Between(edges, s, e) == edges
  {
    if edges != [] {
      BetweenAll(edges[..|edges| - 1], s, e);
    }
  }

  lemma {:induction false} BetweenFits(edges: seq<Edge>, s: int, e: int)
    ensures |Between(edges, s, e)| <= |edges|
  {
    if edges != [] {
      BetweenFits(edges[..|edges| - 1], s, e);
    }
  }

  lemma SameSize(a: seq<Edge>, b: seq<Edge>)
    requires multiset(a) == multiset(b)
    ensures |a| == |b|
  {
    assert |multiset(a)| == |a| && |multiset(b)| == |b|;
  }

  lemma Times(a: nat, b: nat, c: nat)
    requires a <= b
    ensures a * c <= b * c
  {
  }

  lemma BatchStarts(batch: nat, numDst: nat, size: nat)
    requires size > 0 && batch < Batches(numDst, size)
    ensures Start(batch, numDst, size) == batch * size < numDst
    ensures Start(batch + 1, numDst, size) == End(batch, numDst, size)
    ensures batch * size < End(batch, numDst, size) <= numDst
  {
    var q, r := numDst / size, numDst % size;
    var here, next, whole := batch * size, (batch + 1) * size, q * size;
    assert numDst == whole + r && next == here + size;
    if batch < q {
      Times(batch + 1, q, size);
    } else {
      assert batch == q && r > 0;
    }
  }

  lemma BatchesEnd(numDst: nat, size: nat)
    requires size > 0
    ensures Start(Batches(numDst, size), numDst, size) == numDst
  {
  }

  lemma AllBatches(edges: seq<Edge>, numDst: nat, size: nat)
    requires size > 0
    requires forall k :: 0 <= k < |edges| ==> 0 <= edges[k].dst < numDst
    ensures Between(edges, 0, Start(Batches(numDst, size), numDst, size)) == edges
  {
    BatchesEnd(numDst, size);
    BetweenAll(edges, 0, numDst);
  }

  lemma NextBatch(engine: Engine, edges: seq<Edge>, numDst: nat, size: nat, batch: nat)
    requires size > 0 && batch < Batches(numDst, size) && Answers(engine, edges)
    requires Fetched(engine, edges, numDst, size, batch)
    requires TableOf(engine, numDst, size, batch).Table?
    ensures var t := TableOf(engine, numDst, size, batch);
            var next := RowsOfBatches(engine, numDst, size, batch) + Rows(t.tuples, t.srcIsFlat);
            && next == RowsOfBatches(engine, numDst, size, batch + 1)
            && |next| <= |edges|
    ensures Fetched(engine, edges, numDst, size, batch + 1)
  {
    BatchStarts(batch, numDst, size);
    var s, e := batch * size, End(batch, numDst, size);
    var t := engine(s, e);
    BetweenSplits(edges, 0, s, e);
    BetweenFits(edges, 0, e);
    assert multiset(Rows(t.tuples, t.srcIsFlat)) == multiset(Between(edges, s, e));
    SameSize(RowsOfBatches(engine, numDst, size, batch) + Rows(t.tuples, t.srcIsFlat), Between(edges, 0, e));
  }

  lemma NothingFetched(buffer: array<int>, engine: Engine, edges: seq<Edge>, numDst: nat, size: nat)
    ensures RowsOfBatches(engine, numDst, size, 0) == [] && Fetched(engine, edges, numDst, size, 0)
    ensures forall numRels: nat :: 2 * numRels <= buffer.Length ==> Holds(buffer, numRels, [])
  {
    NoneBetween(edges, 0);
  }

  lemma AllFetched(engine: Engine, edges: seq<Edge>, numDst: nat, size: nat)
    requires size > 0 && Fetched(engine, edges, numDst, size, Batches(numDst, size))
    requires forall k :: 0 <= k < |edges| ==> 0 <= edges[k].dst < numDst
    ensures var rows := RowsOfBatches(engine, numDst, size, Batches(numDst, size));
            |rows| == |edges| && multiset(rows) == multiset(edges)
  {
    AllBatches(edges, numDst, size);
    SameSize(RowsOfBatches(engine, numDst, size, Batches(numDst, size)), edges);
  }

  /** The second of two queries is interrupted. Its answers meet what the engine promises, and the
      extraction ends after its first batch, with one thread left to the connection. */
  lemma OneThreadIsLeft() returns (engine: Engine, edges: seq<Edge>)
    ensures |edges| == 2 && (forall k :: 0 <= k < |edges| ==> 0 <= edges[k].dst < 2) && Answers(engine, edges)
    ensures Batches(2, 1) == 2 && Usable(TableOf(engine, 2, 1, 0)) && !Usable(TableOf(engine, 2, 1, 1))
  {
    var first := Table(true, false, [Tuple(0, [0])]);
    edges := [Edge(0, 0), Edge(0, 1)];
    engine := (s, e) => if s == 0 && e == 1 then first else Failed("Interrupted.");
    assert edges[..1] == [Edge(0, 0)] && Between(edges[..1], 0, 1) == [Edge(0, 0)];
    assert Rows(first.tuples, true) == [Edge(0, 0)] by {
      assert Rows([], true) == [] && RowsOf(Tuple(0, [0]), true) == [Edge(0, 0)];
    }
    assert engine(0, 1) == first;
  }
}
