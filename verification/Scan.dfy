/** Parallel scans of DataFrames and Arrow tables with SKIP and LIMIT (src_cpp/py_scan_config.cpp,
    src_cpp/pandas/pandas_scan.cpp, src_cpp/pyarrow/pyarrow_scan.cpp).

  Workers take rows from a state that they share under a lock and output them as pieces of a bounded
  size. A worker is called until a call returns no rows. A DataFrame is handed out in morsels, which a
  worker outputs piece by piece; an Arrow table in chunks, which it outputs whole, with the next one
  fetched before it returns.
 */
module Scan {
  import opened Wrappers

  // ---------- Options ----------

  datatype OptionValue = Int64(i: int) | Boolean(b: bool) | OtherValue

  datatype ScanOption = ScanOption(name: string, value: OptionValue)

  datatype Config = Config(skip: nat, limit: nat, ignoreErrors: bool)

  const MAX_UINT64: nat := 0xFFFF_FFFF_FFFF_FFFF

  function Lookup(options: seq<ScanOption>, name: string): Option<OptionValue> {
    if options == [] then None
    else if options[|options| - 1].name == name then Some(options[|options| - 1].value)
    else Lookup(options[..|options| - 1], name)
  }

  /** What is wrong with an option. */
  function Complaint(o: ScanOption): Option<string> {
    if o.name == "SKIP" then
      if o.value.Int64? && o.value.i >= 0 then None else Some("SKIP Option must be a positive integer literal.")
    else if o.name == "LIMIT" then
      if o.value.Int64? && o.value.i >= 0 then None else Some("LIMIT Option must be a positive integer literal.")
    else if o.name == "IGNORE_ERRORS" then
      if o.value.Boolean? then None else Some("IGNORE_ERRORS Option must be a boolean.")
    else Some(o.name + " Option not recognized by pyArrow scanner.")
  }

  lemma Complaints(o: ScanOption)
    ensures var bad := Complaint(o);
            match o.name
            case "SKIP" =>
              bad == if !o.value.Int64? || o.value.i < 0 then Some("SKIP Option must be a positive integer literal.")
                     else None
            case "LIMIT" =>
              bad == if !o.value.Int64? || o.value.i < 0 then Some("LIMIT Option must be a positive integer literal.")
                     else None
            case "IGNORE_ERRORS" =>
              bad == if !o.value.Boolean? then Some("IGNORE_ERRORS Option must be a boolean.") else None
            case _ =>
              bad == Some(o.name + " Option not recognized by pyArrow scanner.")
  {
  }

  ghost predicate IsConfigOf(c: Config, options: seq<ScanOption>, numRows: nat, defaultIgnoreErrors: bool) {
    && c.skip == (match Lookup(options, "SKIP")
                  case Some(Int64(n)) => if n < numRows then n else numRows
                  case _ => 0)
    && c.limit == (match Lookup(options, "LIMIT")
                   case Some(Int64(n)) => n
                   case _ => MAX_UINT64)
    && c.ignoreErrors == (match Lookup(options, "IGNORE_ERRORS")
                          case Some(Boolean(b)) => b
                          case _ => defaultIgnoreErrors)
  }

  lemma NoOptions(numRows: nat, defaultIgnoreErrors: bool)
    ensures IsConfigOf(Config(0, MAX_UINT64, defaultIgnoreErrors), [], numRows, defaultIgnoreErrors)
  {
  }

  lemma NextOption(c: Config, options: seq<ScanOption>, o: ScanOption, numRows: nat, defaultIgnoreErrors: bool)
    requires IsConfigOf(c, options, numRows, defaultIgnoreErrors)
    ensures var more := options + [o];
            && (o.name == "SKIP" && o.value.Int64? && o.value.i >= 0 ==>
                  IsConfigOf(c.(skip := if o.value.i < numRows then o.value.i else numRows), more, numRows,
                    defaultIgnoreErrors))
            && (o.name == "LIMIT" && o.value.Int64? && o.value.i >= 0 ==>
                  IsConfigOf(c.(limit := o.value.i), more, numRows, defaultIgnoreErrors))
            && (o.name == "IGNORE_ERRORS" && o.value.Boolean? ==>
                  IsConfigOf(c.(ignoreErrors := o.value.b), more, numRows, defaultIgnoreErrors))
  {
  }

  /** The options come from a map. */
  ghost predicate NamesDiffer(options: seq<ScanOption>) {
    forall i, j :: 0 <= i < j < |options| ==> options[i].name != options[j].name
  }

  ghost predicate AllValid(options: seq<ScanOption>) {
    forall k :: 0 <= k < |options| ==> Complaint(options[k]).None?
  }

  lemma {:induction false} LookupFinds(options: seq<ScanOption>, o: ScanOption)
    requires NamesDiffer(options) && o in options
    ensures Lookup(options, o.name) == Some(o.value)
  {
    var last := |options| - 1;
    if options[last] == o {
    } else {
      var k :| 0 <= k < last && options[k] == o;
      assert options[..last][k] == o;
      LookupFinds(options[..last], o);
    }
  }

  lemma {:induction false} FoundIsThere(options: seq<ScanOption>, name: string)
    requires Lookup(options, name).Some?
    ensures ScanOption(name, Lookup(options, name).value) in options
  {
    var last := |options| - 1;
    if options[last].name == name {
      assert options[last] == ScanOption(name, Lookup(options, name).value);
    } else {
      FoundIsThere(options[..last], name);
    }
  }

  lemma SameLookup(options: seq<ScanOption>, others: seq<ScanOption>, name: string)
    requires NamesDiffer(options) && NamesDiffer(others) && forall o :: o in options <==> o in others
    ensures Lookup(options, name) == Lookup(others, name)
  {
    if Lookup(options, name).Some? {
      FoundIsThere(options, name);
      LookupFinds(others, ScanOption(name, Lookup(options, name).value));
    } else if Lookup(others, name).Some? {
      FoundIsThere(others, name);
      LookupFinds(options, ScanOption(name, Lookup(others, name).value));
    }
  }

  /** In which order the map gives its options decides neither whether they are accepted nor what they
      set. It does decide which of two wrong options is reported. */
  lemma OrderDoesNotMatter(options: seq<ScanOption>, others: seq<ScanOption>, numRows: nat, defaultIgnoreErrors: bool)
    requires NamesDiffer(options) && NamesDiffer(others) && forall o :: o in options <==> o in others
    ensures AllValid(options) <==> AllValid(others)
    ensures forall c :: IsConfigOf(c, options, numRows, defaultIgnoreErrors) <==>
                        IsConfigOf(c, others, numRows, defaultIgnoreErrors)
  {
    SameLookup(options, others, "SKIP");
    SameLookup(options, others, "LIMIT");
    SameLookup(options, others, "IGNORE_ERRORS");
    hide Lookup, Complaint;
    assert AllValid(options) <==> forall o :: o in options ==> Complaint(o).None?;
    assert AllValid(others) <==> forall o :: o in others ==> Complaint(o).None?;
  }

  method ParseConfig(options: seq<ScanOption>, numRows: nat, defaultIgnoreErrors: bool)
      returns (r: Result<Config, string>)
    requires NamesDiffer(options)
    ensures r.Ok? <==> AllValid(options)
    ensures r.Err? ==> exists k :: 0 <= k < |options| && Complaint(options[k]) == Some(r.error)
                                   && forall j :: 0 <= j < k ==> Complaint(options[j]).None?
    ensures r.Ok? ==> IsConfigOf(r.value, options, numRows, defaultIgnoreErrors)
  {
    assert AllValid(options) <==> forall k :: 0 <= k < |options| ==> Complaint(options[k]).None?;
    hide *;
    var c := Config(0, MAX_UINT64, defaultIgnoreErrors);
    assert options[..0] == [];
    NoOptions(numRows, defaultIgnoreErrors);
    for k := 0 to |options|
      invariant forall j :: 0 <= j < k ==> Complaint(options[j]).None?
      invariant IsConfigOf(c, options[..k], numRows, defaultIgnoreErrors)
    {
      assert options[..k + 1] == options[..k] + [options[k]];
      var next := ParseOption(c, options[k], numRows, options[..k], defaultIgnoreErrors);
      if next.Err? {
        return Err(next.error);
      }
      c := next.value;
    }
    assert options[..|options|] == options;
    r := Ok(c);
  }

  /** What one option sets. */
  method ParseOption(c: Config, o: ScanOption, numRows: nat, ghost before: seq<ScanOption>,
      ghost defaultIgnoreErrors: bool)
      returns (r: Result<Config, string>)
    requires IsConfigOf(c, before, numRows, defaultIgnoreErrors)
    ensures match Complaint(o)
            case Some(message) => r == Err(message)
            case None => r.Ok? && IsConfigOf(r.value, before + [o], numRows, defaultIgnoreErrors)
  {
    Complaints(o);
    NextOption(c, before, o, numRows, defaultIgnoreErrors);
    hide *;
    if o.name == "SKIP" {
      if !o.value.Int64? || o.value.i < 0 {
        return Err("SKIP Option must be a positive integer literal.");
      }
      r := Ok(c.(skip := if o.value.i < numRows then o.value.i else numRows));
    } else if o.name == "LIMIT" {
      if !o.value.Int64? || o.value.i < 0 {
        return Err("LIMIT Option must be a positive integer literal.");
      }
      r := Ok(c.(limit := o.value.i));
    } else if o.name == "IGNORE_ERRORS" {
      if !o.value.Boolean? {
        return Err("IGNORE_ERRORS Option must be a boolean.");
      }
      r := Ok(c.(ignoreErrors := o.value.b));
    } else {
      r := Err(o.name + " Option not recognized by pyArrow scanner.");
    }
  }

  // ---------- Rows handed out and put out ----------

  /** The rows from lo up to hi. */
  datatype Range = Range(lo: nat, hi: nat) {
    predicate Has(row: int) { lo <= row < hi }

    predicate IsEmpty() { lo >= hi }
  }

  /** A scan of the rows of all, of which those below handed have been given to workers. */
  datatype State = State(all: Range, handed: nat, held: map<int, Range>, done: set<int>, out: seq<Range>)

  function Times(out: seq<Range>, row: int): nat {
    if out == [] then 0 else Times(out[..|out| - 1], row) + if out[|out| - 1].Has(row) then 1 else 0
  }

  ghost predicate SomeoneHolds(s: State, row: int) {
    exists w :: w in s.held && s.held[w].Has(row)
  }

  /** A row that was handed out has been put out once, or else some worker holds it. */
  ghost predicate RowOk(s: State, row: int) {
    if s.all.lo <= row < s.handed then Times(s.out, row) == if SomeoneHolds(s, row) then 0 else 1
    else Times(s.out, row) == 0 && !SomeoneHolds(s, row)
  }

  ghost predicate Apart(a: Range, b: Range) {
    forall row :: a.Has(row) ==> !b.Has(row)
  }

  ghost predicate Inv(s: State) {
    && s.all.lo <= s.handed <= s.all.hi
    && s.done <= s.held.Keys
    && (forall row :: RowOk(s, row))
    && (forall v, w :: v in s.held && w in s.held && v != w ==> Apart(s.held[v], s.held[w]))
    && (forall w :: w in s.done ==> s.held[w].IsEmpty())
    && (s.done != {} ==> s.handed == s.all.hi)
  }

  /** Worker w is given the rows up to hi. */
  function Take(s: State, w: int, hi: nat): State {
    s.(held := s.held[w := Range(s.handed, hi)], handed := hi)
  }

  /** Worker w puts out its next n rows. */
  function Emit(s: State, w: int, n: nat): State
    requires w in s.held
  {
    var r := s.held[w];
    s.(held := s.held[w := Range(r.lo + n, r.hi)], out := s.out + [Range(r.lo, r.lo + n)])
  }

  lemma TakeKeepsInv(s: State, w: int, hi: nat)
    requires Inv(s) && s.handed <= hi <= s.all.hi && w !in s.done
    requires w in s.held ==> s.held[w].IsEmpty()
    ensures Inv(Take(s, w, hi))
  {
    var t := Take(s, w, hi);
    forall row ensures RowOk(t, row) {
      assert RowOk(s, row);
      if SomeoneHolds(s, row) {
        var v :| v in s.held && s.held[v].Has(row);
        assert v in t.held && t.held[v].Has(row);
      }
      if s.handed <= row < hi {
        assert t.held[w].Has(row);
      }
    }
    forall u, v | u in t.held && v in t.held && u != v ensures Apart(t.held[u], t.held[v]) {
      forall row | t.held[u].Has(row) ensures !t.held[v].Has(row) {
        assert RowOk(s, row);
      }
    }
  }

  lemma EmitKeepsInv(s: State, w: int, n: nat)
    requires Inv(s) && w in s.held && s.held[w].lo + n <= s.held[w].hi && n > 0
    ensures Inv(Emit(s, w, n))
  {
    var t, piece := Emit(s, w, n), Range(s.held[w].lo, s.held[w].lo + n);
    assert t.out[..|t.out| - 1] == s.out;
    forall row ensures RowOk(t, row) {
      assert RowOk(s, row);
      if piece.Has(row) {
        assert s.held[w].Has(row);
        forall v | v in t.held ensures !t.held[v].Has(row) {
          if v != w {
            assert Apart(s.held[w], s.held[v]);
          }
        }
      } else if SomeoneHolds(s, row) {
        var v :| v in s.held && s.held[v].Has(row);
        assert t.held[v].Has(row);
      }
    }
    forall u, v | u in t.held && v in t.held && u != v ensures Apart(t.held[u], t.held[v]) {
      assert Apart(s.held[u], s.held[v]);
    }
  }

  /** A worker that was told that there are no more rows. */
  function Stop(s: State, w: int): State {
    s.(done := s.done + {w})
  }

  lemma StopKeepsInv(s: State, w: int)
    requires Inv(s) && w in s.held && s.held[w].IsEmpty() && s.handed == s.all.hi
    ensures Inv(Stop(s, w))
  {
    forall row ensures RowOk(Stop(s, w), row) {
      assert RowOk(s, row);
      assert SomeoneHolds(Stop(s, w), row) <==> SomeoneHolds(s, row);
    }
  }

  /** Nothing has been handed out. */
  function Begin(all: Range): State {
    State(all, all.lo, map[], {}, [])
  }

  lemma BeginHasInv(all: Range)
    requires all.lo <= all.hi
    ensures Inv(Begin(all))
  {
  }

  /** All workers were told that there are no more rows. */
  ghost predicate Finished(s: State) {
    s.done == s.held.Keys && exists w :: w in s.held
  }

  ghost predicate Exact(s: State) {
    forall row :: Times(s.out, row) == if s.all.Has(row) then 1 else 0
  }

  lemma FinishedIsExact(s: State)
    requires Inv(s) && Finished(s)
    ensures Exact(s)
  {
    forall row ensures Times(s.out, row) == if s.all.Has(row) then 1 else 0 {
      assert RowOk(s, row);
      forall w | w in s.held ensures !s.held[w].Has(row) {
        assert w in s.done;
      }
    }
  }

  predicate PiecesFit(s: State, capacity: nat) {
    forall k :: 0 <= k < |s.out| ==> 0 < s.out[k].hi - s.out[k].lo <= capacity
  }

  // ---------- Scans end ----------

  /** The rows that have not been put out. */
  ghost function Missing(s: State): set<int> {
    set row | s.all.lo <= row < s.all.hi && Times(s.out, row) == 0
  }

  /** As many more calls as there can be: each puts out a row or tells a worker that there are none. */
  ghost function CallsLeft(s: State): nat {
    |Missing(s)| + |s.held.Keys - s.done|
  }

  lemma SmallerSet<T>(a: set<T>, b: set<T>, x: T)
    requires a <= b && x in b && x !in a
    ensures |a| < |b|
  {
    assert a <= b - {x};
    SubsetSize(a, b - {x});
  }

  lemma SubsetSize<T>(a: set<T>, b: set<T>)
    requires a <= b
    ensures |a| <= |b|
  {
    assert b == a + (b - a);
  }

  lemma EmitLeavesFewer(s: State, w: int, n: nat)
    requires Inv(s) && w in s.held && s.held[w].lo + n <= s.held[w].hi && n > 0
    ensures CallsLeft(Emit(s, w, n)) < CallsLeft(s)
  {
    var t, first := Emit(s, w, n), s.held[w].lo;
    assert t.out[..|t.out| - 1] == s.out;
    assert RowOk(s, first) && s.held[w].Has(first);
    assert Missing(t) <= Missing(s);
    SmallerSet(Missing(t), Missing(s), first);
    assert t.held.Keys - t.done == s.held.Keys - s.done;
  }

  lemma StopLeavesFewer(s: State, w: int)
    requires w in s.held && w !in s.done
    ensures CallsLeft(Stop(s, w)) < CallsLeft(s)
  {
    assert Missing(Stop(s, w)) == Missing(s);
    SmallerSet(Stop(s, w).held.Keys - Stop(s, w).done, s.held.Keys - s.done, w);
  }

  lemma SameCallsLeft(s: State, t: State)
    requires t.all == s.all && t.out == s.out && t.held.Keys == s.held.Keys && t.done == s.done
    ensures CallsLeft(t) == CallsLeft(s)
  {
    assert Missing(t) == Missing(s);
  }

  lemma DoneHoldNothing(s: State, w: int)
    requires Inv(s) && (w in s.held ==> !s.held[w].IsEmpty())
    ensures w !in s.done
  {
  }

  // ---------- DataFrames ----------

  function Min(a: nat, b: nat): nat { if a < b then a else b }

  /** The rows of the scan of n rows. */
  function PandasRows(n: nat, c: Config): Range
    requires c.skip <= n
  {
    Range(c.skip, c.skip + Min(n - c.skip, c.limit))
  }

  datatype Step = Start(w: int) | Call(w: int, morsel: nat)

  /** The rest of what w holds, or a morsel: the engine's morsels follow each other and are not empty. */
  function Refill(s: State, w: int, morsel: nat): State
    requires w in s.held
  {
    if s.held[w].IsEmpty() && s.handed < s.all.hi then Take(s, w, Min(s.handed + morsel, s.all.hi)) else s
  }

  predicate PandasCan(s: State, step: Step) {
    match step
    case Start(w) => w !in s.held
    case Call(w, morsel) => w in s.held && w !in s.done && morsel > 0
  }

  function PandasDo(s: State, step: Step, capacity: nat): State
    requires PandasCan(s, step)
  {
    match step
    case Start(w) => s.(held := s.held[w := Range(0, 0)])
    case Call(w, morsel) =>
      var t := Refill(s, w, morsel);
      if t.held[w].IsEmpty() then Stop(t, w)
      else Emit(t, w, Min(capacity, t.held[w].hi - t.held[w].lo))
  }

  /** A worker that holds nothing. */
  lemma JoinKeepsInv(s: State, w: int)
    requires Inv(s) && w !in s.done && (w in s.held ==> s.held[w].IsEmpty())
    ensures Inv(s.(held := s.held[w := Range(0, 0)]))
  {
    var t := s.(held := s.held[w := Range(0, 0)]);
    forall row ensures RowOk(t, row) {
      assert RowOk(s, row);
      if SomeoneHolds(s, row) {
        var v :| v in s.held && s.held[v].Has(row);
        assert t.held[v].Has(row);
      }
    }
  }

  lemma RefillKeepsInv(s: State, w: int, morsel: nat)
    requires Inv(s) && w in s.held && w !in s.done && morsel > 0
    ensures var t := Refill(s, w, morsel);
            Inv(t) && (t.held[w].IsEmpty() ==> t.handed == t.all.hi)
  {
    if s.held[w].IsEmpty() && s.handed < s.all.hi {
      TakeKeepsInv(s, w, Min(s.handed + morsel, s.all.hi));
    }
  }

  lemma PandasStepKeeps(s: State, step: Step, capacity: nat)
    requires Inv(s) && PiecesFit(s, capacity) && capacity > 0 && PandasCan(s, step)
    ensures Inv(PandasDo(s, step, capacity)) && PiecesFit(PandasDo(s, step, capacity), capacity)
    ensures PandasDo(s, step, capacity).all == s.all
  {
    hide Inv;
    match step
    case Start(w) =>
      DoneHoldNothing(s, w);
      JoinKeepsInv(s, w);
    case Call(w, morsel) =>
      RefillKeepsInv(s, w, morsel);
      var t := Refill(s, w, morsel);
      if t.held[w].IsEmpty() {
        StopKeepsInv(t, w);
      } else {
        EmitKeepsInv(t, w, Min(capacity, t.held[w].hi - t.held[w].lo));
      }
  }

  ghost predicate PandasRun(s: State, steps: seq<Step>, capacity: nat, t: State)
    decreases |steps|
  {
    if steps == [] then s == t
    else PandasCan(s, steps[0]) && PandasRun(PandasDo(s, steps[0], capacity), steps[1..], capacity, t)
  }

  lemma {:induction false} PandasRunKeeps(s: State, steps: seq<Step>, capacity: nat, t: State)
    requires Inv(s) && PiecesFit(s, capacity) && capacity > 0 && PandasRun(s, steps, capacity, t)
    ensures Inv(t) && PiecesFit(t, capacity) && t.all == s.all
    decreases |steps|
  {
    if steps != [] {
      PandasStepKeeps(s, steps[0], capacity);
      PandasRunKeeps(PandasDo(s, steps[0], capacity), steps[1..], capacity, t);
    }
  }

  /** Whatever the workers, the morsels and the order of the calls: when the scan has finished, exactly
      the rows of the range have been put out, each once, in pieces that fit a vector. */
  lemma PandasScanIsExact(n: nat, c: Config, steps: seq<Step>, capacity: nat, t: State)
    requires c.skip <= n && capacity > 0
    requires PandasRun(Begin(PandasRows(n, c)), steps, capacity, t) && Finished(t)
    ensures t.all == PandasRows(n, c) && Exact(t) && PiecesFit(t, capacity)
  {
    BeginHasInv(PandasRows(n, c));
    PandasRunKeeps(Begin(PandasRows(n, c)), steps, capacity, t);
    FinishedIsExact(t);
  }

  lemma PandasCallLeavesFewer(s: State, w: int, morsel: nat, capacity: nat)
    requires Inv(s) && capacity > 0 && PandasCan(s, Call(w, morsel))
    ensures CallsLeft(PandasDo(s, Call(w, morsel), capacity)) < CallsLeft(s)
  {
    var t := Refill(s, w, morsel);
    RefillKeepsInv(s, w, morsel);
    assert t.all == s.all && t.out == s.out && t.held.Keys == s.held.Keys && t.done == s.done;
    var n := if t.held[w].IsEmpty() then 0 else Min(capacity, t.held[w].hi - t.held[w].lo);
    assert !t.held[w].IsEmpty() ==> n > 0 && t.held[w].lo + n <= t.held[w].hi;
    assert PandasDo(s, Call(w, morsel), capacity) == if t.held[w].IsEmpty() then Stop(t, w) else Emit(t, w, n);
    hide *;
    SameCallsLeft(s, t);
    if t.held[w].IsEmpty() {
      StopLeavesFewer(t, w);
    } else {
      EmitLeavesFewer(t, w, n);
    }
  }

  /** Whatever the workers and the morsels, there are only so many calls, and until the scan has finished
      some worker can be called: so every scan ends. */
  lemma {:induction false} PandasScanEnds(s: State, steps: seq<Step>, capacity: nat, t: State)
    requires Inv(s) && PiecesFit(s, capacity) && capacity > 0 && PandasRun(s, steps, capacity, t)
    requires (forall k :: 0 <= k < |steps| ==> steps[k].Call?) && exists w :: w in s.held
    ensures |steps| + CallsLeft(t) <= CallsLeft(s)
    ensures Finished(t) || exists w :: PandasCan(t, Call(w, 1))
    decreases |steps|
  {
    if steps == [] {
      SomeWorker(s);
      if !Finished(s) {
        var w :| w in s.held && w !in s.done;
        assert PandasCan(s, Call(w, 1));
      }
    } else {
      var next, rest := PandasDo(s, steps[0], capacity), steps[1..];
      var w :| w in s.held;
      assert w in next.held && PandasRun(next, rest, capacity, t);
      hide *;
      PandasCallLeavesFewer(s, steps[0].w, steps[0].morsel, capacity);
      PandasStepKeeps(s, steps[0], capacity);
      PandasScanEnds(next, rest, capacity, t);
    }
  }

  lemma SomeWorker(s: State)
    requires Inv(s) && exists w :: w in s.held
    ensures Finished(s) || exists w :: w in s.held && w !in s.done
  {
    if forall w :: w in s.held ==> w in s.done {
      assert s.done == s.held.Keys;
    }
  }

  // ---------- The rows that the options ask for ----------

  ghost predicate Given(options: seq<ScanOption>, name: string, i: int) {
    ScanOption(name, Int64(i)) in options
  }

  /** The first row is that of SKIP, if it is given. */
  ghost predicate IsFirst(options: seq<ScanOption>, first: int) {
    Given(options, "SKIP", first) || (first == 0 && forall s :: !Given(options, "SKIP", s))
  }

  /** The row is not before the first one, and within LIMIT, if it is given. */
  ghost predicate AskedFor(options: seq<ScanOption>, row: int) {
    exists first :: IsFirst(options, first) && first <= row
         && forall l :: Given(options, "LIMIT", l) ==> row < first + l
  }

  lemma GivenIs(options: seq<ScanOption>, name: string)
    requires NamesDiffer(options) && AllValid(options) && (name == "SKIP" || name == "LIMIT")
    ensures match Lookup(options, name)
            case Some(value) => value.Int64? && value.i >= 0 && forall i :: Given(options, name, i) <==> i == value.i
            case None => forall i :: !Given(options, name, i)
  {
    forall i | Given(options, name, i) ensures Lookup(options, name) == Some(Int64(i)) {
      LookupFinds(options, ScanOption(name, Int64(i)));
    }
    if Lookup(options, name).Some? {
      FoundIsThere(options, name);
      var o := ScanOption(name, Lookup(options, name).value);
      var k :| 0 <= k < |options| && options[k] == o;
      assert Complaint(options[k]).None?;
    }
  }

  /** SKIP and LIMIT of a scan select rows of the table as they do of a list. */
  lemma RowsAreAskedFor(options: seq<ScanOption>, c: Config, n: nat, defaultIgnoreErrors: bool, row: int)
    requires NamesDiffer(options) && AllValid(options) && IsConfigOf(c, options, n, defaultIgnoreErrors)
    requires n <= MAX_UINT64
    ensures PandasRows(n, c).Has(row) <==> 0 <= row < n && AskedFor(options, row)
  {
    GivenIs(options, "SKIP");
    GivenIs(options, "LIMIT");
    var skip, limit := Lookup(options, "SKIP"), Lookup(options, "LIMIT");
    var first := if skip.Some? then skip.value.i else 0;
    assert IsFirst(options, first) && forall f :: IsFirst(options, f) ==> f == first;
    hide Lookup, AllValid, NamesDiffer, Given;
    if limit.Some? {
      assert Given(options, "LIMIT", limit.value.i);
      assert AskedFor(options, row) <==> first <= row < first + limit.value.i;
    } else {
      assert AskedFor(options, row) <==> first <= row;
    }
  }

  /** The engine's morsels, which follow each other up to numRows. */
  class Morsels {
    const numRows: nat
    var curRowIdx: nat

    constructor (numRows: nat)
      ensures this.numRows == numRows && curRowIdx == 0
    {
      this.numRows, curRowIdx := numRows, 0;
    }

    method GetMorsel(size: nat) returns (morsel: Range)
      requires curRowIdx <= numRows && size > 0
      modifies this
      ensures morsel == Range(old(curRowIdx), curRowIdx) && curRowIdx == Min(old(curRowIdx) + size, numRows)
    {
      var first := curRowIdx;
      curRowIdx := Min(curRowIdx + size, numRows);
      morsel := Range(first, curRowIdx);
    }
  }

  class PandasWorker {
    var start: nat
    var end: nat

    constructor ()
      ensures start == 0 && end == 0
    {
      start, end := 0, 0;
    }

    /** One call: count rows are put out, from offset on. It does to the worker and the shared state
        what the step Call does. */
    method TableFunc(shared: Morsels, skip: nat, capacity: nat, size: nat, ghost s: State, ghost w: int)
        returns (offset: nat, count: nat)
      requires shared.curRowIdx <= shared.numRows && size > 0 && capacity > 0
      requires s.all == Range(skip, skip + shared.numRows) && s.handed == skip + shared.curRowIdx
      requires w in s.held && w !in s.done && s.held[w] == Range(start, end)
      modifies this, shared
      ensures shared.curRowIdx <= shared.numRows
      ensures var t := PandasDo(s, Call(w, size), capacity);
              && t.handed == skip + shared.curRowIdx
              && t.held[w] == Range(start, end)
              && (count == 0 <==> w in t.done)
              && t.out == if count == 0 then s.out else s.out + [Range(offset, offset + count)]
    {
      if start >= end {
        var morsel := shared.GetMorsel(size);
        if morsel.IsEmpty() {
          return start, 0;
        }
        start, end := skip + morsel.lo, skip + morsel.hi;
      }
      offset, count := start, Min(capacity, end - start);
      start := start + count;
    }
  }

  // ---------- Arrow tables ----------

  /** The zero-copy slices taken at bind time; no slice is taken where the option was not given. */
  function ArrowRows(n: nat, c: Config): Range
    requires c.skip <= n
  {
    var table := Range(0, n);
    var skipped := if c.skip != 0 then Range(c.skip, n) else table;
    if c.limit != MAX_UINT64 then Range(skipped.lo, Min(skipped.lo + c.limit, skipped.hi)) else skipped
  }

  /** Both scans are asked for the same rows. */
  lemma SameRows(n: nat, c: Config)
    requires c.skip <= n <= MAX_UINT64
    ensures ArrowRows(n, c) == PandasRows(n, c)
  {
  }

  /** The batches that Arrow cuts a table into follow each other, are not empty and fit a vector. */
  predicate IsCut(chunks: seq<Range>, all: Range, capacity: nat) {
    && (forall k :: 0 <= k < |chunks| ==> 0 < chunks[k].hi - chunks[k].lo <= capacity)
    && (forall j, k :: 0 <= j && k == j + 1 < |chunks| ==> chunks[j].hi == chunks[k].lo)
    && (if chunks == [] then all.lo == all.hi else chunks[0].lo == all.lo && chunks[|chunks| - 1].hi == all.hi)
  }

  /** An Arrow scan; a worker without a chunk holds no rows. */
  datatype Arrow = Arrow(chunks: seq<Range>, current: nat, rows: State)

  ghost predicate ArrowRowsOk(a: Arrow, capacity: nat) {
    && Inv(a.rows) && PiecesFit(a.rows, capacity)
    && IsCut(a.chunks, a.rows.all, capacity)
    && a.current <= |a.chunks|
    && a.rows.handed == (if a.current < |a.chunks| then a.chunks[a.current].lo else a.rows.all.hi)
  }

  ghost predicate ArrowInv(a: Arrow, capacity: nat) {
    ArrowRowsOk(a, capacity) && forall w :: w in a.rows.held ==> HoldsChunk(a, w, capacity)
  }

  /** Worker w fetches the next chunk, if there is one. */
  function Fetch(a: Arrow, w: int): Arrow {
    if a.current >= |a.chunks| then a.(rows := a.rows.(held := a.rows.held[w := Range(0, 0)]))
    else a.(current := a.current + 1, rows := Take(a.rows, w, a.chunks[a.current].hi))
  }

  datatype ArrowStep = ArrowStart(w: int) | ArrowCall(w: int)

  predicate ArrowCan(a: Arrow, step: ArrowStep) {
    match step
    case ArrowStart(w) => w !in a.rows.held
    case ArrowCall(w) => w in a.rows.held && w !in a.rows.done
  }

  function ArrowDo(a: Arrow, step: ArrowStep): Arrow
    requires ArrowCan(a, step)
  {
    match step
    case ArrowStart(w) => Fetch(a, w)
    case ArrowCall(w) =>
      var r := a.rows.held[w];
      if r.IsEmpty() then a.(rows := Stop(a.rows, w))
      else Fetch(a.(rows := Emit(a.rows, w, r.hi - r.lo)), w)
  }

  /** A worker that was called before holds a chunk, as long as there are any. */
  ghost predicate HoldsChunk(a: Arrow, w: int, capacity: nat)
    requires w in a.rows.held
  {
    && a.rows.held[w].hi - a.rows.held[w].lo <= capacity
    && (a.rows.held[w].IsEmpty() ==> a.current >= |a.chunks|)
  }

  lemma FetchKeeps(a: Arrow, w: int, capacity: nat)
    requires ArrowRowsOk(a, capacity)
    requires w !in a.rows.done && (w in a.rows.held ==> a.rows.held[w].IsEmpty())
    requires forall v :: v in a.rows.held && v != w ==> HoldsChunk(a, v, capacity)
    ensures ArrowInv(Fetch(a, w), capacity)
  {
    hide Inv;
    if a.current >= |a.chunks| {
      JoinKeepsInv(a.rows, w);
    } else {
      ChunkFits(a.chunks, a.rows.all, capacity, a.current);
      TakeKeepsInv(a.rows, w, a.chunks[a.current].hi);
    }
    var b := Fetch(a, w);
    forall v | v in b.rows.held ensures HoldsChunk(b, v, capacity) {
      if v != w {
        assert HoldsChunk(a, v, capacity);
      }
    }
  }

  lemma {:induction false} ChunkFits(chunks: seq<Range>, all: Range, capacity: nat, k: nat)
    requires IsCut(chunks, all, capacity) && k < |chunks|
    ensures chunks[k].hi <= all.hi
    decreases |chunks| - k
  {
    if k + 1 < |chunks| {
      ChunkFits(chunks, all, capacity, k + 1);
    }
  }

  lemma ArrowStepKeeps(a: Arrow, step: ArrowStep, capacity: nat)
    requires ArrowInv(a, capacity) && ArrowCan(a, step)
    ensures ArrowInv(ArrowDo(a, step), capacity)
    ensures ArrowDo(a, step).rows.all == a.rows.all && ArrowDo(a, step).chunks == a.chunks
  {
    hide Inv;
    match step
    case ArrowStart(w) =>
      DoneHoldNothing(a.rows, w);
      FetchKeeps(a, w, capacity);
    case ArrowCall(w) =>
      var r := a.rows.held[w];
      assert HoldsChunk(a, w, capacity);
      if r.IsEmpty() {
        StopKeepsInv(a.rows, w);
        forall v | v in a.rows.held ensures HoldsChunk(ArrowDo(a, step), v, capacity) {
          assert HoldsChunk(a, v, capacity);
        }
      } else {
        EmitKeepsInv(a.rows, w, r.hi - r.lo);
        DoneHoldNothing(a.rows, w);
        var b := a.(rows := Emit(a.rows, w, r.hi - r.lo));
        forall v | v in b.rows.held && v != w ensures HoldsChunk(b, v, capacity) {
          assert HoldsChunk(a, v, capacity);
        }
        FetchKeeps(b, w, capacity);
      }
  }

  ghost predicate ArrowRun(a: Arrow, steps: seq<ArrowStep>, b: Arrow)
    decreases |steps|
  {
    if steps == [] then a == b
    else ArrowCan(a, steps[0]) && ArrowRun(ArrowDo(a, steps[0]), steps[1..], b)
  }

  lemma {:induction false} ArrowRunKeeps(a: Arrow, steps: seq<ArrowStep>, b: Arrow, capacity: nat)
    requires ArrowInv(a, capacity) && ArrowRun(a, steps, b)
    ensures ArrowInv(b, capacity) && b.rows.all == a.rows.all && b.chunks == a.chunks
    decreases |steps|
  {
    if steps != [] {
      ArrowStepKeeps(a, steps[0], capacity);
      ArrowRunKeeps(ArrowDo(a, steps[0]), steps[1..], b, capacity);
    }
  }

  lemma ArrowCallLeavesFewer(a: Arrow, w: int, capacity: nat)
    requires ArrowInv(a, capacity) && ArrowCan(a, ArrowCall(w))
    ensures CallsLeft(ArrowDo(a, ArrowCall(w)).rows) < CallsLeft(a.rows)
    ensures ArrowDo(a, ArrowCall(w)).rows.held.Keys == a.rows.held.Keys
  {
    hide CallsLeft, PiecesFit, IsCut;
    var r := a.rows.held[w];
    if r.IsEmpty() {
      StopLeavesFewer(a.rows, w);
    } else {
      EmitLeavesFewer(a.rows, w, r.hi - r.lo);
      SameCallsLeft(Emit(a.rows, w, r.hi - r.lo), ArrowDo(a, ArrowCall(w)).rows);
    }
  }

  lemma {:induction false} ArrowScanEnds(a: Arrow, steps: seq<ArrowStep>, b: Arrow, capacity: nat)
    requires ArrowInv(a, capacity) && ArrowRun(a, steps, b)
    requires (forall k :: 0 <= k < |steps| ==> steps[k].ArrowCall?) && exists w :: w in a.rows.held
    ensures |steps| + CallsLeft(b.rows) <= CallsLeft(a.rows)
    ensures Finished(b.rows) || exists w :: ArrowCan(b, ArrowCall(w))
    decreases |steps|
  {
    if steps == [] {
      SomeWorker(a.rows);
      if !Finished(a.rows) {
        var w :| w in a.rows.held && w !in a.rows.done;
        assert ArrowCan(a, ArrowCall(w));
      }
    } else {
      ArrowCallLeavesFewer(a, steps[0].w, capacity);
      ArrowStepKeeps(a, steps[0], capacity);
      hide ArrowInv, CallsLeft, Finished;
      ArrowScanEnds(ArrowDo(a, steps[0]), steps[1..], b, capacity);
    }
  }

  function ArrowBegin(chunks: seq<Range>, all: Range): Arrow {
    Arrow(chunks, 0, Begin(all))
  }

  /** Whatever the workers and the order of the calls: the same as for a DataFrame. */
  lemma ArrowScanIsExact(n: nat, c: Config, chunks: seq<Range>, steps: seq<ArrowStep>, capacity: nat, b: Arrow)
    requires c.skip <= n <= MAX_UINT64 && IsCut(chunks, ArrowRows(n, c), capacity)
    requires ArrowRun(ArrowBegin(chunks, ArrowRows(n, c)), steps, b) && Finished(b.rows)
    ensures b.rows.all == PandasRows(n, c) && Exact(b.rows) && PiecesFit(b.rows, capacity)
    ensures b.current == |b.chunks| && b.chunks == chunks
  {
    SameRows(n, c);
    BeginHasInv(PandasRows(n, c));
    ArrowRunKeeps(ArrowBegin(chunks, ArrowRows(n, c)), steps, b, capacity);
    FinishedIsExact(b.rows);
    var w :| w in b.rows.held;
    assert HoldsChunk(b, w, capacity);
  }

  /** The rows of both scans are those of one specification, so each row is put out equally often. */
  lemma ScansAgree(n: nat, c: Config, steps: seq<Step>, t: State, chunks: seq<Range>, arrowSteps: seq<ArrowStep>,
      b: Arrow, capacity: nat, row: int)
    requires c.skip <= n <= MAX_UINT64 && capacity > 0
    requires PandasRun(Begin(PandasRows(n, c)), steps, capacity, t) && Finished(t)
    requires IsCut(chunks, ArrowRows(n, c), capacity)
    requires ArrowRun(ArrowBegin(chunks, ArrowRows(n, c)), arrowSteps, b) && Finished(b.rows)
    ensures Times(t.out, row) == Times(b.rows.out, row) == if PandasRows(n, c).Has(row) then 1 else 0
  {
    PandasScanIsExact(n, c, steps, capacity, t);
    ArrowScanIsExact(n, c, chunks, arrowSteps, capacity, b);
  }

  /** A query that is executed again has new workers and a new output, but the chunks and the cursor of
      the shared state; rewind says whether the state was reset. */
  function Again(a: Arrow, rewind: bool): Arrow {
    Arrow(a.chunks, if rewind then 0 else a.current, Begin(a.rows.all))
  }

  lemma {:induction false} NoMoreRows(a: Arrow, steps: seq<ArrowStep>, b: Arrow)
    requires a.current >= |a.chunks| && a.rows.out == [] && forall w :: w in a.rows.held ==> a.rows.held[w].IsEmpty()
    requires ArrowRun(a, steps, b)
    ensures b.rows.out == []
    decreases |steps|
  {
    if steps != [] {
      NoMoreRows(ArrowDo(a, steps[0]), steps[1..], b);
    }
  }

  /** Executed again after a reset, the scan puts out the same rows; without one, none, which is right
      only if there were none. */
  lemma ExecutedAgain(n: nat, c: Config, chunks: seq<Range>, capacity: nat,
      steps: seq<ArrowStep>, first: Arrow, rewind: bool, more: seq<ArrowStep>, second: Arrow)
    requires c.skip <= n <= MAX_UINT64 && IsCut(chunks, ArrowRows(n, c), capacity)
    requires ArrowRun(ArrowBegin(chunks, ArrowRows(n, c)), steps, first) && Finished(first.rows)
    requires ArrowRun(Again(first, rewind), more, second) && Finished(second.rows)
    ensures (forall row :: Times(second.rows.out, row) == Times(first.rows.out, row)) <==>
              rewind || PandasRows(n, c).IsEmpty()
  {
    ArrowScanIsExact(n, c, chunks, steps, capacity, first);
    SameRows(n, c);
    if rewind {
      ArrowScanIsExact(n, c, chunks, more, capacity, second);
    } else {
      NoMoreRows(Again(first, rewind), more, second);
      assert forall row :: Times(second.rows.out, row) == 0;
      if !PandasRows(n, c).IsEmpty() {
        assert Times(first.rows.out, PandasRows(n, c).lo) == 1;
      }
    }
  }

  class ArrowShared {
    const chunks: seq<Range>
    var currentChunk: nat

    constructor (chunks: seq<Range>)
      ensures this.chunks == chunks && currentChunk == 0
    {
      this.chunks, currentChunk := chunks, 0;
    }

    method GetNextChunk() returns (chunk: Option<Range>)
      requires currentChunk <= |chunks|
      modifies this
      ensures currentChunk <= |chunks|
      ensures if old(currentChunk) == |chunks| then chunk == None && currentChunk == old(currentChunk)
              else chunk == Some(chunks[old(currentChunk)]) && currentChunk == old(currentChunk) + 1
    {
      if currentChunk == |chunks| {
        return None;
      }
      chunk := Some(chunks[currentChunk]);
      currentChunk := currentChunk + 1;
    }

    method ResetState()
      modifies this
      ensures currentChunk == 0
    {
      currentChunk := 0;
    }
  }

  class ArrowWorker {
    var arrowArray: Option<Range>

    /** What the worker holds, as a range of rows. */
    function Held(): Range
      reads this
    {
      if arrowArray.Some? then arrowArray.value else Range(0, 0)
    }

    constructor (first: Option<Range>)
      ensures arrowArray == first
    {
      arrowArray := first;
    }

    /** One call: len rows are put out. It does to the worker and the shared state what the step
        ArrowCall does. */
    method TableFunc(shared: ArrowShared, ghost a: Arrow, ghost w: int, ghost capacity: nat) returns (len: nat)
      requires shared.currentChunk <= |shared.chunks| && ArrowInv(a, capacity)
      requires a.chunks == shared.chunks && a.current == shared.currentChunk
      requires w in a.rows.held && w !in a.rows.done && a.rows.held[w] == Held()
      requires arrowArray.Some? ==> !arrowArray.value.IsEmpty()
      modifies this, shared
      ensures shared.currentChunk <= |shared.chunks|
      ensures var b := ArrowDo(a, ArrowCall(w));
              && b.current == shared.currentChunk
              && b.rows.held[w].lo == Held().lo && b.rows.held[w].hi == Held().hi
              && (len == 0 <==> w in b.rows.done)
              && b.rows.out ==
                   if len == 0 then a.rows.out else a.rows.out + [Range(old(Held()).lo, old(Held()).lo + len)]
    {
      if arrowArray.None? {
        return 0;
      }
      len := arrowArray.value.hi - arrowArray.value.lo;
      arrowArray := shared.GetNextChunk();
    }
  }
}
