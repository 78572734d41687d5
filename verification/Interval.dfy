/** Timedelta columns as they are scanned (src_cpp/numpy/numpy_scan.cpp), and the two ways in which an
    interval is read back: pybind (src_cpp/py_query_result.cpp) and the C API (src_py/_lbug_capi.py).

  The engine's constants are a month of 30 days and a year of 365; a scanned year is therefore 12 months
  of 30 days, but is read back as 365 days.
 */
module Interval {
  const MICROS_PER_DAY := 86_400_000_000
  const DAYS_PER_MONTH := 30
  const MONTHS_PER_YEAR := 12
  const DAYS_PER_YEAR := 365

  /** The smallest int64, which pandas uses for NaT. */
  const NOT_A_TIME := -0x8000_0000_0000_0000

  datatype Interval = Interval(months: int, days: int, micros: int)

  /** The operators / and % of C++. */
  function TruncDiv(a: int, b: int): int
    requires b > 0
  {
    if a >= 0 then a / b else -((-a) / b)
  }

  function TruncMod(a: int, b: int): int
    requires b > 0
  {
    a - b * TruncDiv(a, b)
  }

  predicate IsInt64(n: int) {
    NOT_A_TIME <= n < -NOT_A_TIME
  }

  predicate IsInt32(n: int) {
    -0x8000_0000 <= n < 0x8000_0000
  }

  /** The duration that an interval was made of. */
  function Micros(i: Interval): int {
    (i.months * DAYS_PER_MONTH + i.days) * MICROS_PER_DAY + i.micros
  }

  /** The parts are as large as they can be, have one sign, and add up to the microseconds of nanos. */
  predicate Splits(i: Interval, nanos: int) {
    && Micros(i) == TruncDiv(nanos, 1000)
    && -DAYS_PER_MONTH < i.days < DAYS_PER_MONTH && -MICROS_PER_DAY < i.micros < MICROS_PER_DAY
    && (nanos >= 0 ==> i.months >= 0 && i.days >= 0 && i.micros >= 0)
    && (nanos <= 0 ==> i.months <= 0 && i.days <= 0 && i.micros <= 0)
  }

  lemma SplitIsUnique(i: Interval, j: Interval, nanos: int)
    requires Splits(i, nanos) && Splits(j, nanos)
    ensures i == j
  {
  }

  lemma SplitByDivision(nanos: int)
    requires IsInt64(nanos)
    ensures var micros := TruncDiv(nanos, 1000);
            var days := TruncDiv(micros, MICROS_PER_DAY);
            var months := TruncDiv(days, DAYS_PER_MONTH);
            && Splits(Interval(months, TruncMod(days, DAYS_PER_MONTH), TruncMod(micros, MICROS_PER_DAY)), nanos)
            && IsInt32(months) && IsInt32(TruncMod(days, DAYS_PER_MONTH))
  {
  }

  /** Writes count rows from offset on into the output vector. Months and days fit their 32 bits. */
  method ScanTimedelta(source: array<int>, count: nat, offset: nat, data: array<Interval>, nulls: array<bool>)
    requires offset + count <= source.Length && count <= data.Length && count <= nulls.Length
    requires forall k :: 0 <= k < source.Length ==> IsInt64(source[k])
    modifies data, nulls
    ensures forall k :: 0 <= k < count ==> nulls[k] == (source[offset + k] == NOT_A_TIME)
    ensures forall k :: 0 <= k < count && !nulls[k] ==>
              Splits(data[k], source[offset + k]) && IsInt32(data[k].months) && IsInt32(data[k].days)
    ensures forall k :: 0 <= k < count && nulls[k] ==> data[k] == old(data[k])
    ensures data[count..] == old(data[count..]) && nulls[count..] == old(nulls[count..])
  {
    hide TruncDiv, TruncMod, Splits, IsInt32;
    var i := 0;
    while i < count
      invariant 0 <= i <= count
      invariant forall k :: 0 <= k < i ==> nulls[k] == (source[offset + k] == NOT_A_TIME)
      invariant forall k :: 0 <= k < i && !nulls[k] ==>
                  Splits(data[k], source[offset + k]) && IsInt32(data[k].months) && IsInt32(data[k].days)
      invariant forall k :: 0 <= k < i && nulls[k] ==> data[k] == old(data[k])
      invariant forall k :: i <= k < data.Length ==> data[k] == old(data[k])
      invariant forall k :: i <= k < nulls.Length ==> nulls[k] == old(nulls[k])
    {
      var pos := offset + i;
      if source[pos] == NOT_A_TIME {
        nulls[i] := true;
        i := i + 1;
        continue;
      }
      SplitByDivision(source[pos]);
      var micro := TruncDiv(source[pos], 1000);
      var days := TruncDiv(micro, MICROS_PER_DAY);
      micro := TruncMod(micro, MICROS_PER_DAY);
      var months := TruncDiv(days, DAYS_PER_MONTH);
      days := TruncMod(days, DAYS_PER_MONTH);
      data[i] := Interval(months, days, micro);
      nulls[i] := false;
      i := i + 1;
    }
  }

  // ---------- Reading back, in microseconds ----------

  function ReadByPybind(i: Interval): int {
    var years, months := TruncDiv(i.months, MONTHS_PER_YEAR), TruncMod(i.months, MONTHS_PER_YEAR);
    var days := years * DAYS_PER_YEAR + months * DAYS_PER_MONTH + i.days;
    days * MICROS_PER_DAY + i.micros
  }

  /** The operators // and % of Python round down, as do those of Dafny by a positive divisor. */
  function ReadByCApi(i: Interval): int {
    var days := i.days + (i.months / MONTHS_PER_YEAR) * DAYS_PER_YEAR + (i.months % MONTHS_PER_YEAR) * DAYS_PER_MONTH;
    days * MICROS_PER_DAY + i.micros
  }

  /** A timedelta comes back with five more days for every 360 whole days it lasts, either way from zero. */
  lemma Drift(i: Interval, nanos: int)
    requires Splits(i, nanos)
    ensures var micros := TruncDiv(nanos, 1000);
            ReadByPybind(i) == micros + 5 * MICROS_PER_DAY * TruncDiv(TruncDiv(micros, MICROS_PER_DAY), 360)
  {
    var days := TruncDiv(TruncDiv(nanos, 1000), MICROS_PER_DAY);
    assert days == i.months * DAYS_PER_MONTH + i.days;
    assert TruncDiv(days, 360) == TruncDiv(i.months, MONTHS_PER_YEAR);
  }

  /** So it comes back as it was, to the microsecond, exactly when it lasts less than 360 days. */
  lemma NoDriftIff(i: Interval, nanos: int)
    requires Splits(i, nanos)
    ensures ReadByPybind(i) == TruncDiv(nanos, 1000) <==>
              -360 * MICROS_PER_DAY * 1000 < nanos < 360 * MICROS_PER_DAY * 1000
  {
    Drift(i, nanos);
  }

  /** The two readings of any interval agree exactly when its months are not negative or are whole
      years; otherwise the C API reads five days less. */
  lemma ReadingsAgreeIff(i: Interval)
    ensures ReadByPybind(i) == ReadByCApi(i) <==> i.months >= 0 || i.months % MONTHS_PER_YEAR == 0
    ensures ReadByPybind(i) != ReadByCApi(i) ==> ReadByCApi(i) == ReadByPybind(i) - 5 * MICROS_PER_DAY
  {
  }

  /** Over the C API a timedelta is read back as it was exactly between -30 and 360 days. */
  lemma NoDriftByCApiIff(i: Interval, nanos: int)
    requires Splits(i, nanos)
    ensures ReadByCApi(i) == TruncDiv(nanos, 1000) <==>
              -30 * MICROS_PER_DAY * 1000 < nanos < 360 * MICROS_PER_DAY * 1000
  {
    var days := TruncDiv(TruncDiv(nanos, 1000), MICROS_PER_DAY);
    assert days == i.months * DAYS_PER_MONTH + i.days;
    assert TruncDiv(days, 360) == TruncDiv(i.months, MONTHS_PER_YEAR);
    Drift(i, nanos);
    ReadingsAgreeIff(i);
  }

  /** A scanned timedelta of 360 days is read back as one of 365 days. */
  lemma YearIsLonger(i: Interval)
    requires Splits(i, 360 * MICROS_PER_DAY * 1000)
    ensures i == Interval(12, 0, 0) && ReadByPybind(i) == ReadByCApi(i) == 365 * MICROS_PER_DAY
  {
    SplitIsUnique(i, Interval(12, 0, 0), 360 * MICROS_PER_DAY * 1000);
  }

  /** Minus one month is minus 30 days to pybind and minus 35 to the C API. */
  lemma MinusOneMonth()
    ensures ReadByPybind(Interval(-1, 0, 0)) == -30 * MICROS_PER_DAY
    ensures ReadByCApi(Interval(-1, 0, 0)) == -35 * MICROS_PER_DAY
  {
  }
}
