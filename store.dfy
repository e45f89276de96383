/** The `p1_measurements` table and the meaning of the SQL the servers run
    against it: the append-only insert, the `measured_at >= ?` window, the
    `ORDER BY measured_at` sort, the per-minute `GROUP BY` with `AVG`, and
    the `ORDER BY ... DESC LIMIT 1` lookup of the latest row. */
module Store {
  import opened Meter

  /** One reading as the collector inserts it; `measuredAt` is the
      `measured_at` timestamp in seconds. */
  datatype Measurement = Measurement(
    measuredAt: nat,
    activePowerW: Option<real>,
    totalImportKwh: Option<real>,
    voltageL1V: Option<real>,
    voltageL2V: Option<real>,
    voltageL3V: Option<real>,
    currentL1A: Option<real>,
    currentL2A: Option<real>,
    currentL3A: Option<real>)

  /** The nullable REAL columns of the table. */
  datatype Column =
    | ActivePower | TotalImport
    | VoltageL1 | VoltageL2 | VoltageL3
    | CurrentL1 | CurrentL2 | CurrentL3

  function Value(m: Measurement, c: Column): Option<real>
  {
    match c
    case ActivePower => m.activePowerW
    case TotalImport => m.totalImportKwh
    case VoltageL1 => m.voltageL1V
    case VoltageL2 => m.voltageL2V
    case VoltageL3 => m.voltageL3V
    case CurrentL1 => m.currentL1A
    case CurrentL2 => m.currentL2A
    case CurrentL3 => m.currentL3A
  }

  /** A stored row: the AUTOINCREMENT `id` and the inserted values. */
  datatype Row = Row(id: nat, m: Measurement)

  function Time(r: Row): nat { r.m.measuredAt }

  predicate IdsIncreasing(rows: seq<Row>)
  {
    forall i, j :: 0 <= i < j < |rows| ==> rows[i].id < rows[j].id
  }

  /** The table itself. Rows are only ever appended. */
  class Db {
    var rows: seq<Row>
    var nextId: nat

    ghost predicate Valid()
      reads this
    {
      IdsIncreasing(rows) && forall i :: 0 <= i < |rows| ==> rows[i].id < nextId
    }

    constructor ()
      ensures Valid() && rows == [] && nextId == 1
    {
      rows := [];
      nextId := 1;
    }

    /** `insert_measurement`: appends one row with a fresh id. `fails`
        stands for the sqlite3 error the statement can raise (disk full,
        database locked); then nothing is written. */
    method Insert(m: Measurement, fails: bool) returns (ok: bool)
      requires Valid()
      modifies this
      ensures Valid()
      ensures ok == !fails
      ensures ok ==> rows == old(rows) + [Row(old(nextId), m)] && nextId == old(nextId) + 1
      ensures !ok ==> rows == old(rows) && nextId == old(nextId)
    {
      ok := !fails;
      if ok {
        rows := rows + [Row(nextId, m)];
        nextId := nextId + 1;
      }
    }
  }

  /** The measurements of some rows, in order. */
  function Measurements(rows: seq<Row>): (ms: seq<Measurement>)
    ensures |ms| == |rows|
    ensures forall i :: 0 <= i < |rows| ==> ms[i] == rows[i].m
  {
    if rows == [] then [] else [rows[0].m] + Measurements(rows[1..])
  }

  lemma {:induction false} MeasurementsAppend(a: seq<Row>, b: seq<Row>)
    ensures Measurements(a + b) == Measurements(a) + Measurements(b)
  {
    if a != [] {
      assert (a + b)[1..] == a[1..] + b;
      MeasurementsAppend(a[1..], b);
    }
  }

  /** `COALESCE(x, 0)`. */
  function Coalesce(v: Option<real>): real
  {
    if v.Some? then v.value else 0.0
  }

  /** `COALESCE(l1,0) + COALESCE(l2,0) + COALESCE(l3,0)`. */
  function CoalescedCurrent(m: Measurement): real
  {
    Coalesce(m.currentL1A) + Coalesce(m.currentL2A) + Coalesce(m.currentL3A)
  }

  // ---------------------------------------------------------------------
  // WHERE measured_at >= ?

  /** The rows with `measured_at >= start`, in table order. */
  function Window(rows: seq<Row>, start: int): (w: seq<Row>)
    ensures forall r :: r in w <==> r in rows && Time(r) >= start
    ensures |w| <= |rows|
  {
    if rows == [] then []
    else (if Time(rows[0]) >= start then [rows[0]] else []) + Window(rows[1..], start)
  }

  // ---------------------------------------------------------------------
  // ORDER BY measured_at ASC

  predicate SortedByTime(s: seq<Row>)
  {
    forall i, j :: 0 <= i < j < |s| ==> Time(s[i]) <= Time(s[j])
  }

  /** Puts `r` in front of the first row that is not earlier than it. */
  function InsertByTime(r: Row, s: seq<Row>): (o: seq<Row>)
    requires SortedByTime(s)
    ensures SortedByTime(o)
    ensures multiset(o) == multiset(s) + multiset{r}
  {
    if s == [] || Time(r) <= Time(s[0]) then
      SortedCons(r, s);
      [r] + s
    else
      var tail := InsertByTime(r, s[1..]);
      assert s == [s[0]] + s[1..];
      EarliestFirst(s[0], s[1..], r, tail);
      SortedCons(s[0], tail);
      [s[0]] + tail
  }

  lemma SortedCons(x: Row, t: seq<Row>)
    requires SortedByTime(t)
    requires forall y :: y in t ==> Time(x) <= Time(y)
    ensures SortedByTime([x] + t)
  {
    forall i, j | 0 <= i < j < |[x] + t| ensures Time(([x] + t)[i]) <= Time(([x] + t)[j]) {
      if i > 0 {
        assert ([x] + t)[i] == t[i - 1] && ([x] + t)[j] == t[j - 1];
      } else {
        assert ([x] + t)[j] == t[j - 1] && t[j - 1] in t;
      }
    }
  }

  lemma EarliestFirst(h: Row, rest: seq<Row>, r: Row, tail: seq<Row>)
    requires SortedByTime([h] + rest)
    requires Time(h) < Time(r)
    requires multiset(tail) == multiset(rest) + multiset{r}
    ensures forall y :: y in tail ==> Time(h) <= Time(y)
  {
    forall y | y in tail ensures Time(h) <= Time(y) {
      assert y in multiset(tail);
      if y != r {
        assert y in rest;
        var j :| 0 <= j < |rest| && rest[j] == y;
        assert ([h] + rest)[0] == h && ([h] + rest)[j + 1] == y;
      }
    }
  }

  /** A stable insertion sort on `measured_at`. */
  function SortByTime(s: seq<Row>): (o: seq<Row>)
    ensures SortedByTime(o)
    ensures multiset(o) == multiset(s)
  {
    if s == [] then []
    else
      assert s == [s[0]] + s[1..];
      InsertByTime(s[0], SortByTime(s[1..]))
  }

  /** The raw series: the window, ascending by `measured_at`. */
  function RawSeries(rows: seq<Row>, start: int): (o: seq<Row>)
    ensures SortedByTime(o)
    ensures multiset(o) == multiset(Window(rows, start))
    ensures forall r :: r in o <==> r in rows && Time(r) >= start
  {
    var o := SortByTime(Window(rows, start));
    assert forall r :: r in o <==> r in multiset(Window(rows, start));
    o
  }

  // ---------------------------------------------------------------------
  // GROUP BY strftime('%Y-%m-%dT%H:%M:00Z', measured_at) ORDER BY ts

  /** The minute a row falls in, counted from the epoch. */
  function Minute(r: Row): nat { Time(r) / 60 }

  lemma MinuteMonotone(a: nat, b: nat)
    requires a <= b
    ensures a / 60 <= b / 60
  {
  }

  predicate StrictlyIncreasing(ms: seq<nat>)
  {
    forall i, j :: 0 <= i < j < |ms| ==> ms[i] < ms[j]
  }

  /** The distinct minutes of a series, read off in order. */
  function Minutes(s: seq<Row>): (ms: seq<nat>)
    ensures forall m :: m in ms <==> exists i :: 0 <= i < |s| && Minute(s[i]) == m
    ensures SortedByTime(s) ==> StrictlyIncreasing(ms)
    ensures SortedByTime(s) && s != [] ==> ms != [] && ms[0] == Minute(s[0])
  {
    if s == [] then []
    else
      var rest := Minutes(s[1..]);
      assert forall i :: 1 <= i < |s| ==> s[i] == s[1..][i - 1];
      assert SortedByTime(s) && |s| > 1 ==> Minute(s[0]) <= Minute(s[1]) by {
        if SortedByTime(s) && |s| > 1 {
          MinuteMonotone(Time(s[0]), Time(s[1]));
        }
      }
      if rest != [] && rest[0] == Minute(s[0]) then rest else [Minute(s[0])] + rest
  }

  /** The GROUP BY keys of the minute series: one per minute that holds at
      least one row of the window, ascending. */
  function GroupKeys(rows: seq<Row>, start: int): (ms: seq<nat>)
    ensures StrictlyIncreasing(ms)
    ensures forall k :: 0 <= k < |ms| ==> exists r :: r in rows && Time(r) >= start && Minute(r) == ms[k]
    ensures forall r :: r in rows && Time(r) >= start ==> Minute(r) in ms
  {
    var s := RawSeries(rows, start);
    MinutesOfRows(rows, start, s);
    Minutes(s)
  }

  /** The minutes of a series holding exactly the window's rows are the
      minutes of the window. */
  lemma MinutesOfRows(rows: seq<Row>, start: int, s: seq<Row>)
    requires forall r :: r in s <==> r in rows && Time(r) >= start
    ensures forall k :: 0 <= k < |Minutes(s)| ==> exists r :: r in rows && Time(r) >= start && Minute(r) == Minutes(s)[k]
    ensures forall r :: r in rows && Time(r) >= start ==> Minute(r) in Minutes(s)
  {
    var ms := Minutes(s);
    forall k | 0 <= k < |ms|
      ensures exists r :: r in rows && Time(r) >= start && Minute(r) == ms[k]
    {
      assert ms[k] in ms;
      var i :| 0 <= i < |s| && Minute(s[i]) == ms[k];
      assert s[i] in s;
    }
    forall r | r in rows && Time(r) >= start ensures Minute(r) in ms {
      var i :| 0 <= i < |s| && s[i] == r;
    }
  }

  /** The rows of one GROUP BY group: the window's rows in minute `minute`. */
  function Bucket(w: seq<Row>, minute: nat): (b: seq<Row>)
    ensures forall r :: r in b <==> r in w && Minute(r) == minute
  {
    if w == [] then []
    else (if Minute(w[0]) == minute then [w[0]] else []) + Bucket(w[1..], minute)
  }

  /** The values of one column over some rows. */
  function ColumnOf(b: seq<Row>, c: Column): (vs: seq<Option<real>>)
    ensures |vs| == |b|
    ensures forall i :: 0 <= i < |b| ==> vs[i] == Value(b[i].m, c)
  {
    if b == [] then [] else [Value(b[0].m, c)] + ColumnOf(b[1..], c)
  }

  // ---------------------------------------------------------------------
  // AVG(x): the mean of the non-NULL values, NULL when there are none

  function Present(vs: seq<Option<real>>): (xs: seq<real>)
    ensures |xs| <= |vs|
    ensures forall x :: x in xs <==> Some(x) in vs
    ensures xs == [] <==> forall i :: 0 <= i < |vs| ==> vs[i].None?
  {
    if vs == [] then []
    else (if vs[0].Some? then [vs[0].value] else []) + Present(vs[1..])
  }

  function Sum(xs: seq<real>): real
  {
    if xs == [] then 0.0 else xs[0] + Sum(xs[1..])
  }

  function Avg(vs: seq<Option<real>>): (r: Option<real>)
    ensures r.None? <==> forall i :: 0 <= i < |vs| ==> vs[i].None?
  {
    var xs := Present(vs);
    if xs == [] then None else Some(Sum(xs) / |xs| as real)
  }

  /** `AVG` over unconditionally non-NULL values. */
  function Mean(xs: seq<real>): real
    requires |xs| > 0
  {
    Sum(xs) / |xs| as real
  }

  lemma {:induction false} SumBounds(xs: seq<real>, lo: real, hi: real)
    requires forall i :: 0 <= i < |xs| ==> lo <= xs[i] <= hi
    ensures |xs| as real * lo <= Sum(xs) <= |xs| as real * hi
  {
    if xs != [] {
      SumBounds(xs[1..], lo, hi);
    }
  }

  lemma MeanBounds(xs: seq<real>, lo: real, hi: real)
    requires |xs| > 0
    requires forall i :: 0 <= i < |xs| ==> lo <= xs[i] <= hi
    ensures lo <= Mean(xs) <= hi
  {
    SumBounds(xs, lo, hi);
    var n := |xs| as real;
    var a := Sum(xs) / n;
    assert a * n == Sum(xs);
    if a < lo { MulLess(a, lo, n); }
    if a > hi { MulLess(hi, a, n); }
  }

  lemma MulLess(x: real, y: real, n: real)
    requires x < y && n > 0.0
    ensures x * n < y * n
  {
    assert y * n - x * n == (y - x) * n;
  }

  /** The mean lies between the smallest and the largest non-NULL value. */
  lemma AvgBetween(vs: seq<Option<real>>, lo: real, hi: real)
    requires forall i :: 0 <= i < |vs| ==> vs[i].Some? ==> lo <= vs[i].value <= hi
    ensures Avg(vs).Some? ==> lo <= Avg(vs).value <= hi
  {
    var xs := Present(vs);
    if xs != [] {
      forall i | 0 <= i < |xs| ensures lo <= xs[i] <= hi {
        assert Some(xs[i]) in vs;
      }
      MeanBounds(xs, lo, hi);
    }
  }

  /** A group of one row averages to that row's own values. */
  lemma AvgOfOne(v: Option<real>)
    ensures Avg([v]) == v
  {
    assert Present([v]) == (if v.Some? then [v.value] else []);
    if v.Some? {
      assert Sum([v.value]) == v.value + Sum([]);
    }
  }

  // ---------------------------------------------------------------------
  // ORDER BY measured_at DESC, id DESC LIMIT 1

  /** `x` comes no later than `y` in (measured_at, id) order. */
  predicate NotAfter(x: Row, y: Row)
  {
    Time(x) < Time(y) || (Time(x) == Time(y) && x.id <= y.id)
  }

  function Latest(rows: seq<Row>): (o: Option<Row>)
    ensures o.None? <==> rows == []
    ensures o.Some? ==> o.value in rows && forall x :: x in rows ==> NotAfter(x, o.value)
  {
    if rows == [] then None
    else
      var rest := Latest(rows[1..]);
      assert forall x :: x in rows ==> x == rows[0] || x in rows[1..];
      if rest.None? || NotAfter(rest.value, rows[0]) then Some(rows[0]) else rest
  }

  /** A row later than every other row, in (measured_at, id) order, is the one returned. */
  lemma LatestIsGreatest(rows: seq<Row>, r: Row)
    requires r in rows
    requires forall x :: x in rows && x != r ==> Time(x) < Time(r) || (Time(x) == Time(r) && x.id < r.id)
    ensures Latest(rows) == Some(r)
  {
  }

  /** In normal operation (ids increasing, clock not going backwards) the
      latest row is the one inserted last. */
  lemma LatestIsLastInserted(rows: seq<Row>)
    requires rows != [] && IdsIncreasing(rows) && SortedByTime(rows)
    ensures Latest(rows) == Some(rows[|rows| - 1])
  {
    var r := rows[|rows| - 1];
    forall x | x in rows && x != r
      ensures Time(x) < Time(r) || (Time(x) == Time(r) && x.id < r.id)
    {
      var i :| 0 <= i < |rows| && rows[i] == x;
      assert i < |rows| - 1;
    }
    LatestIsGreatest(rows, r);
  }
}
