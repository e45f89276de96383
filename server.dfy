/** p1-server.py: the current collector. Its enrichment treats a missing
    phase current as 0 and keeps Python's int/float distinction, its
    broadcast evicts a client whose queue is full, its series endpoint does
    not clamp `hours`, and it offers a CSV export with an optional decimal
    comma. p1-server2-old.py shares the helpers, queries, broadcast and
    collector body of this module word for word. */
module Server {
  import opened Meter
  import opened Points
  import opened Store
  import opened Broadcast
  import opened Collector
  import opened PyText
  import opened Series

  // =====================================================================
  // Python numbers in _calculate_extra_fields

  /** `v or 0`: a truthy float is kept, anything else becomes the int 0. */
  function OrZero(v: Option<real>): (n: PyValue)
    ensures ZeroOrFloat(n) && Num(n) == Coalesce(v)
    ensures n.PyInt? <==> !Truthy(v)
  {
    if Truthy(v) then PyFloat(v.value) else PyInt(0)
  }

  /** What `v or 0` can be: the int 0 or a non-zero float. */
  predicate ZeroOrFloat(v: PyValue)
  {
    v == PyInt(0) || (v.PyFloat? && v.x != 0.0)
  }

  /** The value of an int or a float. */
  function Num(v: PyValue): real
  {
    match v
    case PyInt(i) => i as real
    case PyFloat(x) => x
    case _ => 0.0
  }

  /** `max(a, b)`: `a` unless `b` is greater, so the first of two equal
      values wins and keeps its type. */
  function PyMax(a: PyValue, b: PyValue): (r: PyValue)
  {
    if Num(b) > Num(a) then b else a
  }

  /** `min(a, b)`, by the same rule. */
  function PyMin(a: PyValue, b: PyValue): (r: PyValue)
  {
    if Num(b) < Num(a) then b else a
  }

  /** `a - b`: an int when both are ints, a float otherwise. */
  function PySub(a: PyValue, b: PyValue): (r: PyValue)
  {
    if a.PyInt? && b.PyInt? then PyInt(a.i - b.i) else PyFloat(Num(a) - Num(b))
  }

  /** `a + b`: an int when both are ints, a float otherwise. */
  function PyAdd(a: PyValue, b: PyValue): (r: PyValue)
  {
    if a.PyInt? && b.PyInt? then PyInt(a.i + b.i) else PyFloat(Num(a) + Num(b))
  }

  /** No phase current is a non-zero number. */
  predicate NoCurrent(p: Dict)
  {
    !Truthy(Field(p, CurrentL1A)) && !Truthy(Field(p, CurrentL2A)) && !Truthy(Field(p, CurrentL3A))
  }

  /** The three Python objects `_calculate_extra_fields` stores. */
  datatype Extras = Extras(imbalanceA: PyValue, imbalancePct: PyValue, totalCurrentA: PyValue)

  /** `sum` starts from the int 0, which leaves an int or a float as it is. */
  lemma SumStartsAtZero(a: PyValue)
    requires a.PyInt? || a.PyFloat?
    ensures PyAdd(PyInt(0), a) == a
  {
  }

  /** `_calculate_extra_fields`' arithmetic on `i_vals`: `max`, `min`, the
      spread, its share of the largest current, and `sum` (its start value
      left out, see SumStartsAtZero). */
  function ExtrasOf(a: PyValue, b: PyValue, c: PyValue): Extras
  {
    var iMax := PyMax(PyMax(a, b), c);
    var iMin := PyMin(PyMin(a, b), c);
    var imbalance := PySub(iMax, iMin);
    Extras(imbalance,
           PyFloat(Percent(Num(imbalance), Num(iMax))),
           PyAdd(PyAdd(a, b), c))
  }

  /** `_calculate_extra_fields`' arithmetic on the three currents of `p`,
      a missing or null current counting as 0: the spread, its share of the
      largest current in percent, and the sum. */
  function CalculateExtras(p: Dict): Extras
  {
    ExtrasOf(OrZero(Field(p, CurrentL1A)), OrZero(Field(p, CurrentL2A)), OrZero(Field(p, CurrentL3A)))
  }
  /** `Coalesce` of one phase current of a dict. */
  function Current(p: Dict, k: Key): real
  {
    Coalesce(Field(p, k))
  }

  /** The values: for inputs worth `x`, `y` and `z`, the spread, the
      spread as a percentage of the largest, and the sum. */
  lemma ExtrasValues(a: PyValue, b: PyValue, c: PyValue, x: real, y: real, z: real)
    requires Num(a) == x && Num(b) == y && Num(c) == z
    ensures var e := ExtrasOf(a, b, c);
            Num(e.imbalanceA) == Spread(x, y, z) &&
            e.imbalancePct == PyFloat(SpreadPct(x, y, z)) &&
            Num(e.totalCurrentA) == x + y + z
  {
    var e := ExtrasOf(a, b, c);
    MaxOfThree(a, b, c, x, y, z);
    MinOfThree(a, b, c, x, y, z);
    assert Num(e.imbalanceA) == Spread(x, y, z) by {
      NumSub(PyMax(PyMax(a, b), c), PyMin(PyMin(a, b), c));
    }
    assert Num(e.totalCurrentA) == x + y + z by {
      TotalOfThree(a, b, c, x, y, z);
    }
    PercentOfSpread(Num(e.imbalanceA), Num(PyMax(PyMax(a, b), c)), x, y, z);
  }

  /** The percentage of the spread, from the spread and the largest value. */
  lemma PercentOfSpread(d: real, hi: real, x: real, y: real, z: real)
    requires d == Spread(x, y, z) && hi == Max3(x, y, z)
    ensures Percent(d, hi) == SpreadPct(x, y, z)
  {
  }

  /** `sum(i_vals)` is worth the sum of the values. */
  lemma TotalOfThree(a: PyValue, b: PyValue, c: PyValue, x: real, y: real, z: real)
    requires Num(a) == x && Num(b) == y && Num(c) == z
    ensures Num(PyAdd(PyAdd(a, b), c)) == x + y + z
  {
    NumAdd(a, b);
    NumAdd(PyAdd(a, b), c);
  }

  /** `max(i_vals)` is worth the largest value. */
  lemma MaxOfThree(a: PyValue, b: PyValue, c: PyValue, x: real, y: real, z: real)
    requires Num(a) == x && Num(b) == y && Num(c) == z
    ensures Num(PyMax(PyMax(a, b), c)) == Max3(x, y, z)
  {
  }

  /** `min(i_vals)` is worth the smallest value. */
  lemma MinOfThree(a: PyValue, b: PyValue, c: PyValue, x: real, y: real, z: real)
    requires Num(a) == x && Num(b) == y && Num(c) == z
    ensures Num(PyMin(PyMin(a, b), c)) == Min3(x, y, z)
  {
  }

  /** `a - b` is worth the difference, int or float. */
  lemma NumSub(a: PyValue, b: PyValue)
    ensures Num(PySub(a, b)) == Num(a) - Num(b)
  {
  }

  /** `a + b` is worth the sum, int or float. */
  lemma NumAdd(a: PyValue, b: PyValue)
    ensures Num(PyAdd(a, b)) == Num(a) + Num(b)
  {
  }

  /** The types: with every input the int 0 or a non-zero float, the spread
      and the sum are ints exactly when every input is. */
  lemma ExtrasTypes(a: PyValue, b: PyValue, c: PyValue)
    requires ZeroOrFloat(a) && ZeroOrFloat(b) && ZeroOrFloat(c)
    ensures var e := ExtrasOf(a, b, c);
            (e.imbalanceA.PyInt? || e.imbalanceA.PyFloat?) &&
            (e.imbalanceA.PyInt? <==> a.PyInt? && b.PyInt? && c.PyInt?) &&
            (e.totalCurrentA.PyInt? <==> a.PyInt? && b.PyInt? && c.PyInt?) &&
            (a.PyInt? && b.PyInt? && c.PyInt? ==> e.imbalanceA == PyInt(0) && e.totalCurrentA == PyInt(0))
  {
    var x, y, z := Num(a), Num(b), Num(c);
    var iMax := PyMax(PyMax(a, b), c);
    var iMin := PyMin(PyMin(a, b), c);
    assert ZeroOrFloat(iMax) by { assert iMax == a || iMax == b || iMax == c; }
    assert ZeroOrFloat(iMin) by { assert iMin == a || iMin == b || iMin == c; }
    assert iMax.PyInt? <==> Max3(x, y, z) == 0.0;
    assert iMin.PyInt? <==> Min3(x, y, z) == 0.0;
    assert (Max3(x, y, z) == 0.0 && Min3(x, y, z) == 0.0) <==> (x == 0.0 && y == 0.0 && z == 0.0);
  }

  /** On the three nullable currents, null and 0 read as 0: the spread,
      the spread as a percentage of the largest, and the sum. */
  lemma OrZeroExtrasValues(i1: Option<real>, i2: Option<real>, i3: Option<real>)
    ensures var e := ExtrasOf(OrZero(i1), OrZero(i2), OrZero(i3));
            var a, b, c := Coalesce(i1), Coalesce(i2), Coalesce(i3);
            Num(e.imbalanceA) == Spread(a, b, c) && Num(e.imbalanceA) >= 0.0 &&
            Num(e.imbalancePct) == SpreadPct(a, b, c) &&
            Num(e.totalCurrentA) == CoalesceSum(i1, i2, i3)
  {
    var x, y, z := Coalesce(i1), Coalesce(i2), Coalesce(i3);
    ExtrasValues(OrZero(i1), OrZero(i2), OrZero(i3), x, y, z);
    SpreadZeroIffBalanced(x, y, z);
  }

  /** The spread and the sum are the int 0, not a float, exactly when no
      phase carries a non-zero current; otherwise they are floats. */
  lemma OrZeroExtrasTypes(i1: Option<real>, i2: Option<real>, i3: Option<real>)
    ensures var e := ExtrasOf(OrZero(i1), OrZero(i2), OrZero(i3));
            var none := !Truthy(i1) && !Truthy(i2) && !Truthy(i3);
            (e.imbalanceA.PyInt? || e.imbalanceA.PyFloat?) &&
            (e.imbalanceA.PyInt? <==> none) &&
            (e.totalCurrentA.PyInt? <==> none) &&
            (none ==> e.imbalanceA == PyInt(0) && e.totalCurrentA == PyInt(0))
  {
    ExtrasTypes(OrZero(i1), OrZero(i2), OrZero(i3));
  }

  /** `p` with the three derived keys set to the values of `e`. */
  function WithExtras(p: Dict, e: Extras): (q: Dict)
    ensures q.Keys == p.Keys + {ImbalanceA, ImbalancePct, TotalCurrentA}
    ensures forall k :: k in p && k != ImbalanceA && k != ImbalancePct && k != TotalCurrentA ==> q[k] == p[k]
    ensures q[ImbalanceA] == Some(Num(e.imbalanceA))
    ensures q[ImbalancePct] == Some(Num(e.imbalancePct))
    ensures q[TotalCurrentA] == Some(Num(e.totalCurrentA))
  {
    p[ImbalanceA := Some(Num(e.imbalanceA))][ImbalancePct := Some(Num(e.imbalancePct))][TotalCurrentA := Some(Num(e.totalCurrentA))]
  }

  /** `_calculate_extra_fields(p)`: `p` with `imbalance_a`,
      `imbalance_pct` and `total_current_a` set. */
  function ExtraFields(p: Dict): (q: Dict)
    ensures q.Keys == p.Keys + {ImbalanceA, ImbalancePct, TotalCurrentA}
    ensures forall k :: k in p && k != ImbalanceA && k != ImbalancePct && k != TotalCurrentA ==> q[k] == p[k]
    ensures q[ImbalanceA].Some? && q[ImbalancePct].Some? && q[TotalCurrentA].Some?
  {
    WithExtras(p, CalculateExtras(p))
  }

  /** `COALESCE`d sum of three nullable currents. */
  function CoalesceSum(i1: Option<real>, i2: Option<real>, i3: Option<real>): real
  {
    Coalesce(i1) + Coalesce(i2) + Coalesce(i3)
  }

  /** `COALESCE`d sum of the three phase currents of a dict. */
  function CurrentTotal(p: Dict): real
  {
    CoalesceSum(Field(p, CurrentL1A), Field(p, CurrentL2A), Field(p, CurrentL3A))
  }

  lemma ExtraFieldsFrame(p: Dict)
    ensures ExtraFields(p).Keys == p.Keys + {ImbalanceA, ImbalancePct, TotalCurrentA}
    ensures forall k :: k in p && k != ImbalanceA && k != ImbalancePct && k != TotalCurrentA ==>
              ExtraFields(p)[k] == p[k]
  {
  }

  lemma ExtraFieldsImbalance(p: Dict)
    ensures ExtraFields(p)[ImbalanceA] ==
              Some(Spread(Current(p, CurrentL1A), Current(p, CurrentL2A), Current(p, CurrentL3A)))
  {
    OrZeroExtrasValues(Field(p, CurrentL1A), Field(p, CurrentL2A), Field(p, CurrentL3A));
  }

  lemma ExtraFieldsPct(p: Dict)
    ensures ExtraFields(p)[ImbalancePct] ==
              Some(SpreadPct(Current(p, CurrentL1A), Current(p, CurrentL2A), Current(p, CurrentL3A)))
  {
    OrZeroExtrasValues(Field(p, CurrentL1A), Field(p, CurrentL2A), Field(p, CurrentL3A));
  }

  lemma ExtraFieldsTotal(p: Dict)
    ensures ExtraFields(p)[TotalCurrentA] == Some(CurrentTotal(p))
  {
    OrZeroExtrasValues(Field(p, CurrentL1A), Field(p, CurrentL2A), Field(p, CurrentL3A));
  }

  /** The three derived keys are set, never to null, to the spread of the
      phase currents, that spread as a percentage of the largest, and their
      sum, null and 0 counting as 0; every other key is as it was. */
  lemma ExtraFieldsMeaning(p: Dict)
    ensures ExtraFields(p).Keys == p.Keys + {ImbalanceA, ImbalancePct, TotalCurrentA}
    ensures forall k :: k in p && k != ImbalanceA && k != ImbalancePct && k != TotalCurrentA ==>
              ExtraFields(p)[k] == p[k]
    ensures ExtraFields(p)[ImbalanceA] ==
              Some(Spread(Current(p, CurrentL1A), Current(p, CurrentL2A), Current(p, CurrentL3A)))
    ensures ExtraFields(p)[ImbalancePct] ==
              Some(SpreadPct(Current(p, CurrentL1A), Current(p, CurrentL2A), Current(p, CurrentL3A)))
    ensures ExtraFields(p)[TotalCurrentA] == Some(CurrentTotal(p))
  {
    ExtraFieldsFrame(p);
    ExtraFieldsImbalance(p);
    ExtraFieldsPct(p);
    ExtraFieldsTotal(p);
  }

  /** The arithmetic reads the three currents and nothing else. */
  lemma CalculateExtrasReadsCurrents(p: Dict, q: Dict)
    requires Field(p, CurrentL1A) == Field(q, CurrentL1A)
    requires Field(p, CurrentL2A) == Field(q, CurrentL2A)
    requires Field(p, CurrentL3A) == Field(q, CurrentL3A)
    ensures CalculateExtras(p) == CalculateExtras(q)
  {
  }

  /** Writing the derived keys leaves the currents as they were. */
  lemma WithExtrasKeepsCurrents(p: Dict, e: Extras)
    ensures Field(WithExtras(p, e), CurrentL1A) == Field(p, CurrentL1A)
    ensures Field(WithExtras(p, e), CurrentL2A) == Field(p, CurrentL2A)
    ensures Field(WithExtras(p, e), CurrentL3A) == Field(p, CurrentL3A)
  {
  }

  /** Writing the same derived values twice is writing them once. */
  lemma WithExtrasTwice(p: Dict, e: Extras)
    ensures WithExtras(WithExtras(p, e), e) == WithExtras(p, e)
  {
    var q := WithExtras(p, e);
    UpdateSame(q, ImbalanceA, Some(Num(e.imbalanceA)));
    UpdateSame(q, ImbalancePct, Some(Num(e.imbalancePct)));
    UpdateSame(q, TotalCurrentA, Some(Num(e.totalCurrentA)));
  }

  lemma UpdateSame(m: Dict, k: Key, v: Option<real>)
    requires k in m && m[k] == v
    ensures m[k := v] == m
  {
  }

  /** Enriching an enriched dict changes nothing: the currents it reads are
      not among the keys it writes. */
  lemma ExtraFieldsIdempotent(p: Dict)
    ensures ExtraFields(ExtraFields(p)) == ExtraFields(p)
  {
    var e := CalculateExtras(p);
    WithExtrasKeepsCurrents(p, e);
    WithExtrasTwice(p, e);
    CalculateExtrasReadsCurrents(WithExtras(p, e), p);
  }

  // =====================================================================
  // query_series / query_latest

  /** The numeric columns of a stored row. */
  const RowKeys: set<Key> :=
    {ActivePowerW, TotalImportKwh, VoltageL1V, VoltageL2V, VoltageL3V, CurrentL1A, CurrentL2A, CurrentL3A}

  /** The columns the per-minute SELECT averages: all but `total_import_kwh`. */
  const MinuteKeys: set<Key> :=
    {ActivePowerW, VoltageL1V, VoltageL2V, VoltageL3V, CurrentL1A, CurrentL2A, CurrentL3A}

  /** One column of a stored row under its point name. */
  function RowValue(m: Measurement, k: Key): Option<real>
  {
    match k
    case ActivePowerW => m.activePowerW
    case TotalImportKwh => m.totalImportKwh
    case VoltageL1V => m.voltageL1V
    case VoltageL2V => m.voltageL2V
    case VoltageL3V => m.voltageL3V
    case CurrentL1A => m.currentL1A
    case CurrentL2A => m.currentL2A
    case CurrentL3A => m.currentL3A
    case _ => None
  }

  /** `dict(r)` of a `SELECT measured_at as ts, *` row, numeric part. */
  function RowFields(m: Measurement): (f: Dict)
    ensures f.Keys == RowKeys
  {
    map k | k in RowKeys :: RowValue(m, k)
  }

  /** A raw series point: the enriched row. */
  function SeriesPoint(r: Row): (p: Point)
    ensures p.ts == Time(r)
  {
    Point(Time(r), ExtraFields(RowFields(r.m)))
  }

  /** The values of one column over the rows of a group. */
  function KeyColumn(b: seq<Row>, k: Key): (vs: seq<Option<real>>)
    ensures |vs| == |b|
    ensures forall i :: 0 <= i < |b| ==> vs[i] == RowValue(b[i].m, k)
  {
    if b == [] then [] else [RowValue(b[0].m, k)] + KeyColumn(b[1..], k)
  }

  /** One group of the per-minute SELECT before enrichment. */
  function MinuteFields(b: seq<Row>): (f: Dict)
    ensures f.Keys == MinuteKeys
  {
    map k | k in MinuteKeys :: Avg(KeyColumn(b, k))
  }

  /** The point of one minute: the minute's start as `ts` and the enriched
      averages of its rows. */
  function MinuteSeriesPoint(b: seq<Row>, minute: nat): (p: Point)
    ensures p.ts == minute * 60
  {
    Point(minute * 60, ExtraFields(MinuteFields(b)))
  }

  /** `query_latest()`: None on an empty table, otherwise an enriched row
      with the greatest `measured_at`. */
  function QueryLatest(rows: seq<Row>): (o: Option<Point>)
    ensures o.None? <==> rows == []
    ensures o.Some? ==> exists r :: r in rows && o.value == SeriesPoint(r) &&
                                    forall x :: x in rows ==> Time(x) <= Time(r)
  {
    match Latest(rows)
    case None => None
    case Some(r) => Some(SeriesPoint(r))
  }

  // =====================================================================
  // collector_loop

  /** The `row` dict the collector builds: the newer firmware key first. */
  function CollectorRow(data: Reading, now: nat): (m: Measurement)
    ensures m.measuredAt == now
    ensures m.activePowerW == Get(data, "active_power_w")
    ensures m.totalImportKwh ==
      if Truthy(Get(data, "total_power_import_kwh")) then Get(data, "total_power_import_kwh")
      else Get(data, "total_import_kwh")
    ensures m.voltageL1V ==
      if Truthy(Get(data, "active_voltage_l1_v")) then Get(data, "active_voltage_l1_v") else Get(data, "voltage_l1_v")
    ensures m.voltageL2V ==
      if Truthy(Get(data, "active_voltage_l2_v")) then Get(data, "active_voltage_l2_v") else Get(data, "voltage_l2_v")
    ensures m.voltageL3V ==
      if Truthy(Get(data, "active_voltage_l3_v")) then Get(data, "active_voltage_l3_v") else Get(data, "voltage_l3_v")
    ensures m.currentL1A == Get(data, "active_current_l1_a")
    ensures m.currentL2A == Get(data, "active_current_l2_a")
    ensures m.currentL3A == Get(data, "active_current_l3_a")
  {
    var importKeys := ["total_power_import_kwh", "total_import_kwh"];
    var v1 := ["active_voltage_l1_v", "voltage_l1_v"];
    var v2 := ["active_voltage_l2_v", "voltage_l2_v"];
    var v3 := ["active_voltage_l3_v", "voltage_l3_v"];
    ResolvePair(data, importKeys[0], importKeys[1]);
    ResolvePair(data, v1[0], v1[1]);
    ResolvePair(data, v2[0], v2[1]);
    ResolvePair(data, v3[0], v3[1]);
    Measurement(now,
      Get(data, "active_power_w"),
      Resolve(data, importKeys),
      Resolve(data, v1),
      Resolve(data, v2),
      Resolve(data, v3),
      Get(data, "active_current_l1_a"),
      Get(data, "active_current_l2_a"),
      Get(data, "active_current_l3_a"))
  }

  /** `_calculate_extra_fields(row)`, the message broadcast after an insert. */
  function LiveMessage(m: Measurement): (p: Point)
    ensures p.ts == m.measuredAt
    ensures p.fields.Keys == RowFields(m).Keys + {ImbalanceA, ImbalancePct, TotalCurrentA}
    ensures forall k :: k in RowFields(m) && k != ImbalanceA && k != ImbalancePct && k != TotalCurrentA ==>
              p.fields[k] == RowFields(m)[k]
  {
    Point(m.measuredAt, ExtraFields(RowFields(m)))
  }

  /** Viewers are sent exactly what `query_latest` returns for the same row
      once it is stored, as long as it is the newest. */
  lemma LiveMessageIsLatestPoint(rows: seq<Row>, id: nat, m: Measurement)
    requires forall x :: x in rows ==> x.id < id && Time(x) < m.measuredAt
    ensures QueryLatest(rows + [Row(id, m)]) == Some(LiveMessage(m))
  {
    LatestIsGreatest(rows + [Row(id, m)], Row(id, m));
  }

  // =====================================================================
  // broadcast (evict the subscriber) and the WebSocket queue

  /** `queue.Queue(maxsize=100)` in `ws_route`. */
  const QueueSize: nat := 100

  /** What one `broadcast` does to one queue: `put_nowait`, which leaves a
      full queue as it is (its client is dropped instead). */
  function Offer<T>(items: seq<T>, x: T, maxsize: nat): (r: seq<T>)
    ensures r == items + [x] <==> !IsFull(items, maxsize)
    ensures r != items + [x] ==> r == items
    ensures |items| <= maxsize ==> |r| <= maxsize || maxsize == 0
  {
    if IsFull(items, maxsize) then items else items + [x]
  }

  /** `ws_route` up to its blocking read loop: a fresh queue of 100 is
      registered, and the client is first sent `query_latest()` if the
      table is not empty. */
  method WsConnect(hub: Registry<Point>, rows: seq<Row>) returns (q: MessageQueue<Point>, greeting: Option<Point>)
    requires hub.Valid()
    modifies hub
    ensures hub.Valid() && fresh(q)
    ensures q.maxsize == QueueSize && q.items == []
    ensures hub.subscribers == old(hub.subscribers) + {q}
    ensures greeting == QueryLatest(rows)
  {
    q := new MessageQueue<Point>(QueueSize);
    hub.Add(q);
    greeting := QueryLatest(rows);
  }

  /** `broadcast(msg)`: every registered queue that has room gets `msg`;
      every full one is removed from `subscribers`, and keeps what it had.
      Nothing blocks. */
  method Publish(hub: Registry<Point>, msg: Point)
    requires hub.Valid()
    modifies hub, hub.subscribers
    ensures hub.Valid()
    ensures hub.subscribers == set q | q in old(hub.subscribers) && !IsFull(old(q.items), q.maxsize)
    ensures forall q :: q in old(hub.subscribers) ==> q.items == Offer(old(q.items), msg, q.maxsize)
  {
    var pending := hub.subscribers;
    while pending != {}
      invariant pending <= old(hub.subscribers)
      invariant hub.Valid()
      invariant forall q :: q in pending ==> q.Valid() && q.items == old(q.items)
      invariant hub.subscribers ==
                  set q | q in old(hub.subscribers) && (q in pending || !IsFull(old(q.items), q.maxsize))
      invariant forall q :: q in old(hub.subscribers) && q !in pending ==>
                  q.items == Offer(old(q.items), msg, q.maxsize)
      decreases pending
    {
      var q :| q in pending;
      var ok := q.PutNowait(msg);
      if !ok {
        hub.Discard(q);
      }
      pending := pending - {q};
    }
  }

  /** A queue's contents after the messages `msgs` were broadcast, in
      order: it takes messages while it has room, and the first message
      that finds it full evicts it, after which it gets nothing more. */
  function Deliver<T>(items: seq<T>, msgs: seq<T>, maxsize: nat): (r: seq<T>)
    ensures |items| <= |r| <= |items| + |msgs|
    ensures r == items + msgs[..|r| - |items|]
    decreases |msgs|
  {
    if msgs == [] || IsFull(items, maxsize) then items
    else
      var r := Deliver(items + [msgs[0]], msgs[1..], maxsize);
      assert msgs[..|r| - |items|] == [msgs[0]] + msgs[1..][..|r| - |items| - 1];
      r
  }

  /** The queue is still registered after `msgs`: no message found it full. */
  predicate Survives<T>(items: seq<T>, msgs: seq<T>, maxsize: nat)
    ensures Survives(items, msgs, maxsize) <==> |Deliver(items, msgs, maxsize)| == |items| + |msgs|
    decreases |msgs|
  {
    msgs == [] || (!IsFull(items, maxsize) && Survives(items + [msgs[0]], msgs[1..], maxsize))
  }

  /** Broadcasting `a` and then `b` is broadcasting `a + b`. */
  lemma {:induction false} DeliverAppend<T>(items: seq<T>, a: seq<T>, b: seq<T>, maxsize: nat)
    ensures Deliver(items, a + b, maxsize) == Deliver(Deliver(items, a, maxsize), b, maxsize)
    ensures Survives(items, a + b, maxsize) ==
              (Survives(items, a, maxsize) && Survives(Deliver(items, a, maxsize), b, maxsize))
    decreases |a|
  {
    if a == [] {
      assert a + b == b;
    } else if IsFull(items, maxsize) {
      assert a + b != [];
      DeliverToFull(items, b, maxsize);
    } else {
      assert (a + b)[0] == a[0] && (a + b)[1..] == a[1..] + b;
      DeliverAppend(items + [a[0]], a[1..], b, maxsize);
    }
  }

  /** A full queue gets nothing more, and survives only if nothing comes. */
  lemma DeliverToFull<T>(items: seq<T>, msgs: seq<T>, maxsize: nat)
    requires IsFull(items, maxsize)
    ensures Deliver(items, msgs, maxsize) == items
    ensures Survives(items, msgs, maxsize) <==> msgs == []
  {
  }

  /** An evicted queue was full when it was dropped. */
  lemma {:induction false} EvictedWasFull<T>(items: seq<T>, msgs: seq<T>, maxsize: nat)
    requires !Survives(items, msgs, maxsize)
    ensures IsFull(Deliver(items, msgs, maxsize), maxsize)
    decreases |msgs|
  {
    if !IsFull(items, maxsize) {
      EvictedWasFull(items + [msgs[0]], msgs[1..], maxsize);
    }
  }

  /** A client that reads nothing keeps the OLDEST messages that fit, and
      stays registered exactly when everything fits. */
  lemma {:induction false} EvictKeepsOldest<T>(items: seq<T>, msgs: seq<T>, maxsize: nat)
    requires 0 < maxsize && |items| <= maxsize
    ensures var room := maxsize - |items|;
            Deliver(items, msgs, maxsize) == items + msgs[..if |msgs| <= room then |msgs| else room]
    ensures Survives(items, msgs, maxsize) <==> |items| + |msgs| <= maxsize
    decreases |msgs|
  {
    if msgs != [] && !IsFull(items, maxsize) {
      EvictKeepsOldest(items + [msgs[0]], msgs[1..], maxsize);
      var room := maxsize - |items|;
      var n := if |msgs| <= room then |msgs| else room;
      assert items + [msgs[0]] + msgs[1..][..n - 1] == items + msgs[..n];
    }
  }

  /** One more pass, seen from one queue: a queue still registered takes
      the pass's messages as `Deliver` says, one already evicted is left as
      it is; either way it now holds what broadcasting everything so far
      gives, and it is registered exactly when it survived all of it. */
  lemma QueueStep<T>(start: seq<T>, mid: seq<T>, now: seq<T>, a: seq<T>, b: seq<T>, maxsize: nat,
                     wasIn: bool, isIn: bool)
    requires mid == Deliver(start, a, maxsize) && (wasIn <==> Survives(start, a, maxsize))
    requires wasIn ==> now == Deliver(mid, b, maxsize) && (isIn <==> Survives(mid, b, maxsize))
    requires !wasIn ==> now == mid && !isIn
    ensures now == Deliver(start, a + b, maxsize)
    ensures isIn <==> Survives(start, a + b, maxsize)
  {
    DeliverAppend(start, a, b, maxsize);
    if !wasIn {
      EvictedWasFull(start, a, maxsize);
      DeliverToFull(mid, b, maxsize);
    }
  }

  /** QueueStep for every queue of `subs0` at once, over snapshots of the
      queues' contents: `mid` after the earlier passes, `now` after one more. */
  lemma QueuesStep<T>(subs0: set<MessageQueue<T>>, items0: map<MessageQueue<T>, seq<T>>,
                      mid: map<MessageQueue<T>, seq<T>>, now: map<MessageQueue<T>, seq<T>>,
                      subsMid: set<MessageQueue<T>>, subsNow: set<MessageQueue<T>>, a: seq<T>, b: seq<T>)
    requires subs0 <= items0.Keys && subs0 <= mid.Keys && subs0 <= now.Keys
    requires forall q :: q in subs0 ==>
               mid[q] == Deliver(items0[q], a, q.maxsize) && (q in subsMid <==> Survives(items0[q], a, q.maxsize))
    requires forall q :: q in subs0 && q in subsMid ==>
               now[q] == Deliver(mid[q], b, q.maxsize) && (q in subsNow <==> Survives(mid[q], b, q.maxsize))
    requires forall q :: q in subs0 && q !in subsMid ==> now[q] == mid[q] && q !in subsNow
    ensures forall q :: q in subs0 ==>
              now[q] == Deliver(items0[q], a + b, q.maxsize) && (q in subsNow <==> Survives(items0[q], a + b, q.maxsize))
  {
    forall q | q in subs0
      ensures now[q] == Deliver(items0[q], a + b, q.maxsize)
      ensures q in subsNow <==> Survives(items0[q], a + b, q.maxsize)
    {
      QueueStep(items0[q], mid[q], now[q], a, b, q.maxsize, q in subsMid, q in subsNow);
    }
  }

  /** An unbounded queue (`maxsize` 0) gets everything and is never evicted. */
  lemma {:induction false} UnboundedGetsAll<T>(items: seq<T>, msgs: seq<T>)
    ensures Deliver(items, msgs, 0) == items + msgs
    ensures Survives(items, msgs, 0)
    decreases |msgs|
  {
    if msgs != [] {
      UnboundedGetsAll(items + [msgs[0]], msgs[1..]);
      assert items + [msgs[0]] + msgs[1..] == items + msgs;
    }
  }

  // =====================================================================
  // The cycle itself

  /** One pass of the `while True` body: fetch (`requests.get(...).json()`,
      no status check), build the row (`build`), insert it, broadcast the
      message `live` makes of it. An exception before the broadcast ends
      the pass with nothing stored and nothing sent. The loop passes
      LiveMessage. A queue of `others` that was no longer registered keeps
      its contents. */
  method CollectorCycle(db: Db, hub: Registry<Point>, c: Cycle, build: (Reading, nat) -> Measurement,
                        live: Measurement -> Point, ghost others: set<MessageQueue<Point>>)
    returns (sent: seq<Point>)
    requires db.Valid() && hub.Valid()
    modifies db, hub, hub.subscribers
    ensures db.Valid() && hub.Valid()
    ensures sent == NewMessages(CycleRow(c, false, build), live)
    ensures forall q :: q in others && q !in old(hub.subscribers) ==> q.items == old(q.items)
    ensures db.rows == old(db.rows) + NewRows(old(db.nextId), CycleRow(c, false, build))
    ensures hub.subscribers <= old(hub.subscribers)
    ensures forall q :: q in old(hub.subscribers) ==>
              q.items == Deliver(old(q.items), sent, q.maxsize) &&
              (q in hub.subscribers <==> Survives(old(q.items), sent, q.maxsize))
  {
    sent := [];
    var data := Fetched(c.fetch, false);
    if data.Some? {
      var row := build(data.value, c.now);
      var ok := db.Insert(row, c.insertFails);
      if ok {
        var latest := live(row);
        Publish(hub, latest);
        sent := [latest];
      }
    }
  }

  /** One pass of `collector_loop`, against the run so far: given that the
      table holds `rows0` followed by the readings of the first `i` passes,
      that `sentBefore` went out for them, and that each queue of `subs0`
      holds and is registered as delivering `sentBefore` to its contents
      `items0[q]` dictates, the same holds after pass `i`. */
  method CollectorStep(db: Db, hub: Registry<Point>, cycles: seq<Cycle>, i: nat,
                       build: (Reading, nat) -> Measurement, sentBefore: seq<Point>,
                       ghost rows0: seq<Row>, ghost subs0: set<MessageQueue<Point>>,
                       ghost items0: map<MessageQueue<Point>, seq<Point>>)
    returns (sent: seq<Point>)
    requires i < |cycles|
    requires db.Valid() && hub.Valid()
    requires |rows0| <= |db.rows| && db.rows[..|rows0|] == rows0
    requires Measurements(db.rows) == Measurements(rows0) + Accepted(cycles[..i], false, build)
    requires sentBefore == LiveMessages(Accepted(cycles[..i], false, build), LiveMessage)
    requires hub.subscribers <= subs0 && subs0 <= items0.Keys
    requires forall q :: q in subs0 ==>
               q.items == Deliver(items0[q], sentBefore, q.maxsize) &&
               (q in hub.subscribers <==> Survives(items0[q], sentBefore, q.maxsize))
    modifies db, hub, hub.subscribers
    ensures db.Valid() && hub.Valid()
    ensures |rows0| <= |db.rows| && db.rows[..|rows0|] == rows0
    ensures Measurements(db.rows) == Measurements(rows0) + Accepted(cycles[..i + 1], false, build)
    ensures sent == LiveMessages(Accepted(cycles[..i + 1], false, build), LiveMessage)
    ensures hub.subscribers <= subs0
    ensures forall q :: q in subs0 ==>
              q.items == Deliver(items0[q], sent, q.maxsize) && (q in hub.subscribers <==> Survives(items0[q], sent, q.maxsize))
  {
    ghost var before := db.rows;
    ghost var id := db.nextId;
    ghost var subsBefore := hub.subscribers;
    ghost var mid := map q | q in subs0 :: q.items;
    var s := CollectorCycle(db, hub, cycles[i], build, LiveMessage, subs0);
    sent := sentBefore + s;
    ghost var now := map q | q in subs0 :: q.items;
    QueuesStep(subs0, items0, mid, now, subsBefore, hub.subscribers, sentBefore, s);
    PassStep(rows0, before, db.rows, id, cycles, i, false, build, LiveMessage, sentBefore, s);
  }

  /** `collector_loop` over a finite run of passes: the table grows by
      exactly the rows of the passes that got through, one message goes out
      for each, every client still registered has received all of them in
      order, and a client is dropped exactly when a message found its queue
      full. */
  method CollectorLoop(db: Db, hub: Registry<Point>, cycles: seq<Cycle>, build: (Reading, nat) -> Measurement)
    returns (sent: seq<Point>)
    requires db.Valid() && hub.Valid()
    modifies db, hub, hub.subscribers
    ensures db.Valid() && hub.Valid()
    ensures |old(db.rows)| <= |db.rows| && db.rows[..|old(db.rows)|] == old(db.rows)
    ensures Measurements(db.rows) == Measurements(old(db.rows)) + Accepted(cycles, false, build)
    ensures sent == LiveMessages(Accepted(cycles, false, build), LiveMessage)
    ensures hub.subscribers <= old(hub.subscribers)
    ensures forall q :: q in old(hub.subscribers) ==>
              q.items == Deliver(old(q.items), sent, q.maxsize) &&
              (q in hub.subscribers <==> Survives(old(q.items), sent, q.maxsize))
  {
    ghost var rows0 := db.rows;
    ghost var subs0 := hub.subscribers;
    ghost var items0 := map q | q in subs0 :: q.items;
    sent := [];
    var i := 0;
    assert cycles[..i] == [];
    assert Accepted(cycles[..i], false, build) == [];
    assert LiveMessages(Accepted(cycles[..i], false, build), LiveMessage) == [];
    assert Measurements(db.rows) == Measurements(rows0) + [];
    while i < |cycles|
      invariant 0 <= i <= |cycles|
      invariant db.Valid() && hub.Valid()
      invariant |rows0| <= |db.rows| && db.rows[..|rows0|] == rows0
      invariant Measurements(db.rows) == Measurements(rows0) + Accepted(cycles[..i], false, build)
      invariant sent == LiveMessages(Accepted(cycles[..i], false, build), LiveMessage)
      invariant hub.subscribers <= subs0
      invariant forall q :: q in subs0 ==>
                  q.items == Deliver(items0[q], sent, q.maxsize) && (q in hub.subscribers <==> Survives(items0[q], sent, q.maxsize))
    {
      sent := CollectorStep(db, hub, cycles, i, build, sent, rows0, subs0, items0);
      assert Measurements(db.rows) == Measurements(rows0) + Accepted(cycles[..i + 1], false, build);
      assert sent == LiveMessages(Accepted(cycles[..i + 1], false, build), LiveMessage);
      i := i + 1;
      assert Measurements(db.rows) == Measurements(rows0) + Accepted(cycles[..i], false, build);
      assert sent == LiveMessages(Accepted(cycles[..i], false, build), LiveMessage);
    }
    assert cycles[..|cycles|] == cycles;
  }

  // =====================================================================
  // api_series

  /** The range of Python's `datetime`, 0001-01-01T00:00:00 to
      9999-12-31T23:59:59 UTC, in seconds since the epoch. `now -
      timedelta(hours=h)` raises OverflowError when the result falls outside
      it (and so does `timedelta` itself, for an `h` far larger still). */
  const MinDatetime: int := -62135596800
  const MaxDatetime: int := 253402300799

  predicate InDatetimeRange(t: int)
  {
    MinDatetime <= t <= MaxDatetime
  }

  /** `request.args.get("hours", 1, type=int)`: 1 when missing or not an
      integer, otherwise the integer as given; nothing is clamped. */
  function SeriesHours(arg: HoursArg): (h: int)
    ensures arg.Given? ==> h == arg.n
    ensures !arg.Given? ==> h == 1
  {
    if arg.Given? then arg.n else 1
  }

  /** The start of the window `api_series` asks for. */
  function SeriesStart(arg: HoursArg, now: nat): int
  {
    now - SeriesHours(arg) * 3600
  }

  /** `api_series`: `query_series` raw up to 6 hours, per minute beyond.
      Nothing bounds `hours`, so the start `now - timedelta(hours=h)` can
      leave `datetime`'s range; the OverflowError that raises is Flask's
      HTTP 500, None here. */
  function ApiSeries(rows: seq<Row>, arg: HoursArg, now: nat): (reply: Option<seq<Point>>)
    ensures reply.None? <==> !InDatetimeRange(SeriesStart(arg, now))
    ensures var w := Window(rows, SeriesStart(arg, now));
            reply.Some? && SeriesHours(arg) <= 6 ==>
              exists s :: SortedByTime(s) && multiset(s) == multiset(w) && reply.value == MapPoints(s, SeriesPoint)
    ensures var w := Window(rows, SeriesStart(arg, now));
            reply.Some? && SeriesHours(arg) > 6 ==>
              exists ks :: StrictlyIncreasing(ks) && (set m | m in ks) == MinutesOf(w) &&
                           reply.value == MinutePoints(w, ks, MinuteSeriesPoint)
  {
    if !InDatetimeRange(SeriesStart(arg, now)) then None
    else if SeriesHours(arg) > 6 then Some(MinuteSeriesOf(rows, SeriesStart(arg, now), MinuteSeriesPoint))
    else Some(RawSeriesOf(rows, SeriesStart(arg, now), SeriesPoint))
  }

  /** When the window's start is a valid `datetime`, the series covers
      exactly that window: up to 6 hours every row in it comes back as its
      own point and nothing older does; beyond that every minute holding
      such a row comes back. */
  lemma ApiSeriesWindow(rows: seq<Row>, arg: HoursArg, now: nat)
    ensures var h := SeriesHours(arg);
            ApiSeries(rows, arg, now).Some? && h <= 6 ==>
              (forall r :: r in rows && Time(r) >= now - h * 3600 ==> SeriesPoint(r) in ApiSeries(rows, arg, now).value) &&
              (forall p :: p in ApiSeries(rows, arg, now).value ==> p.ts >= now - h * 3600)
    ensures var h := SeriesHours(arg);
            ApiSeries(rows, arg, now).Some? && h > 6 ==>
              forall r :: r in rows && Time(r) >= now - h * 3600 ==>
                exists p :: p in ApiSeries(rows, arg, now).value && p.ts == Minute(r) * 60
  {
    var start := SeriesStart(arg, now);
    if !InDatetimeRange(start) {
    } else if SeriesHours(arg) <= 6 {
      var ps := ApiSeries(rows, arg, now).value;
      forall r | r in rows && Time(r) >= start ensures SeriesPoint(r) in ps {
        RawSeriesComplete(rows, start, SeriesPoint, r);
      }
      RawSeriesSound(rows, start, SeriesPoint);
    } else {
      var ps := ApiSeries(rows, arg, now).value;
      forall r | r in rows && Time(r) >= start
        ensures exists p :: p in ps && p.ts == Minute(r) * 60
      {
        MinuteSeriesComplete(rows, start, MinuteSeriesPoint, r);
        var p := MinuteSeriesPoint(Bucket(Window(rows, start), Minute(r)), Minute(r));
        assert p.ts == Minute(r) * 60;
      }
    }
  }

  /** An `hours` far outside any sane window is a server error at every
      time `datetime.now` can return: a window reaching back before year 1,
      or (negative `hours`) starting after year 9999. */
  lemma ApiSeriesOverflow(rows: seq<Row>, now: nat)
    requires now <= MaxDatetime
    ensures ApiSeries(rows, Given(100000000), now) == None
    ensures ApiSeries(rows, Given(-100000000), now) == None
  {
  }

  // =====================================================================
  // api_export_csv

  /** The query parameters of `api_export_csv`. */
  datatype ExportArgs = ExportArgs(hours: HoursArg, sep: Option<string>, decimal: Option<string>)

  /** `request.args.get("hours", 24, type=int)`. */
  function ExportHours(arg: HoursArg): (h: int)
    ensures arg.Given? ==> h == arg.n
    ensures !arg.Given? ==> h == 24
  {
    if arg.Given? then arg.n else 24
  }

  /** `request.args.get("sep", ";")`. */
  function Separator(a: ExportArgs): string
  {
    if a.sep.Some? then a.sep.value else ";"
  }

  /** `request.args.get("decimal") == "comma"`. */
  predicate DecimalComma(a: ExportArgs)
  {
    a.decimal == Some("comma")
  }

  const Header: seq<string> :=
    ["Tid", "Effekt_W", "L1_A", "L2_A", "L3_A", "L1_V", "L2_V", "L3_V", "Obalans_A", "Obalans_Pct"]

  /** A nullable REAL column as Python sees it: None or a float. */
  function Nullable(v: Option<real>): (x: PyValue)
    ensures x == PyNone <==> v.None?
    ensures v.Some? ==> x == PyFloat(v.value)
  {
    if v.Some? then PyFloat(v.value) else PyNone
  }

  /** The `vals` list of one exported row; `timeText` is the stored
      `measured_at` text. */
  function CsvValues(r: Row, timeText: nat -> string): (vs: seq<PyValue>)
    ensures |vs| == |Header|
    ensures vs[0] == PyStr(timeText(Time(r)))
  {
    var e := CalculateExtras(RowFields(r.m));
    [PyStr(timeText(Time(r))), Nullable(r.m.activePowerW),
     Nullable(r.m.currentL1A), Nullable(r.m.currentL2A), Nullable(r.m.currentL3A),
     Nullable(r.m.voltageL1V), Nullable(r.m.voltageL2V), Nullable(r.m.voltageL3V),
     e.imbalanceA, e.imbalancePct]
  }

  /** One cell: `str(v)`, with '.' turned into ',' only for floats and only
      when a decimal comma was asked for. */
  function Cell(v: PyValue, decimalComma: bool, floatText: real -> string): string
  {
    if decimalComma && v.PyFloat? then Replace(Str(v, floatText), '.', ',') else Str(v, floatText)
  }

  function Cells(vs: seq<PyValue>, decimalComma: bool, floatText: real -> string): (cs: seq<string>)
    ensures |cs| == |vs|
    ensures forall i :: 0 <= i < |vs| ==> cs[i] == Cell(vs[i], decimalComma, floatText)
  {
    if vs == [] then [] else [Cell(vs[0], decimalComma, floatText)] + Cells(vs[1..], decimalComma, floatText)
  }

  /** The decimal comma changes float cells only, and leaves no '.' in them. */
  lemma DecimalCommaOnlyFloats(vs: seq<PyValue>, floatText: real -> string)
    ensures forall i :: 0 <= i < |vs| && !vs[i].PyFloat? ==>
              Cells(vs, true, floatText)[i] == Cells(vs, false, floatText)[i]
    ensures forall i :: 0 <= i < |vs| && vs[i].PyFloat? ==>
              '.' !in Cells(vs, true, floatText)[i] &&
              |Cells(vs, true, floatText)[i]| == |Cells(vs, false, floatText)[i]|
  {
    forall i | 0 <= i < |vs| && vs[i].PyFloat? ensures '.' !in Cells(vs, true, floatText)[i] {
      ReplaceRemoves(Str(vs[i], floatText), '.', ',');
    }
  }

  /** The cells of one exported row. */
  function RowCells(r: Row, a: ExportArgs, timeText: nat -> string, floatText: real -> string): (cs: seq<string>)
    ensures |cs| == |Header|
  {
    Cells(CsvValues(r, timeText), DecimalComma(a), floatText)
  }

  /** One data line of the export. */
  function CsvLine(r: Row, a: ExportArgs, timeText: nat -> string, floatText: real -> string): string
  {
    Join(RowCells(r, a, timeText, floatText), Separator(a)) + "\n"
  }

  function CsvLines(s: seq<Row>, a: ExportArgs, timeText: nat -> string, floatText: real -> string): (ls: seq<string>)
    ensures |ls| == |s|
    ensures forall i :: 0 <= i < |s| ==> ls[i] == CsvLine(s[i], a, timeText, floatText)
  {
    if s == [] then [] else [CsvLine(s[0], a, timeText, floatText)] + CsvLines(s[1..], a, timeText, floatText)
  }

  /** The start of the export window. */
  function ExportStart(a: ExportArgs, now: nat): int
  {
    now - ExportHours(a.hours) * 3600
  }

  /** `api_export_csv`: the header line, then one line per RAW row of the
      window (never per minute), in time order. The rows are read before
      the response starts, so a start outside `datetime`'s range is an
      OverflowError, an HTTP 500 (None), as in `api_series`. */
  function ExportCsv(rows: seq<Row>, a: ExportArgs, now: nat, timeText: nat -> string, floatText: real -> string)
    : (reply: Option<seq<string>>)
    ensures reply.None? <==> !InDatetimeRange(ExportStart(a, now))
    ensures reply.Some? ==> |reply.value| == 1 + |Window(rows, ExportStart(a, now))|
    ensures reply.Some? ==> reply.value[0] == Join(Header, Separator(a)) + "\n"
    ensures reply.Some? ==>
              exists s :: SortedByTime(s) && multiset(s) == multiset(Window(rows, ExportStart(a, now))) &&
                          reply.value[1..] == CsvLines(s, a, timeText, floatText)
  {
    if !InDatetimeRange(ExportStart(a, now)) then None
    else
      var s := RawSeries(rows, ExportStart(a, now));
      assert |multiset(s)| == |multiset(Window(rows, ExportStart(a, now)))|;
      var lines := [Join(Header, Separator(a)) + "\n"] + CsvLines(s, a, timeText, floatText);
      assert lines[1..] == CsvLines(s, a, timeText, floatText);
      Some(lines)
  }

  /** With a one-character separator that occurs in no cell, the header and
      every data line (without its newline) split back into exactly ten
      fields, the cells themselves. */
  lemma TenFields(r: Row, a: ExportArgs, timeText: nat -> string, floatText: real -> string)
    requires |Separator(a)| == 1
    requires forall k :: 0 <= k < |Header| ==> Separator(a)[0] !in Header[k]
    requires forall k :: 0 <= k < |Header| ==> Separator(a)[0] !in RowCells(r, a, timeText, floatText)[k]
    ensures Split(Join(Header, Separator(a)), Separator(a)[0]) == Header && |Header| == 10
    ensures Split(Join(RowCells(r, a, timeText, floatText), Separator(a)), Separator(a)[0]) ==
              RowCells(r, a, timeText, floatText)
    ensures CsvLine(r, a, timeText, floatText) == Join(RowCells(r, a, timeText, floatText), Separator(a)) + "\n"
  {
    var c := Separator(a)[0];
    assert Separator(a) == [c];
    assert |Header| == 10;
    JoinSplit(Header, c);
    JoinSplit(RowCells(r, a, timeText, floatText), c);
  }

  /** Without a non-zero phase current the spread is the int 0. */
  lemma RowSpreadIntZero(m: Measurement)
    requires !Truthy(m.currentL1A) && !Truthy(m.currentL2A) && !Truthy(m.currentL3A)
    ensures CalculateExtras(RowFields(m)).imbalanceA == PyInt(0)
  {
    var f := RowFields(m);
    assert Field(f, CurrentL1A) == m.currentL1A;
    assert Field(f, CurrentL2A) == m.currentL2A;
    assert Field(f, CurrentL3A) == m.currentL3A;
    OrZeroExtrasTypes(m.currentL1A, m.currentL2A, m.currentL3A);
  }

  /** The int 0 is written "0", with or without the decimal comma. */
  lemma IntZeroCell(decimalComma: bool, floatText: real -> string)
    ensures Cell(PyInt(0), decimalComma, floatText) == "0"
  {
    assert IntText(0) == [DigitChar(0)];
  }

  /** A row with no current at all exports its imbalance as the int 0
      ("0"), not as a float. */
  lemma NoCurrentExportsIntZero(r: Row, a: ExportArgs, timeText: nat -> string, floatText: real -> string)
    requires !Truthy(r.m.currentL1A) && !Truthy(r.m.currentL2A) && !Truthy(r.m.currentL3A)
    ensures RowCells(r, a, timeText, floatText)[8] == "0"
  {
    RowSpreadIntZero(r.m);
    assert CsvValues(r, timeText)[8] == PyInt(0);
    IntZeroCell(DecimalComma(a), floatText);
  }
}
