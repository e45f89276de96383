/** p1-server-old.py: the first collector. Its enrichment nulls the
    imbalance fields when a phase is missing, its latest-row lookup breaks
    timestamp ties by id, its broadcast drops a full queue's oldest message,
    and its series endpoint clamps the window to 31 days. */
module ServerOld {
  import opened Meter
  import opened Points
  import opened Store
  import opened Broadcast
  import opened Collector
  import opened Series

  // =====================================================================
  // _row_to_point_dict

  /** All three phase currents are present (`all(v is not None ...)`). */
  predicate AllPhases(p: Dict)
  {
    Field(p, CurrentL1A).Some? && Field(p, CurrentL2A).Some? && Field(p, CurrentL3A).Some?
  }

  /** The two derived fields `_row_to_point_dict` adds, and that the
      collector adds to its live message by the same rule: both null unless
      all three phase currents are present. */
  function WithImbalance(f: Dict): (g: Dict)
    ensures g.Keys == f.Keys + {ImbalanceA, ImbalancePct}
    ensures forall k :: k in f && k != ImbalanceA && k != ImbalancePct ==> g[k] == f[k]
    ensures AllPhases(f) ==>
      var a, b, c := Field(f, CurrentL1A).value, Field(f, CurrentL2A).value, Field(f, CurrentL3A).value;
      g[ImbalanceA] == Some(Max3(a, b, c) - Min3(a, b, c)) && g[ImbalanceA].value >= 0.0 &&
      g[ImbalancePct] == Some(if Max3(a, b, c) > 0.0 then g[ImbalanceA].value / Max3(a, b, c) * 100.0 else 0.0)
    ensures !AllPhases(f) ==> g[ImbalanceA] == None && g[ImbalancePct] == None
  {
    if AllPhases(f) then
      var a, b, c := Field(f, CurrentL1A).value, Field(f, CurrentL2A).value, Field(f, CurrentL3A).value;
      SpreadZeroIffBalanced(a, b, c);
      f[ImbalanceA := Some(Spread(a, b, c))][ImbalancePct := Some(SpreadPct(a, b, c))]
    else
      f[ImbalanceA := None][ImbalancePct := None]
  }

  /** `_row_to_point_dict`: a query row as a point, with its imbalance
      fields. The `float()` conversion it also applies is the identity on
      reals. */
  function RowToPointDict(p: Point): (q: Point)
    ensures q.ts == p.ts
  {
    Point(p.ts, WithImbalance(p.fields))
  }

  // =====================================================================
  // query_series / query_latest

  /** The numeric keys of both old series queries. */
  const SeriesKeys: set<Key> :=
    {ActivePowerW, TotalCurrentA, CurrentL1A, CurrentL2A, CurrentL3A, VoltageL1V, VoltageL2V, VoltageL3V}

  /** One selected column of the raw SELECT; `total_current_a` is
      `COALESCE(l1,0) + COALESCE(l2,0) + COALESCE(l3,0)`. */
  function RawValue(m: Measurement, k: Key): Option<real>
  {
    match k
    case ActivePowerW => m.activePowerW
    case TotalCurrentA => Some(CoalescedCurrent(m))
    case CurrentL1A => m.currentL1A
    case CurrentL2A => m.currentL2A
    case CurrentL3A => m.currentL3A
    case VoltageL1V => m.voltageL1V
    case VoltageL2V => m.voltageL2V
    case VoltageL3V => m.voltageL3V
    case _ => None
  }

  /** One row of the raw SELECT: `ts` and the selected columns. */
  function RawPoint(r: Row): (p: Point)
    ensures p.ts == Time(r) && p.fields.Keys == SeriesKeys
  {
    Point(Time(r), map k | k in SeriesKeys :: RawValue(r.m, k))
  }

  /** A raw series point as the endpoint returns it. */
  function SeriesPoint(r: Row): (p: Point)
    ensures p.ts == Time(r)
  {
    RowToPointDict(RawPoint(r))
  }

  /** The values of one raw column over the rows of a group. */
  function KeyColumn(b: seq<Row>, k: Key): (vs: seq<Option<real>>)
    ensures |vs| == |b|
    ensures forall i :: 0 <= i < |b| ==> vs[i] == RawValue(b[i].m, k)
  {
    if b == [] then [] else [RawValue(b[0].m, k)] + KeyColumn(b[1..], k)
  }

  /** One group of the per-minute SELECT: the minute's start as `ts` and
      the AVG of every selected column over the group, the total current
      being `AVG(COALESCE(l1,0) + COALESCE(l2,0) + COALESCE(l3,0))`. */
  function MinutePoint(b: seq<Row>, minute: nat): (p: Point)
    ensures p.ts == minute * 60 && p.fields.Keys == SeriesKeys
  {
    Point(minute * 60, map k | k in SeriesKeys :: Avg(KeyColumn(b, k)))
  }

  /** The point of one minute as the endpoint returns it. */
  function MinuteSeriesPoint(b: seq<Row>, minute: nat): (p: Point)
    ensures p.ts == minute * 60
  {
    RowToPointDict(MinutePoint(b, minute))
  }

  /** A minute holding exactly one row (one reading per minute) yields a
      point with that row's own values; only `ts` is cut to the minute. */
  lemma OneRowMinuteIsThatRow(r: Row)
    ensures MinutePoint([r], Minute(r)).fields.Keys == RawPoint(r).fields.Keys
    ensures forall k :: k in SeriesKeys ==> MinutePoint([r], Minute(r)).fields[k] == RawPoint(r).fields[k]
  {
    forall k | k in SeriesKeys ensures Avg(KeyColumn([r], k)) == RawValue(r.m, k) {
      assert KeyColumn([r], k) == [RawValue(r.m, k)];
      AvgOfOne(RawValue(r.m, k));
    }
  }

  /** `query_latest()`: None on an empty table, otherwise the row that is
      last in (measured_at, id) order, as a point. */
  function QueryLatest(rows: seq<Row>): (o: Option<Point>)
    ensures o.None? <==> rows == []
    ensures o.Some? ==> exists r :: r in rows && o.value == SeriesPoint(r) &&
                                    forall x :: x in rows ==> NotAfter(x, r)
  {
    match Latest(rows)
    case None => None
    case Some(r) => Some(SeriesPoint(r))
  }

  // =====================================================================
  // collector_loop

  const ImportKeys := ["total_power_import_kwh", "total_import_kwh", "total_import_t1_kwh"]
  const VoltageL1Keys := ["voltage_l1_v", "active_voltage_l1_v"]
  const VoltageL2Keys := ["voltage_l2_v", "active_voltage_l2_v"]
  const VoltageL3Keys := ["voltage_l3_v", "active_voltage_l3_v"]

  /** The `row` dict the collector builds from one meter snapshot. */
  function CollectorRow(data: Reading, now: nat): (m: Measurement)
    ensures m.measuredAt == now
    ensures m.activePowerW == Get(data, "active_power_w")
    ensures m.totalImportKwh ==
      if Truthy(Get(data, "total_power_import_kwh")) then Get(data, "total_power_import_kwh")
      else if Truthy(Get(data, "total_import_kwh")) then Get(data, "total_import_kwh")
      else Get(data, "total_import_t1_kwh")
    ensures m.voltageL1V ==
      if Truthy(Get(data, "voltage_l1_v")) then Get(data, "voltage_l1_v") else Get(data, "active_voltage_l1_v")
    ensures m.voltageL2V ==
      if Truthy(Get(data, "voltage_l2_v")) then Get(data, "voltage_l2_v") else Get(data, "active_voltage_l2_v")
    ensures m.voltageL3V ==
      if Truthy(Get(data, "voltage_l3_v")) then Get(data, "voltage_l3_v") else Get(data, "active_voltage_l3_v")
    ensures m.currentL1A == Get(data, "active_current_l1_a")
    ensures m.currentL2A == Get(data, "active_current_l2_a")
    ensures m.currentL3A == Get(data, "active_current_l3_a")
  {
    ResolveTriple(data, ImportKeys[0], ImportKeys[1], ImportKeys[2]);
    ResolvePair(data, VoltageL1Keys[0], VoltageL1Keys[1]);
    ResolvePair(data, VoltageL2Keys[0], VoltageL2Keys[1]);
    ResolvePair(data, VoltageL3Keys[0], VoltageL3Keys[1]);
    Measurement(now,
      Get(data, "active_power_w"),
      Resolve(data, ImportKeys),
      Resolve(data, VoltageL1Keys),
      Resolve(data, VoltageL2Keys),
      Resolve(data, VoltageL3Keys),
      Get(data, "active_current_l1_a"),
      Get(data, "active_current_l2_a"),
      Get(data, "active_current_l3_a"))
  }

  /** The `latest` message broadcast after an insert. Its total current
      sums only the currents that are numbers. */
  function LiveMessage(m: Measurement): (p: Point)
    ensures p.ts == m.measuredAt
    ensures p.fields.Keys == SeriesKeys + {ImbalanceA, ImbalancePct}
    ensures p.fields[CurrentL1A] == m.currentL1A && p.fields[CurrentL2A] == m.currentL2A &&
            p.fields[CurrentL3A] == m.currentL3A
    ensures p.fields[TotalCurrentA] == Some(CoalescedCurrent(m))
    ensures p.fields[ImbalanceA].None? <==> m.currentL1A.None? || m.currentL2A.None? || m.currentL3A.None?
  {
    SumOfThree(m);
    Point(m.measuredAt, WithImbalance(LiveFields(m)))
  }

  /** The message before its imbalance fields are added. */
  function LiveFields(m: Measurement): (f: Dict)
    ensures f.Keys == SeriesKeys
  {
    map k | k in SeriesKeys :: LiveValue(m, k)
  }

  /** One entry of the `latest` dict literal. */
  function LiveValue(m: Measurement, k: Key): Option<real>
  {
    match k
    case ActivePowerW => m.activePowerW
    case CurrentL1A => m.currentL1A
    case CurrentL2A => m.currentL2A
    case CurrentL3A => m.currentL3A
    case TotalCurrentA => Some(SumOfNumbers([m.currentL1A, m.currentL2A, m.currentL3A]))
    case VoltageL1V => m.voltageL1V
    case VoltageL2V => m.voltageL2V
    case VoltageL3V => m.voltageL3V
    case _ => None
  }

  /** What viewers receive live is exactly what a later `query_latest`
      returns for the same row, as long as that row is the newest. */
  lemma LiveMessageIsLatestPoint(rows: seq<Row>, id: nat, m: Measurement)
    requires forall x :: x in rows ==> x.id < id && Time(x) <= m.measuredAt
    ensures QueryLatest(rows + [Row(id, m)]) == Some(LiveMessage(m))
  {
    var r := Row(id, m);
    LatestIsGreatest(rows + [r], r);
    LiveFieldsAreRawFields(r);
  }

  lemma LiveFieldsAreRawFields(r: Row)
    ensures RawPoint(r).fields == LiveFields(r.m)
  {
    forall k | k in SeriesKeys ensures RawValue(r.m, k) == LiveValue(r.m, k) {
      if k == TotalCurrentA {
        SumOfThree(r.m);
      }
    }
    DictsEqual(RawPoint(r).fields, LiveFields(r.m));
  }

  /** Summing the numeric currents is adding them with nulls as 0. */
  lemma SumOfThree(m: Measurement)
    ensures SumOfNumbers([m.currentL1A, m.currentL2A, m.currentL3A]) == CoalescedCurrent(m)
  {
    var vs := [m.currentL1A, m.currentL2A, m.currentL3A];
    assert vs[1..] == [m.currentL2A, m.currentL3A] && vs[1..][1..] == [m.currentL3A] && vs[1..][1..][1..] == [];
    assert SumOfNumbers([m.currentL3A]) == Coalesce(m.currentL3A);
  }

  // =====================================================================
  // broadcast (drop-oldest) and the WebSocket queue

  /** `queue.Queue(maxsize=200)` in `ws_route`. */
  const QueueSize: nat := 200

  /** What one `broadcast` does to one queue: `put_nowait`, and when that
      raises Full, `get_nowait` followed by `put_nowait`. */
  function OfferDropOldest<T>(items: seq<T>, x: T, maxsize: nat): (r: seq<T>)
    ensures |r| > 0 && r[|r| - 1] == x
    ensures !IsFull(items, maxsize) ==> r == items + [x]
    ensures 0 < maxsize && |items| <= maxsize ==> r == Newest(items + [x], maxsize)
  {
    if IsFull(items, maxsize) then items[1..] + [x] else items + [x]
  }

  /** `ws_route` up to its blocking read loop: a fresh queue of 200 is
      registered, and the client is first sent `query_latest()` if the
      table is not empty. */
  method WsConnect(hub: Registry<Point>, rows: seq<Row>) returns (q: MessageQueue<Point>, greeting: Option<Point>)
    requires hub.Valid()
    modifies hub
    ensures hub.Valid() && fresh(q)
    ensures q.maxsize == QueueSize && q.items == []
    ensures hub.subscribers == old(hub.subscribers) + {q}
    ensures greeting == QueryLatest(rows)
  {
    q := new MessageQueue<Point>(QueueSize);
    hub.Add(q);
    greeting := QueryLatest(rows);
  }

  /** `broadcast(msg)`: every registered queue gets `msg`; a full queue
      loses its oldest entry first. No queue is removed, none is waited on. */
  method Publish(hub: Registry<Point>, msg: Point)
    requires hub.Valid()
    modifies hub, hub.subscribers
    ensures hub.Valid()
    ensures hub.subscribers == old(hub.subscribers)
    ensures forall q :: q in hub.subscribers ==> q.items == OfferDropOldest(old(q.items), msg, q.maxsize)
  {
    var pending := hub.subscribers;
    while pending != {}
      invariant pending <= hub.subscribers == old(hub.subscribers)
      invariant hub.Valid()
      invariant forall q :: q in hub.subscribers && q !in pending ==>
                  q.items == OfferDropOldest(old(q.items), msg, q.maxsize)
      invariant forall q :: q in pending ==> q.items == old(q.items)
      decreases pending
    {
      var q :| q in pending;
      var ok := q.PutNowait(msg);
      if !ok {
        var _ := q.GetNowait();
        ok := q.PutNowait(msg);
        // The retry cannot raise Full: the queue was just shortened by one,
        // so nothing ever reaches the `dead` list.
        assert ok;
      }
      pending := pending - {q};
    }
  }

  /** `items` after the messages `msgs` were published to it, in order. */
  function PublishAll<T>(items: seq<T>, msgs: seq<T>, maxsize: nat): (r: seq<T>)
    ensures |r| <= |items| + |msgs|
    ensures maxsize == 0 ==> r == items + msgs
    decreases |msgs|
  {
    if msgs == [] then items else PublishAll(OfferDropOldest(items, msgs[0], maxsize), msgs[1..], maxsize)
  }

  /** The last `n` elements of `s` (all of `s` when it is shorter). */
  function Newest<T>(s: seq<T>, n: nat): (r: seq<T>)
    ensures |r| <= n && |r| <= |s|
  {
    if |s| <= n then s else s[|s| - n..]
  }

  lemma NewestOfNewest<T>(s: seq<T>, t: seq<T>, n: nat)
    ensures Newest(Newest(s, n) + t, n) == Newest(s + t, n)
  {
    if |s| > n && t != [] {
      var a := Newest(s, n) + t;
      assert a == (s + t)[|s| - n..];
      assert a[|a| - n..] == (s + t)[|s + t| - n..];
    }
  }

  /** A client that reads nothing keeps at most `maxsize` messages: the
      newest ones, oldest first, whatever was published to it. */
  lemma {:induction false} DropOldestKeepsNewest<T>(items: seq<T>, msgs: seq<T>, maxsize: nat)
    requires 0 < maxsize && |items| <= maxsize
    ensures PublishAll(items, msgs, maxsize) == Newest(items + msgs, maxsize)
    decreases |msgs|
  {
    if msgs == [] {
      assert items + msgs == items;
    } else {
      var next := OfferDropOldest(items, msgs[0], maxsize);
      calc {
        PublishAll(items, msgs, maxsize);
        PublishAll(next, msgs[1..], maxsize);
        { DropOldestKeepsNewest(next, msgs[1..], maxsize); }
        Newest(next + msgs[1..], maxsize);
        { NewestOfNewest(items + [msgs[0]], msgs[1..], maxsize); }
        Newest(items + [msgs[0]] + msgs[1..], maxsize);
        { assert items + [msgs[0]] + msgs[1..] == items + msgs; }
        Newest(items + msgs, maxsize);
      }
    }
  }

  // =====================================================================
  // The cycle itself

  /** One pass of the `while True` body: fetch, build the row (`build`),
      insert it, build the live message (`live`), broadcast it. An
      exception anywhere before the broadcast ends the pass with nothing
      stored and nothing broadcast; the loop then sleeps and goes on. The
      loop passes CollectorRow and LiveMessage. */
  method CollectorCycle(db: Db, hub: Registry<Point>, c: Cycle, build: (Reading, nat) -> Measurement,
                        live: Measurement -> Point)
    returns (sent: seq<Point>)
    requires db.Valid() && hub.Valid()
    modifies db, hub, hub.subscribers
    ensures db.Valid() && hub.Valid()
    ensures hub.subscribers == old(hub.subscribers)
    ensures sent == NewMessages(CycleRow(c, true, build), live)
    ensures db.rows == old(db.rows) + NewRows(old(db.nextId), CycleRow(c, true, build))
    ensures forall q :: q in hub.subscribers ==> q.items == PublishAll(old(q.items), sent, q.maxsize)
  {
    sent := [];
    var data := Fetched(c.fetch, true);
    if data.Some? {
      var row := build(data.value, c.now);
      var ok := db.Insert(row, c.insertFails);
      if ok {
        var latest := live(row);
        Publish(hub, latest);
        sent := [latest];
        assert forall q :: q in hub.subscribers ==> q.items == PublishAll(old(q.items), sent, q.maxsize);
      }
    }
  }

  /** One cycle of `collector_loop`, against the run so far: given that the
      table holds `rows0` followed by the readings of the first `i` cycles,
      that `sentBefore` went out for them, and that every queue holds what
      publishing `sentBefore` to its contents `items0[q]` gives, the same
      holds after cycle `i`, with every client still registered. */
  method CollectorStep(db: Db, hub: Registry<Point>, cycles: seq<Cycle>, i: nat,
                       build: (Reading, nat) -> Measurement, sentBefore: seq<Point>,
                       ghost rows0: seq<Row>, ghost items0: map<MessageQueue<Point>, seq<Point>>)
    returns (sent: seq<Point>)
    requires i < |cycles|
    requires db.Valid() && hub.Valid()
    requires |rows0| <= |db.rows| && db.rows[..|rows0|] == rows0
    requires Measurements(db.rows) == Measurements(rows0) + Accepted(cycles[..i], true, build)
    requires sentBefore == LiveMessages(Accepted(cycles[..i], true, build), LiveMessage)
    requires hub.subscribers <= items0.Keys
    requires forall q :: q in hub.subscribers ==> q.items == PublishAll(items0[q], sentBefore, q.maxsize)
    modifies db, hub, hub.subscribers
    ensures db.Valid() && hub.Valid()
    ensures hub.subscribers == old(hub.subscribers)
    ensures |rows0| <= |db.rows| && db.rows[..|rows0|] == rows0
    ensures Measurements(db.rows) == Measurements(rows0) + Accepted(cycles[..i + 1], true, build)
    ensures sent == LiveMessages(Accepted(cycles[..i + 1], true, build), LiveMessage)
    ensures forall q :: q in hub.subscribers ==> q.items == PublishAll(items0[q], sent, q.maxsize)
  {
    ghost var before := db.rows;
    ghost var id := db.nextId;
    var s := CollectorCycle(db, hub, cycles[i], build, LiveMessage);
    sent := sentBefore + s;
    forall q | q in hub.subscribers
      ensures q.items == PublishAll(items0[q], sent, q.maxsize)
    {
      PublishAllAppend(items0[q], sentBefore, s, q.maxsize);
    }
    PassStep(rows0, before, db.rows, id, cycles, i, true, build, LiveMessage, sentBefore, s);
  }

  /** The cycles of `collector_loop` with the row built by `build`: the
      table grows by exactly the rows of the cycles that got through, in
      order; one message is broadcast for each of them, and every client
      queue has received those messages in that order. */
  method CollectorCycles(db: Db, hub: Registry<Point>, cycles: seq<Cycle>, build: (Reading, nat) -> Measurement)
    returns (sent: seq<Point>)
    requires db.Valid() && hub.Valid()
    modifies db, hub, hub.subscribers
    ensures db.Valid() && hub.Valid()
    ensures hub.subscribers == old(hub.subscribers)
    ensures |old(db.rows)| <= |db.rows| && db.rows[..|old(db.rows)|] == old(db.rows)
    ensures Measurements(db.rows) == Measurements(old(db.rows)) + Accepted(cycles, true, build)
    ensures sent == LiveMessages(Accepted(cycles, true, build), LiveMessage)
    ensures forall q :: q in hub.subscribers ==> q.items == PublishAll(old(q.items), sent, q.maxsize)
  {
    ghost var rows0 := db.rows;
    ghost var subs0 := hub.subscribers;
    ghost var items0 := map q | q in subs0 :: q.items;
    sent := [];
    var i := 0;
    assert cycles[..i] == [];
    assert Accepted(cycles[..i], true, build) == [];
    assert LiveMessages(Accepted(cycles[..i], true, build), LiveMessage) == [];
    assert Measurements(db.rows) == Measurements(rows0) + [];
    while i < |cycles|
      invariant 0 <= i <= |cycles|
      invariant db.Valid() && hub.Valid()
      invariant hub.subscribers == subs0
      invariant |rows0| <= |db.rows| && db.rows[..|rows0|] == rows0
      invariant Measurements(db.rows) == Measurements(rows0) + Accepted(cycles[..i], true, build)
      invariant sent == LiveMessages(Accepted(cycles[..i], true, build), LiveMessage)
      invariant forall q :: q in subs0 ==> q.items == PublishAll(items0[q], sent, q.maxsize)
    {
      sent := CollectorStep(db, hub, cycles, i, build, sent, rows0, items0);
      assert Measurements(db.rows) == Measurements(rows0) + Accepted(cycles[..i + 1], true, build);
      assert sent == LiveMessages(Accepted(cycles[..i + 1], true, build), LiveMessage);
      i := i + 1;
      assert Measurements(db.rows) == Measurements(rows0) + Accepted(cycles[..i], true, build);
      assert sent == LiveMessages(Accepted(cycles[..i], true, build), LiveMessage);
    }
    assert cycles[..|cycles|] == cycles;
  }

  /** `collector_loop` over a finite run of cycles, with its own
      `collector_row`. */
  method CollectorLoop(db: Db, hub: Registry<Point>, cycles: seq<Cycle>) returns (sent: seq<Point>)
    requires db.Valid() && hub.Valid()
    modifies db, hub, hub.subscribers
    ensures db.Valid() && hub.Valid()
    ensures hub.subscribers == old(hub.subscribers)
    ensures |old(db.rows)| <= |db.rows| && db.rows[..|old(db.rows)|] == old(db.rows)
    ensures Measurements(db.rows) == Measurements(old(db.rows)) + Accepted(cycles, true, CollectorRow)
    ensures sent == LiveMessages(Accepted(cycles, true, CollectorRow), LiveMessage)
    ensures forall q :: q in hub.subscribers ==> q.items == PublishAll(old(q.items), sent, q.maxsize)
  {
    sent := CollectorCycles(db, hub, cycles, CollectorRow);
  }

  /** Publishing `a` and then `b` is publishing `a + b`. */
  lemma {:induction false} PublishAllAppend<T>(items: seq<T>, a: seq<T>, b: seq<T>, maxsize: nat)
    ensures PublishAll(items, a + b, maxsize) == PublishAll(PublishAll(items, a, maxsize), b, maxsize)
    decreases |a|
  {
    if a != [] {
      assert (a + b)[0] == a[0] && (a + b)[1..] == a[1..] + b;
      PublishAllAppend(OfferDropOldest(items, a[0], maxsize), a[1..], b, maxsize);
    } else {
      assert a + b == b;
    }
  }

  // =====================================================================
  // api_series

  /** The `hours` the series endpoint uses: a missing or non-integer
      parameter is 1, and the value is clamped into [1, 744]. */
  function SeriesHours(arg: HoursArg): (h: int)
    ensures 1 <= h <= 24 * 31
    ensures !arg.Given? ==> h == 1
    ensures arg.Given? && 1 <= arg.n <= 24 * 31 ==> h == arg.n
    ensures arg.Given? && arg.n < 1 ==> h == 1
    ensures arg.Given? && arg.n > 24 * 31 ==> h == 24 * 31
  {
    var hours := if arg.Given? then arg.n else 1;
    var capped := if hours <= 24 * 31 then hours else 24 * 31;
    if 1 >= capped then 1 else capped
  }

  /** The start of the window `api_series` asks for. */
  function SeriesStart(arg: HoursArg, now: nat): int
  {
    now - SeriesHours(arg) * 3600
  }

  /** `api_series`: `query_series` over the last `hours` hours, raw up to
      6 hours and per minute beyond. The clamp keeps the window's start a
      valid `datetime` (Variants.ClampedHoursNeverOverflow), so this
      handler has no error path. */
  function ApiSeries(rows: seq<Row>, arg: HoursArg, now: nat): (ps: seq<Point>)
    ensures var w := Window(rows, SeriesStart(arg, now));
            SeriesHours(arg) <= 6 ==>
              exists s :: SortedByTime(s) && multiset(s) == multiset(w) && ps == MapPoints(s, SeriesPoint)
    ensures var w := Window(rows, SeriesStart(arg, now));
            SeriesHours(arg) > 6 ==>
              exists ks :: StrictlyIncreasing(ks) && (set m | m in ks) == MinutesOf(w) &&
                           ps == MinutePoints(w, ks, MinuteSeriesPoint)
  {
    if SeriesHours(arg) > 6 then MinuteSeriesOf(rows, SeriesStart(arg, now), MinuteSeriesPoint)
    else RawSeriesOf(rows, SeriesStart(arg, now), SeriesPoint)
  }

  /** Whatever `hours` asks for, no point older than 31 days comes back.
      A raw point lies inside the window; a minute point can start up to a
      minute before it, since its bucket is the whole minute. */
  lemma ApiSeriesBounded(rows: seq<Row>, arg: HoursArg, now: nat)
    ensures SeriesHours(arg) <= 6 ==>
              forall p :: p in ApiSeries(rows, arg, now) ==> p.ts >= now - SeriesHours(arg) * 3600
    ensures forall p :: p in ApiSeries(rows, arg, now) ==> p.ts + 60 > now - SeriesHours(arg) * 3600
    ensures forall p :: p in ApiSeries(rows, arg, now) ==> p.ts + 60 > now - 24 * 31 * 3600
  {
    if SeriesHours(arg) > 6 {
      MinuteSeriesStart(rows, SeriesStart(arg, now), MinuteSeriesPoint);
    } else {
      RawSeriesSound(rows, SeriesStart(arg, now), SeriesPoint);
    }
  }
}
