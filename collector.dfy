/** What every `collector_loop` has in common: a pass fetches a snapshot,
    builds a row from it, inserts it and broadcasts a message built from
    it, and an exception anywhere on that path ends the pass with nothing
    further done. The variants differ in whether the HTTP status is
    checked, in how the row is built from the snapshot, and in the message
    sent; those come in as parameters. */
module Collector {
  import opened Meter
  import opened Points
  import opened Store

  /** The snapshot a poll hands the collector, None when getting it raises:
      a network error, a body that is not a JSON object, and, when the
      variant calls `raise_for_status()`, a 4xx or 5xx status. */
  function Fetched(f: Fetch, raiseForStatus: bool): (d: Option<Reading>)
    ensures f.NetworkError? ==> d == None
    ensures f.Response? && raiseForStatus && HttpError(f.status) ==> d == None
    ensures f.Response? && !(raiseForStatus && HttpError(f.status)) ==> d == f.body
  {
    match f
    case NetworkError => None
    case Response(status, body) => if raiseForStatus && HttpError(status) then None else body
  }

  /** The measurement a pass stores, if it gets that far. */
  function CycleRow(c: Cycle, raiseForStatus: bool, build: (Reading, nat) -> Measurement): (o: Option<Measurement>)
    ensures o.Some? <==> c.fetch.Response? && c.fetch.body.Some? && !(raiseForStatus && HttpError(c.fetch.status)) &&
                         !c.insertFails
    ensures o.Some? ==> o.value == build(c.fetch.body.value, c.now)
  {
    match Fetched(c.fetch, raiseForStatus)
    case None => None
    case Some(data) => if c.insertFails then None else Some(build(data, c.now))
  }

  /** The measurements a run of passes stores, in order. */
  function Accepted(cs: seq<Cycle>, raiseForStatus: bool, build: (Reading, nat) -> Measurement): (ms: seq<Measurement>)
    ensures |ms| <= |cs|
  {
    if cs == [] then []
    else
      var last := CycleRow(cs[|cs| - 1], raiseForStatus, build);
      Accepted(cs[..|cs| - 1], raiseForStatus, build) + (if last.Some? then [last.value] else [])
  }

  lemma AcceptedStep(cs: seq<Cycle>, i: nat, raiseForStatus: bool, build: (Reading, nat) -> Measurement)
    requires i < |cs|
    ensures var o := CycleRow(cs[i], raiseForStatus, build);
            Accepted(cs[..i + 1], raiseForStatus, build) ==
              Accepted(cs[..i], raiseForStatus, build) + (if o.Some? then [o.value] else [])
  {
    assert cs[..i + 1][..i] == cs[..i];
  }

  /** A run stores exactly what its successful passes built: every stored
      measurement comes from a pass, and every pass that got past its
      insert left its measurement behind. */
  lemma {:induction false} AcceptedArePasses(cs: seq<Cycle>, raiseForStatus: bool, build: (Reading, nat) -> Measurement)
    ensures forall m :: m in Accepted(cs, raiseForStatus, build) ==>
              exists i :: 0 <= i < |cs| && CycleRow(cs[i], raiseForStatus, build) == Some(m)
    ensures forall i :: 0 <= i < |cs| && CycleRow(cs[i], raiseForStatus, build).Some? ==>
              CycleRow(cs[i], raiseForStatus, build).value in Accepted(cs, raiseForStatus, build)
  {
    if cs != [] {
      var n := |cs| - 1;
      var init := cs[..n];
      AcceptedArePasses(init, raiseForStatus, build);
      assert forall i :: 0 <= i < n ==> init[i] == cs[i];
      assert cs[..n + 1] == cs;
      AcceptedStep(cs, n, raiseForStatus, build);
    }
  }

  /** Checking the status only ever drops a snapshot, and only a 4xx or
      5xx response that carries one. */
  lemma StatusCheckOnlyDropsErrors(f: Fetch)
    ensures Fetched(f, true) != Fetched(f, false) <==> f.Response? && HttpError(f.status) && f.body.Some?
    ensures Fetched(f, true).Some? ==> Fetched(f, false) == Fetched(f, true)
  {
  }

  /** The rows a pass appends: none, or its measurement under the next id. */
  function NewRows(id: nat, o: Option<Measurement>): (rs: seq<Row>)
    ensures Measurements(rs) == if o.Some? then [o.value] else []
  {
    if o.Some? then [Row(id, o.value)] else []
  }

  /** The messages a pass broadcasts: none, or the message of its row. */
  function NewMessages(o: Option<Measurement>, live: Measurement -> Point): seq<Point>
  {
    if o.Some? then [live(o.value)] else []
  }

  /** The messages of the measurements `ms`, in order. */
  function LiveMessages(ms: seq<Measurement>, live: Measurement -> Point): (ps: seq<Point>)
    ensures |ps| == |ms|
    ensures forall k :: 0 <= k < |ms| ==> ps[k] == live(ms[k])
  {
    if ms == [] then [] else [live(ms[0])] + LiveMessages(ms[1..], live)
  }

  lemma {:induction false} LiveMessagesAppend(a: seq<Measurement>, b: seq<Measurement>, live: Measurement -> Point)
    ensures LiveMessages(a + b, live) == LiveMessages(a, live) + LiveMessages(b, live)
  {
    if a != [] {
      assert (a + b)[1..] == a[1..] + b;
      LiveMessagesAppend(a[1..], b, live);
    }
  }

  /** What one pass adds to the messages sent so far. */
  lemma MessagesStep(sentBefore: seq<Point>, cs: seq<Cycle>, i: nat, raiseForStatus: bool,
                     build: (Reading, nat) -> Measurement, live: Measurement -> Point)
    requires i < |cs|
    requires sentBefore == LiveMessages(Accepted(cs[..i], raiseForStatus, build), live)
    ensures sentBefore + NewMessages(CycleRow(cs[i], raiseForStatus, build), live) ==
              LiveMessages(Accepted(cs[..i + 1], raiseForStatus, build), live)
  {
    var o := CycleRow(cs[i], raiseForStatus, build);
    AcceptedStep(cs, i, raiseForStatus, build);
    LiveMessagesAppend(Accepted(cs[..i], raiseForStatus, build), if o.Some? then [o.value] else [], live);
  }

  /** What one pass adds to the rows stored so far. */
  lemma RowsStep(start: seq<Row>, before: seq<Row>, id: nat, cs: seq<Cycle>, i: nat, raiseForStatus: bool,
                 build: (Reading, nat) -> Measurement)
    requires i < |cs|
    requires Measurements(before) == Measurements(start) + Accepted(cs[..i], raiseForStatus, build)
    ensures Measurements(before + NewRows(id, CycleRow(cs[i], raiseForStatus, build))) ==
              Measurements(start) + Accepted(cs[..i + 1], raiseForStatus, build)
  {
    AcceptedStep(cs, i, raiseForStatus, build);
    MeasurementsAppend(before, NewRows(id, CycleRow(cs[i], raiseForStatus, build)));
  }

  /** Appending rows keeps the rows the table started with. */
  lemma PrefixKept(rows0: seq<Row>, before: seq<Row>, extra: seq<Row>)
    requires |rows0| <= |before| && before[..|rows0|] == rows0
    ensures (before + extra)[..|rows0|] == rows0
  {
    assert (before + extra)[..|rows0|] == before[..|rows0|];
  }

  /** The bookkeeping of one pass in a loop: if the table held `rows0`
      followed by the readings of the first `i` passes, and `sentBefore`
      went out for them, then after pass `i` appended its rows and sent its
      messages, the same holds for the first `i + 1` passes. */
  lemma PassStep(rows0: seq<Row>, before: seq<Row>, after: seq<Row>, id: nat, cs: seq<Cycle>, i: nat,
                 raiseForStatus: bool, build: (Reading, nat) -> Measurement, live: Measurement -> Point,
                 sentBefore: seq<Point>, s: seq<Point>)
    requires i < |cs|
    requires |rows0| <= |before| && before[..|rows0|] == rows0
    requires Measurements(before) == Measurements(rows0) + Accepted(cs[..i], raiseForStatus, build)
    requires sentBefore == LiveMessages(Accepted(cs[..i], raiseForStatus, build), live)
    requires after == before + NewRows(id, CycleRow(cs[i], raiseForStatus, build))
    requires s == NewMessages(CycleRow(cs[i], raiseForStatus, build), live)
    ensures |rows0| <= |after| && after[..|rows0|] == rows0
    ensures Measurements(after) == Measurements(rows0) + Accepted(cs[..i + 1], raiseForStatus, build)
    ensures sentBefore + s == LiveMessages(Accepted(cs[..i + 1], raiseForStatus, build), live)
  {
    PrefixKept(rows0, before, NewRows(id, CycleRow(cs[i], raiseForStatus, build)));
    RowsStep(rows0, before, id, cs, i, raiseForStatus, build);
    MessagesStep(sentBefore, cs, i, raiseForStatus, build, live);
  }

  /** A failing fetch followed by a good one stores one row: the bad pass
      leaves no trace and does not stop the loop. */
  lemma FailedFetchThenRecovery(data: Reading, t0: nat, t1: nat, raiseForStatus: bool,
                                build: (Reading, nat) -> Measurement)
    ensures Accepted([Cycle(NetworkError, t0, false), Cycle(Response(200, Some(data)), t1, false)],
                     raiseForStatus, build) == [build(data, t1)]
  {
    var cs := [Cycle(NetworkError, t0, false), Cycle(Response(200, Some(data)), t1, false)];
    assert CycleRow(cs[0], raiseForStatus, build) == None;
    assert CycleRow(cs[1], raiseForStatus, build) == Some(build(data, t1));
    AcceptedStep(cs, 0, raiseForStatus, build);
    AcceptedStep(cs, 1, raiseForStatus, build);
    assert cs[..0] == [] && cs[..2] == cs;
  }

  /** A 500 response that still carries a JSON object is dropped by a
      variant that checks the status and stored by one that does not. */
  lemma ErrorStatusWithBody(data: Reading, t: nat, build: (Reading, nat) -> Measurement)
    ensures CycleRow(Cycle(Response(500, Some(data)), t, false), true, build) == None
    ensures CycleRow(Cycle(Response(500, Some(data)), t, false), false, build) == Some(build(data, t))
  {
  }
}
