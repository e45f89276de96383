/** The shape every `query_series` shares, whatever point it builds from a
    row or from a minute's group of rows: the raw query returns the rows of
    the window in time order, one point each, and the per-minute query one
    point per minute that holds a row of the window, minutes ascending.
    The point builders come in as parameters. */
module Series {
  import opened Points
  import opened Store

  /** `SELECT ... WHERE measured_at >= ? ORDER BY measured_at`, one point
      per row: the window's rows, each exactly once, ordered by time (rows
      with equal times in an unspecified order). */
  function RawSeriesOf(rows: seq<Row>, start: int, point: Row -> Point): (ps: seq<Point>)
    ensures exists s :: SortedByTime(s) && multiset(s) == multiset(Window(rows, start)) &&
                        ps == MapPoints(s, point)
  {
    MapPoints(RawSeries(rows, start), point)
  }

  /** The minutes (`measured_at` truncated to the minute) that hold a row of `w`. */
  function MinutesOf(w: seq<Row>): set<nat>
  {
    set r | r in w :: Minute(r)
  }

  /** The points of the minutes `ks`, each built from that minute's rows of `w`. */
  function MinutePoints(w: seq<Row>, ks: seq<nat>, point: (seq<Row>, nat) -> Point): (ps: seq<Point>)
    ensures |ps| == |ks|
    ensures forall i {:trigger point(Bucket(w, ks[i]), ks[i])} :: 0 <= i < |ks| ==> ps[i] == point(Bucket(w, ks[i]), ks[i])
  {
    var f := m => point(Bucket(w, m), m);
    var ps := MapPoints(ks, f);
    assert forall i :: 0 <= i < |ks| ==> ps[i] == f(ks[i]);
    ps
  }

  /** `... GROUP BY minute ORDER BY minute`: one point per minute that holds
      a row of the window, each such minute exactly once, ascending. */
  function MinuteSeriesOf(rows: seq<Row>, start: int, point: (seq<Row>, nat) -> Point): (ps: seq<Point>)
    ensures exists ks :: StrictlyIncreasing(ks) && (set m | m in ks) == MinutesOf(Window(rows, start)) &&
                         ps == MinutePoints(Window(rows, start), ks, point)
  {
    var w := Window(rows, start);
    var ks := GroupKeys(rows, start);
    assert (set m | m in ks) == MinutesOf(w) by {
      forall m | m in ks ensures m in MinutesOf(w) {
        var k :| 0 <= k < |ks| && ks[k] == m;
        var r :| r in rows && Time(r) >= start && Minute(r) == ks[k];
        assert r in w;
      }
      forall m | m in MinutesOf(w) ensures m in ks {
        var r :| r in w && Minute(r) == m;
      }
    }
    MinutePoints(w, ks, point)
  }

  /** Every row of the window comes back as its own point. */
  lemma RawSeriesComplete(rows: seq<Row>, start: int, point: Row -> Point, r: Row)
    requires r in rows && Time(r) >= start
    ensures point(r) in RawSeriesOf(rows, start, point)
  {
    var ps := RawSeriesOf(rows, start, point);
    var s :| SortedByTime(s) && multiset(s) == multiset(Window(rows, start)) && ps == MapPoints(s, point);
    assert r in multiset(Window(rows, start));
    assert r in multiset(s);
    var i :| 0 <= i < |s| && s[i] == r;
    assert ps[i] == point(r);
  }

  /** Nothing before `start` comes back, when a point carries its row's time. */
  lemma RawSeriesSound(rows: seq<Row>, start: int, point: Row -> Point)
    requires forall r :: point(r).ts == Time(r)
    ensures forall p :: p in RawSeriesOf(rows, start, point) ==> p.ts >= start
  {
    var ps := RawSeriesOf(rows, start, point);
    var s :| SortedByTime(s) && multiset(s) == multiset(Window(rows, start)) && ps == MapPoints(s, point);
    forall p | p in ps ensures p.ts >= start {
      var i :| 0 <= i < |ps| && ps[i] == p;
      assert s[i] in multiset(Window(rows, start));
    }
  }

  /** Every row of the window has its minute in the per-minute series, as
      the point built from that minute's rows. */
  lemma MinuteSeriesComplete(rows: seq<Row>, start: int, point: (seq<Row>, nat) -> Point, r: Row)
    requires r in rows && Time(r) >= start
    ensures point(Bucket(Window(rows, start), Minute(r)), Minute(r)) in MinuteSeriesOf(rows, start, point)
  {
    var w, ks := Window(rows, start), GroupKeys(rows, start);
    var ps := MinutePoints(w, ks, point);
    assert MinuteSeriesOf(rows, start, point) == ps;
    var i :| 0 <= i < |ks| && ks[i] == Minute(r);
    assert ps[i] in ps;
  }

  /** A minute's point starts at most a minute before `start`, when a point
      carries its minute's start as its time: the minute holds a row of
      the window. */
  lemma MinuteSeriesStart(rows: seq<Row>, start: int, point: (seq<Row>, nat) -> Point)
    requires forall b: seq<Row>, m: nat :: point(b, m).ts == m * 60
    ensures forall p :: p in MinuteSeriesOf(rows, start, point) ==> p.ts + 60 > start
  {
    var w, ks := Window(rows, start), GroupKeys(rows, start);
    var ps := MinutePoints(w, ks, point);
    assert MinuteSeriesOf(rows, start, point) == ps;
    forall p | p in ps ensures p.ts + 60 > start {
      var i :| 0 <= i < |ps| && ps[i] == p;
      var r :| r in rows && Time(r) >= start && Minute(r) == ks[i];
      assert p == point(Bucket(w, ks[i]), ks[i]);
    }
  }
}
