/** The dictionaries the servers hand to clients (query results, live
    messages), their column names, and the phase-imbalance arithmetic that
    every variant of the server shares. */
module Points {
  import opened Meter

  /** The numeric keys of a point dict: the columns of `p1_measurements`
      and the derived fields. */
  datatype Key =
    | ActivePowerW | TotalImportKwh
    | VoltageL1V | VoltageL2V | VoltageL3V
    | CurrentL1A | CurrentL2A | CurrentL3A
    | TotalCurrentA | ImbalanceA | ImbalancePct

  /** The JSON name of each key. */
  function Name(k: Key): string
  {
    match k
    case ActivePowerW => "active_power_w"
    case TotalImportKwh => "total_import_kwh"
    case VoltageL1V => "voltage_l1_v"
    case VoltageL2V => "voltage_l2_v"
    case VoltageL3V => "voltage_l3_v"
    case CurrentL1A => "active_current_l1_a"
    case CurrentL2A => "active_current_l2_a"
    case CurrentL3A => "active_current_l3_a"
    case TotalCurrentA => "total_current_a"
    case ImbalanceA => "imbalance_a"
    case ImbalancePct => "imbalance_pct"
  }

  /** The numeric, nullable part of a Python point dict. */
  type Dict = map<Key, Option<real>>

  /** A point dict: its `ts` key (a timestamp, in seconds) and its numeric keys. */
  datatype Point = Point(ts: nat, fields: Dict)

  /** An integer query-string parameter such as `hours`, as the handler
      sees it: absent, present but not an integer, or an integer. */
  datatype HoursArg = Missing | NotAnInt | Given(n: int)

  /** `[f(x) for x in xs]`: one point per element, in order. */
  function MapPoints<X>(xs: seq<X>, f: X -> Point): (ps: seq<Point>)
    ensures |ps| == |xs|
    ensures forall i {:trigger f(xs[i])} :: 0 <= i < |xs| ==> ps[i] == f(xs[i])
  {
    if xs == [] then [] else [f(xs[0])] + MapPoints(xs[1..], f)
  }

  /** `p.get(key)` on the numeric part of a point. */
  function Field(p: Dict, key: Key): Option<real>
  {
    if key in p then p[key] else None
  }

  /** Two dicts with the same keys and the same value at every key are equal. */
  lemma DictsEqual(f: Dict, g: Dict)
    requires f.Keys == g.Keys
    requires forall k :: k in f ==> f[k] == g[k]
    ensures f == g
  {
  }

  function Max(a: real, b: real): real { if a >= b then a else b }
  function Min(a: real, b: real): real { if a <= b then a else b }

  /** `max([a, b, c])`. */
  function Max3(a: real, b: real, c: real): (r: real)
    ensures r >= a && r >= b && r >= c
    ensures r == a || r == b || r == c
  {
    Max(Max(a, b), c)
  }

  /** `min([a, b, c])`. */
  function Min3(a: real, b: real, c: real): (r: real)
    ensures r <= a && r <= b && r <= c
    ensures r == a || r == b || r == c
  {
    Min(Min(a, b), c)
  }

  /** `i_max - i_min`: the spread between the most and least loaded phase. */
  function Spread(a: real, b: real, c: real): real
  {
    Max3(a, b, c) - Min3(a, b, c)
  }

  /** `(d / hi * 100.0) if hi > 0 else 0.0`: `d` as a percentage of `hi`,
      guarded against dividing by zero. */
  function Percent(d: real, hi: real): real
  {
    if hi > 0.0 then d / hi * 100.0 else 0.0
  }

  /** The spread as a percentage of the largest current. */
  function SpreadPct(a: real, b: real, c: real): real
  {
    Percent(Spread(a, b, c), Max3(a, b, c))
  }

  /** The spread is never negative, and it is zero exactly when the three
      phases carry the same current. */
  lemma SpreadZeroIffBalanced(a: real, b: real, c: real)
    ensures Spread(a, b, c) >= 0.0
    ensures Spread(a, b, c) == 0.0 <==> a == b == c
  {
  }

  /** With no phase exporting (all currents >= 0) the percentage lies in
      [0, 100]; it reaches 100 exactly when some phase carries nothing while
      another carries current. */
  lemma SpreadPctBounds(a: real, b: real, c: real)
    requires a >= 0.0 && b >= 0.0 && c >= 0.0
    ensures 0.0 <= SpreadPct(a, b, c) <= 100.0
    ensures SpreadPct(a, b, c) == 100.0 <==> Max3(a, b, c) > 0.0 && Min3(a, b, c) == 0.0
  {
    var hi, lo := Max3(a, b, c), Min3(a, b, c);
    if hi > 0.0 {
      assert SpreadPct(a, b, c) == Percent(hi - lo, hi);
      FractionBounds(hi - lo, hi);
      FractionWhole(hi - lo, hi);
    }
  }

  /** A part of a positive whole is between 0 and 1 of it. */
  lemma FractionBounds(s: real, hi: real)
    requires hi > 0.0 && 0.0 <= s <= hi
    ensures 0.0 <= s / hi <= 1.0
  {
    var d := s / hi;
    assert d * hi == s;
    if d < 0.0 { MulPos(-d, hi); }
    if d > 1.0 { MulPos(d - 1.0, hi); }
  }

  /** The part is all of the whole exactly when it is the whole. */
  lemma FractionWhole(s: real, hi: real)
    requires hi > 0.0
    ensures s / hi == 1.0 <==> s == hi
  {
    var d := s / hi;
    assert d * hi == s;
    if d == 1.0 {
      assert s == 1.0 * hi;
    }
  }

  lemma MulPos(x: real, y: real)
    requires x > 0.0 && y > 0.0
    ensures x * y > 0.0
  {
  }

  /** Neither derived value depends on how the phases are numbered. */
  lemma SpreadSymmetric(a: real, b: real, c: real)
    ensures Spread(a, b, c) == Spread(b, a, c) == Spread(a, c, b) == Spread(c, b, a)
    ensures SpreadPct(a, b, c) == SpreadPct(b, a, c) == SpreadPct(a, c, b) == SpreadPct(c, b, a)
  {
    assert Max3(a, b, c) == Max3(b, a, c) == Max3(a, c, b) == Max3(c, b, a);
    assert Min3(a, b, c) == Min3(b, a, c) == Min3(a, c, b) == Min3(c, b, a);
  }

  /** The worked example: currents 4, 6 and 5 A give a 2 A spread and 33 1/3 %. */
  lemma SpreadExample()
    ensures Spread(4.0, 6.0, 5.0) == 2.0
    ensures SpreadPct(4.0, 6.0, 5.0) == 100.0 / 3.0
  {
  }
}
