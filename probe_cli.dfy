/** p1-api.py: a one-shot probe that reads the meter once and prints the
    voltage and current of each phase, the power, the summed current and
    the imported energy. */
module ProbeCli {
  import opened Meter
  import opened PyText

  // =====================================================================
  // get_p1_v1_data

  /** How `get_p1_v1_data` ends: with the decoded object, or with
      `SystemExit` carrying "HTTP-fel: <the exception>" or the JSON message. */
  datatype Outcome = Data(d: Reading) | HttpFailure | JsonFailure

  /** The message of the exit on a body that is not JSON. */
  const JsonMessage: string := "Kunde inte tolka JSON-svar."

  /** `requests.get` and `raise_for_status()` raise a `RequestException` for
      a network error and for a 4xx or 5xx status. What `resp.json()` raises
      on a body that is not JSON depends on the installed `requests`: from
      version 2.27 on it is `requests.exceptions.JSONDecodeError`, which is a
      `RequestException` as well as a `ValueError`, so the first `except`
      takes it (`jsonErrorIsRequestError`); before 2.27 it is a plain
      `ValueError`, which reaches the second `except`. */
  function GetData(f: Fetch, jsonErrorIsRequestError: bool): (o: Outcome)
    ensures o.HttpFailure? <==>
              f.NetworkError? || (f.Response? && (HttpError(f.status) || (f.body.None? && jsonErrorIsRequestError)))
    ensures o.JsonFailure? <==> f.Response? && !HttpError(f.status) && f.body.None? && !jsonErrorIsRequestError
    ensures o.Data? <==> f.Response? && !HttpError(f.status) && f.body.Some?
    ensures o.Data? ==> f.body == Some(o.d)
  {
    match f
    case NetworkError => HttpFailure
    case Response(status, body) =>
      if HttpError(status) then HttpFailure
      else if body.None? then (if jsonErrorIsRequestError then HttpFailure else JsonFailure)
      else Data(body.value)
  }

  // =====================================================================
  // fmt

  /** What `fmt` is handed: None, a number, or a value on which the format
      specification `.Nf` raises (a string, say). */
  datatype FmtValue = NoValue | Number(x: real) | Unformattable

  /** A nullable reading as `fmt` sees it. */
  function OfReading(v: Option<real>): (f: FmtValue)
    ensures f.NoValue? <==> v.None?
    ensures v.Some? ==> f == Number(v.value)
  {
    if v.Some? then Number(v.value) else NoValue
  }

  /** The dash `fmt` prints for a missing or unprintable value. */
  const Dash: string := "—"

  /** `fmt(value, decimals, unit)`; `fixedText(x, d)` stands for
      `f"{x:.{d}f}"`. A number is printed with the unit after one space
      when a unit is given and bare otherwise; anything else is the dash. */
  function Fmt(v: FmtValue, decimals: nat, unit: string, fixedText: (real, nat) -> string): (s: string)
    ensures !v.Number? ==> s == Dash
    ensures v.Number? && unit == "" ==> s == fixedText(v.x, decimals)
    ensures v.Number? && unit != "" ==>
              |s| == |fixedText(v.x, decimals)| + 1 + |unit| &&
              s[..|fixedText(v.x, decimals)|] == fixedText(v.x, decimals) &&
              s[|fixedText(v.x, decimals)|..] == " " + unit
  {
    match v
    case NoValue => Dash
    case Unformattable => Dash
    case Number(x) =>
      var t := fixedText(x, decimals);
      var s := t + (if unit != "" then " " + unit else "");
      assert s[..|t|] == t;
      s
  }

  /** A printed number with a unit splits at its one space back into the
      number text and the unit, when neither holds a space. */
  lemma FmtSplitsIntoNumberAndUnit(x: real, decimals: nat, unit: string, fixedText: (real, nat) -> string)
    requires unit != "" && ' ' !in unit && ' ' !in fixedText(x, decimals)
    ensures Split(Fmt(Number(x), decimals, unit, fixedText), ' ') == [fixedText(x, decimals), unit]
  {
    var t := fixedText(x, decimals);
    assert Fmt(Number(x), decimals, unit, fixedText) == t + [' '] + unit;
    SplitAfterFirst(t, ' ', unit);
    assert Split(unit, ' ') == [unit];
  }

  // =====================================================================
  // the readings of the main block

  /** `[v for v in (i1, i2, i3) if isinstance(v, (int, float))]`. */
  function Numbers(vs: seq<Option<real>>): (ns: seq<real>)
    ensures |ns| <= |vs|
    ensures ns == [] <==> forall i :: 0 <= i < |vs| ==> vs[i].None?
    ensures forall x :: x in ns <==> Some(x) in vs
  {
    if vs == [] then []
    else
      var rest := Numbers(vs[1..]);
      assert forall i :: 1 <= i < |vs| ==> vs[i] == vs[1..][i - 1];
      assert forall x :: Some(x) in vs <==> Some(x) == vs[0] || Some(x) in vs[1..];
      if vs[0].Some? then [vs[0].value] + rest else rest
  }

  /** `sum` of a list of numbers. */
  function Sum(ns: seq<real>): real
  {
    if ns == [] then 0.0 else ns[0] + Sum(ns[1..])
  }

  /** The numbers summed are the readings that are present: `sum` over the
      filtered list is the sum with nulls counting for nothing. */
  lemma {:induction false} SumOfFiltered(vs: seq<Option<real>>)
    ensures Sum(Numbers(vs)) == SumOfNumbers(vs)
  {
    if vs != [] {
      SumOfFiltered(vs[1..]);
    }
  }

  /** `sum(currents) if currents else None`: None exactly when no phase
      current is a number, otherwise the sum of those that are, a zero
      current included. */
  function TotalCurrent(i1: Option<real>, i2: Option<real>, i3: Option<real>): (t: Option<real>)
    ensures t.None? <==> i1.None? && i2.None? && i3.None?
    ensures t.Some? ==> t.value == SumOfNumbers([i1, i2, i3])
  {
    var ns := Numbers([i1, i2, i3]);
    SumOfFiltered([i1, i2, i3]);
    if ns != [] then Some(Sum(ns)) else None
  }

  /** A phase reading 0 is summed, not skipped: the total of a single zero
      current is 0, not None. */
  lemma ZeroCurrentIsSummed()
    ensures TotalCurrent(Some(0.0), None, None) == Some(0.0)
    ensures TotalCurrent(Some(2.5), None, Some(1.5)) == Some(4.0)
  {
    var a: seq<Option<real>> := [Some(0.0), None, None];
    var b: seq<Option<real>> := [Some(2.5), None, Some(1.5)];
    assert a[1..][1..][1..] == [] && b[1..][1..][1..] == [];
  }

  /** The voltage candidates of phase `n`: the older name first. */
  function VoltageKeys(n: nat): seq<string>
    requires 1 <= n <= 3
  {
    if n == 1 then ["voltage_l1_v", "active_voltage_l1_v"]
    else if n == 2 then ["voltage_l2_v", "active_voltage_l2_v"]
    else ["voltage_l3_v", "active_voltage_l3_v"]
  }

  /** `data.get("voltage_lN_v") or data.get("active_voltage_lN_v")`. */
  function Voltage(data: Reading, n: nat): (v: Option<real>)
    requires 1 <= n <= 3
    ensures v == if Truthy(Get(data, VoltageKeys(n)[0])) then Get(data, VoltageKeys(n)[0])
                 else Get(data, VoltageKeys(n)[1])
  {
    ResolvePair(data, VoltageKeys(n)[0], VoltageKeys(n)[1]);
    Resolve(data, VoltageKeys(n))
  }

  /** The import candidates, newest name first. */
  const ImportKeys: seq<string> := ["total_power_import_kwh", "total_import_kwh", "total_import_t1_kwh"]

  /** `total_power_import_kwh or total_import_kwh or total_import_t1_kwh`. */
  function Import(data: Reading): (v: Option<real>)
    ensures v == if Truthy(Get(data, ImportKeys[0])) then Get(data, ImportKeys[0])
                 else if Truthy(Get(data, ImportKeys[1])) then Get(data, ImportKeys[1])
                 else Get(data, ImportKeys[2])
  {
    ResolveTriple(data, ImportKeys[0], ImportKeys[1], ImportKeys[2]);
    Resolve(data, ImportKeys)
  }

  /** A meter that reports only the tariff-1 counter still shows an import. */
  lemma TariffOneFallback(x: real)
    requires x != 0.0
    ensures Import(map["total_import_t1_kwh" := Some(x)]) == Some(x)
  {
  }

  // =====================================================================
  // the printed report

  /** One phase line: `f"{name} (volt): {v_txt} ({i_txt})"`. */
  function PhaseLine(name: string, v: Option<real>, i: Option<real>, fixedText: (real, nat) -> string): string
  {
    name + " (volt): " + Fmt(OfReading(v), 1, "", fixedText) + " (" + Fmt(OfReading(i), 2, "A", fixedText) + ")"
  }

  /** Two lines with the same label are equal exactly when what follows the
      label is. */
  lemma SameLabel(prefix: string, s: string, t: string)
    ensures prefix + s == prefix + t <==> s == t
  {
    if prefix + s == prefix + t {
      assert s == (prefix + s)[|prefix|..];
    }
  }

  /** The label of the summed-current line. */
  const TotalLabel: string := "Total ström (summa av faser): "

  /** `f"Total ström (summa av faser): {fmt(total_current, 3, 'A')}"`: the
      dash exactly when no phase current is present; with any current
      present it is a number with its unit, whatever text the number gets. */
  function TotalLine(i1: Option<real>, i2: Option<real>, i3: Option<real>, fixedText: (real, nat) -> string)
    : (line: string)
    ensures line == TotalLabel + Dash <==> i1.None? && i2.None? && i3.None?
  {
    var total := Fmt(OfReading(TotalCurrent(i1, i2, i3)), 3, "A", fixedText);
    SameLabel(TotalLabel, total, Dash);
    assert total == Dash <==> TotalCurrent(i1, i2, i3).None?;
    TotalLabel + total
  }

  /** The six lines the main block prints for one snapshot, in print order.
      The summed current shows the dash exactly when the meter reports no
      phase current at all. */
  function Report(data: Reading, fixedText: (real, nat) -> string): (lines: seq<string>)
    ensures |lines| == 6
    ensures lines[4] == TotalLabel + Dash <==>
              Get(data, "active_current_l1_a").None? && Get(data, "active_current_l2_a").None? &&
              Get(data, "active_current_l3_a").None?
  {
    var i1, i2, i3 := Get(data, "active_current_l1_a"), Get(data, "active_current_l2_a"), Get(data, "active_current_l3_a");
    var phases := PhaseLines(data, fixedText);
    var total := TotalLine(i1, i2, i3, fixedText);
    var lines := phases + [PowerLine(data, fixedText), total, ImportLine(data, fixedText)];
    assert lines[4] == total;
    lines
  }

  /** `f"Aktuell effekt (W): {fmt(power, 0)}"`. */
  function PowerLine(data: Reading, fixedText: (real, nat) -> string): string
  {
    "Aktuell effekt (W): " + Fmt(OfReading(Get(data, "active_power_w")), 0, "", fixedText)
  }

  /** `f"Total förbrukning (kWh): {fmt(total_import, 2)}"`. */
  function ImportLine(data: Reading, fixedText: (real, nat) -> string): string
  {
    "Total förbrukning (kWh): " + Fmt(OfReading(Import(data)), 2, "", fixedText)
  }

  /** The loop over the three phases: one PhaseLine each. */
  function PhaseLines(data: Reading, fixedText: (real, nat) -> string): (lines: seq<string>)
    ensures |lines| == 3
  {
    [PhaseLine("Fas 1", Voltage(data, 1), Get(data, "active_current_l1_a"), fixedText),
     PhaseLine("Fas 2", Voltage(data, 2), Get(data, "active_current_l2_a"), fixedText),
     PhaseLine("Fas 3", Voltage(data, 3), Get(data, "active_current_l3_a"), fixedText)]
  }
}
