/** p1-server2-old.py: the predecessor of p1-server.py. Its
    `_calculate_extra_fields`, `query_series`, `query_latest`, `broadcast`,
    `api_series` and `ws_route` are those of p1-server.py character for
    character, so they are the members of module Server. What differs is the
    collector's row, which reads one firmware key per field, and the CSV
    export, which has a fixed layout of eight columns. */
module Server2Old {
  import opened Meter
  import opened Points
  import opened Store
  import opened Broadcast
  import opened Collector
  import opened PyText
  import Server

  // =====================================================================
  // collector_loop

  /** The `row` dict: one key per field, no fallback to older names. */
  function CollectorRow(data: Reading, now: nat): (m: Measurement)
    ensures m.measuredAt == now
    ensures m.activePowerW == Get(data, "active_power_w")
    ensures m.totalImportKwh == Get(data, "total_power_import_kwh")
    ensures m.voltageL1V == Get(data, "active_voltage_l1_v")
    ensures m.voltageL2V == Get(data, "active_voltage_l2_v")
    ensures m.voltageL3V == Get(data, "active_voltage_l3_v")
    ensures m.currentL1A == Get(data, "active_current_l1_a")
    ensures m.currentL2A == Get(data, "active_current_l2_a")
    ensures m.currentL3A == Get(data, "active_current_l3_a")
  {
    Measurement(now,
      Get(data, "active_power_w"),
      Get(data, "total_power_import_kwh"),
      Get(data, "active_voltage_l1_v"),
      Get(data, "active_voltage_l2_v"),
      Get(data, "active_voltage_l3_v"),
      Get(data, "active_current_l1_a"),
      Get(data, "active_current_l2_a"),
      Get(data, "active_current_l3_a"))
  }

  /** `collector_loop` over a finite run of passes: the loop of p1-server.py
      with this file's row. The table grows by the passes that got through,
      one enriched message goes out for each, and every client still
      registered has received all of them in order. */
  method CollectorLoop(db: Db, hub: Registry<Point>, cycles: seq<Cycle>) returns (sent: seq<Point>)
    requires db.Valid() && hub.Valid()
    modifies db, hub, hub.subscribers
    ensures db.Valid() && hub.Valid()
    ensures |old(db.rows)| <= |db.rows| && db.rows[..|old(db.rows)|] == old(db.rows)
    ensures Measurements(db.rows) == Measurements(old(db.rows)) + Accepted(cycles, false, CollectorRow)
    ensures sent == LiveMessages(Accepted(cycles, false, CollectorRow), Server.LiveMessage)
    ensures hub.subscribers <= old(hub.subscribers)
    ensures forall q :: q in old(hub.subscribers) ==> (q in hub.subscribers <==> Server.Survives(old(q.items), sent, q.maxsize))
    ensures forall q :: q in old(hub.subscribers) ==> q.items == Server.Deliver(old(q.items), sent, q.maxsize)
  {
    sent := Server.CollectorLoop(db, hub, cycles, CollectorRow);
  }

  // =====================================================================
  // api_export_csv

  /** The column titles of the header. */
  const Header: seq<string> := ["Tid", "Effekt", "L1_A", "L2_A", "L3_A", "L1_V", "L2_V", "L3_V"]

  /** The header line the export writes before any row: the literal
      `Tid;Effekt;L1_A;L2_A;L3_A;L1_V;L2_V;L3_V` and a newline. */
  const HeaderLine: string := Join(Header, ";") + "\n"

  /** The values the f-string of one row formats, in its order; `timeText`
      is the stored `measured_at` text. */
  function CsvValues(r: Row, timeText: nat -> string): (vs: seq<PyValue>)
    ensures |vs| == |Header|
    ensures vs[0] == PyStr(timeText(Time(r)))
  {
    [PyStr(timeText(Time(r))), Server.Nullable(r.m.activePowerW),
     Server.Nullable(r.m.currentL1A), Server.Nullable(r.m.currentL2A), Server.Nullable(r.m.currentL3A),
     Server.Nullable(r.m.voltageL1V), Server.Nullable(r.m.voltageL2V), Server.Nullable(r.m.voltageL3V)]
  }

  /** The cells of one row: `{v}` in an f-string is `str(v)` for these values. */
  function RowCells(r: Row, timeText: nat -> string, floatText: real -> string): (cs: seq<string>)
    ensures |cs| == |Header|
    ensures forall k :: 0 <= k < |cs| ==> cs[k] == Str(CsvValues(r, timeText)[k], floatText)
  {
    Server.Cells(CsvValues(r, timeText), false, floatText)
  }

  /** One data line of the export. */
  function CsvLine(r: Row, timeText: nat -> string, floatText: real -> string): string
  {
    Join(RowCells(r, timeText, floatText), ";") + "\n"
  }

  function CsvLines(s: seq<Row>, timeText: nat -> string, floatText: real -> string): (ls: seq<string>)
    ensures |ls| == |s|
    ensures forall i :: 0 <= i < |s| ==> ls[i] == CsvLine(s[i], timeText, floatText)
  {
    if s == [] then [] else [CsvLine(s[0], timeText, floatText)] + CsvLines(s[1..], timeText, floatText)
  }

  /** `api_export_csv`: the header, then one line per raw row of the last 24
      hours in time order. No query parameter is read. */
  function ExportCsv(rows: seq<Row>, now: nat, timeText: nat -> string, floatText: real -> string)
    : (lines: seq<string>)
    ensures |lines| == 1 + |Window(rows, now - 24 * 3600)|
    ensures lines[0] == HeaderLine
    ensures exists s :: SortedByTime(s) && multiset(s) == multiset(Window(rows, now - 24 * 3600)) &&
                        lines[1..] == CsvLines(s, timeText, floatText)
  {
    var s := RawSeries(rows, now - 24 * 3600);
    assert |multiset(s)| == |multiset(Window(rows, now - 24 * 3600))|;
    var lines := [HeaderLine] + CsvLines(s, timeText, floatText);
    assert lines[1..] == CsvLines(s, timeText, floatText);
    lines
  }

  /** The header splits back into its eight titles. */
  lemma HeaderFields()
    ensures Split(HeaderLine[..|HeaderLine| - 1], ';') == Header && |Header| == 8
  {
    var h := Header;
    assert HeaderLine == Join(h, ";") + "\n";
    assert HeaderLine[..|HeaderLine| - 1] == Join(h, ";");
    assert forall k :: 0 <= k < |h| ==> ';' !in h[k];
    JoinSplit(h, ';');
  }

  /** When neither the time text nor the text of a float holds ';', every
      data line (without its newline) splits into exactly eight fields, the
      cells themselves. */
  lemma EightFields(r: Row, timeText: nat -> string, floatText: real -> string)
    requires ';' !in timeText(Time(r))
    requires forall x :: ';' !in floatText(x)
    ensures |RowCells(r, timeText, floatText)| == 8
    ensures Split(Join(RowCells(r, timeText, floatText), ";"), ';') == RowCells(r, timeText, floatText)
  {
    var vs, cs := CsvValues(r, timeText), RowCells(r, timeText, floatText);
    forall k | 0 <= k < |cs| ensures ';' !in cs[k] {
      assert cs[k] == Str(vs[k], floatText);
      if k > 0 {
        assert vs[k].PyNone? || vs[k].PyFloat?;
        assert "None" == ['N', 'o', 'n', 'e'];
      }
    }
    JoinSplit(cs, ';');
  }
}
