/** Where the four programs agree and where they part: the key each one
    prefers, the enrichment rule for a missing phase, the two full-queue
    policies, the probe's total current and its handling of a bad poll. */
module Variants {
  import opened Meter
  import opened Points
  import opened Store
  import Collector
  import Server
  import ServerOld
  import Server2Old
  import ProbeCli

  // =====================================================================
  // Firmware keys

  /** The probe resolves voltages and the imported energy exactly as the
      first collector does: the same candidates in the same order. */
  lemma ProbeResolvesLikeOldCollector(data: Reading, now: nat)
    ensures ProbeCli.Voltage(data, 1) == ServerOld.CollectorRow(data, now).voltageL1V
    ensures ProbeCli.Voltage(data, 2) == ServerOld.CollectorRow(data, now).voltageL2V
    ensures ProbeCli.Voltage(data, 3) == ServerOld.CollectorRow(data, now).voltageL3V
    ensures ProbeCli.Import(data) == ServerOld.CollectorRow(data, now).totalImportKwh
  {
    assert ProbeCli.VoltageKeys(1) == ServerOld.VoltageL1Keys;
    assert ProbeCli.VoltageKeys(2) == ServerOld.VoltageL2Keys;
    assert ProbeCli.VoltageKeys(3) == ServerOld.VoltageL3Keys;
    assert ProbeCli.ImportKeys == ServerOld.ImportKeys;
  }

  /** The current collector asks for the newer voltage key first and the
      first collector for the older one, so a meter that reports both, with
      different values, is stored differently by the two. */
  lemma VoltageOrderDiffers(now: nat)
    ensures var data := map["voltage_l1_v" := Some(229.0), "active_voltage_l1_v" := Some(231.0)];
            ServerOld.CollectorRow(data, now).voltageL1V == Some(229.0) &&
            Server.CollectorRow(data, now).voltageL1V == Some(231.0)
  {
    var data := map["voltage_l1_v" := Some(229.0), "active_voltage_l1_v" := Some(231.0)];
    assert Get(data, "voltage_l1_v") == Some(229.0);
    assert Get(data, "active_voltage_l1_v") == Some(231.0);
  }

  /** The single-key collector of p1-server2-old.py stores the same row as
      p1-server.py exactly when, for each field with a fallback, the newer
      key is truthy or the older key holds the same value. */
  lemma SingleKeysAgreeIff(data: Reading, now: nat)
    ensures Server.CollectorRow(data, now) == Server2Old.CollectorRow(data, now) <==>
              (Truthy(Get(data, "total_power_import_kwh")) ||
                 Get(data, "total_import_kwh") == Get(data, "total_power_import_kwh")) &&
              (Truthy(Get(data, "active_voltage_l1_v")) ||
                 Get(data, "voltage_l1_v") == Get(data, "active_voltage_l1_v")) &&
              (Truthy(Get(data, "active_voltage_l2_v")) ||
                 Get(data, "voltage_l2_v") == Get(data, "active_voltage_l2_v")) &&
              (Truthy(Get(data, "active_voltage_l3_v")) ||
                 Get(data, "voltage_l3_v") == Get(data, "active_voltage_l3_v"))
  {
    var a, b := Server.CollectorRow(data, now), Server2Old.CollectorRow(data, now);
    assert a == b <==>
             a.totalImportKwh == b.totalImportKwh && a.voltageL1V == b.voltageL1V &&
             a.voltageL2V == b.voltageL2V && a.voltageL3V == b.voltageL3V;
  }

  // =====================================================================
  // Enrichment

  /** With all three phase currents present the two enrichment rules give
      the same imbalance and the same percentage. */
  lemma ImbalanceAgreesWithAllPhases(p: Dict)
    requires ServerOld.AllPhases(p)
    ensures ServerOld.WithImbalance(p)[ImbalanceA] == Server.ExtraFields(p)[ImbalanceA]
    ensures ServerOld.WithImbalance(p)[ImbalancePct] == Server.ExtraFields(p)[ImbalancePct]
  {
    Server.ExtraFieldsImbalance(p);
    Server.ExtraFieldsPct(p);
    var a, b, c := Field(p, CurrentL1A).value, Field(p, CurrentL2A).value, Field(p, CurrentL3A).value;
    assert Server.Current(p, CurrentL1A) == a;
    assert Server.Current(p, CurrentL2A) == b;
    assert Server.Current(p, CurrentL3A) == c;
  }

  /** With a phase missing they part: the first collector reports no
      imbalance, the later ones treat the phase as 0. */
  lemma MissingPhaseDiffers()
    ensures var p := map[CurrentL1A := Some(5.0)];
            ServerOld.WithImbalance(p)[ImbalanceA] == None &&
            Server.ExtraFields(p)[ImbalanceA] == Some(5.0) &&
            Server.ExtraFields(p)[ImbalancePct] == Some(100.0)
  {
    var p := map[CurrentL1A := Some(5.0)];
    assert Field(p, CurrentL2A) == None;
    assert !ServerOld.AllPhases(p);
    Server.ExtraFieldsImbalance(p);
    Server.ExtraFieldsPct(p);
    assert Server.Current(p, CurrentL1A) == 5.0;
    assert Server.Current(p, CurrentL2A) == 0.0;
    assert Server.Current(p, CurrentL3A) == 0.0;
    assert Max3(5.0, 0.0, 0.0) == 5.0 && Min3(5.0, 0.0, 0.0) == 0.0;
  }

  // =====================================================================
  // Totals

  /** The probe's summed current is the collectors' `total_current_a`
      (nulls as 0) whenever some phase current is present; with none present
      the probe has no total at all. */
  lemma ProbeTotalIsCollectorTotal(i1: Option<real>, i2: Option<real>, i3: Option<real>)
    ensures ProbeCli.TotalCurrent(i1, i2, i3).Some? ==>
              ProbeCli.TotalCurrent(i1, i2, i3).value == Server.CoalesceSum(i1, i2, i3)
    ensures ProbeCli.TotalCurrent(i1, i2, i3).None? <==> i1.None? && i2.None? && i3.None?
  {
    var vs := [i1, i2, i3];
    assert vs[1..] == [i2, i3] && vs[1..][1..] == [i3] && vs[1..][1..][1..] == [];
    assert SumOfNumbers([i3]) == Coalesce(i3);
    assert SumOfNumbers([i2, i3]) == Coalesce(i2) + Coalesce(i3);
  }

  // =====================================================================
  // Fetching

  /** The probe gets a snapshot exactly when a collector that checks the
      status would, and the same one, whichever `requests` is installed. */
  lemma ProbeFetchIsCheckedFetch(f: Fetch, jsonErrorIsRequestError: bool)
    ensures ProbeCli.GetData(f, jsonErrorIsRequestError).Data? <==> Collector.Fetched(f, true).Some?
    ensures ProbeCli.GetData(f, jsonErrorIsRequestError).Data? ==>
              Collector.Fetched(f, true) == Some(ProbeCli.GetData(f, jsonErrorIsRequestError).d)
  {
  }

  // =====================================================================
  // The hours of the series endpoint

  /** The first server's `hours` and the later servers' `hours` differ
      exactly on an integer outside [1, 744], the values only the first
      server clamps; a missing or unparsable value is 1 in all of them. */
  lemma HoursRulesDiffer(a: HoursArg)
    ensures Server.SeriesHours(a) != ServerOld.SeriesHours(a) <==> a.Given? && !(1 <= a.n <= 744)
  {
  }

  /** Every window the first server's clamp lets through is one the later
      servers answer without an OverflowError, at any time `datetime.now`
      can return. */
  lemma ClampedHoursNeverOverflow(rows: seq<Row>, a: HoursArg, now: nat)
    requires now <= Server.MaxDatetime
    ensures Server.ApiSeries(rows, Given(ServerOld.SeriesHours(a)), now).Some?
  {
  }

  // =====================================================================
  // Full queues

  /** The two full-queue policies agree while everything fits. Once it does
      not, evicting keeps the OLDEST messages that fit and unregisters the
      client, while dropping the oldest keeps the NEWEST `maxsize` and keeps
      the client. */
  lemma FullQueuePolicies<T>(items: seq<T>, msgs: seq<T>, maxsize: nat)
    requires 0 < maxsize && |items| <= maxsize
    ensures Server.Survives(items, msgs, maxsize) <==> |items| + |msgs| <= maxsize
    ensures |items| + |msgs| <= maxsize ==>
              Server.Deliver(items, msgs, maxsize) == items + msgs &&
              ServerOld.PublishAll(items, msgs, maxsize) == items + msgs
    ensures |items| + |msgs| > maxsize ==>
              Server.Deliver(items, msgs, maxsize) == (items + msgs)[..maxsize] &&
              ServerOld.PublishAll(items, msgs, maxsize) == (items + msgs)[|items| + |msgs| - maxsize..]
  {
    Server.EvictKeepsOldest(items, msgs, maxsize);
    ServerOld.DropOldestKeepsNewest(items, msgs, maxsize);
    var room := maxsize - |items|;
    if |msgs| <= room {
      assert msgs[..|msgs|] == msgs;
    } else {
      assert items + msgs[..room] == (items + msgs)[..maxsize];
    }
  }
}
