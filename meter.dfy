/** The meter side of the collector: one JSON snapshot from the HomeWizard P1
    meter (`GET /api/v1/data`), Python truthiness of its values, and the
    `a or b or c` chains the collectors use to pick one of several firmware
    key names for the same logical field. */
module Meter {

  datatype Option<+T> = None | Some(value: T)

  /** A decoded JSON object: a key that is present maps to a number or to
      JSON `null` (None). A key that is absent is simply not in the map. */
  type Reading = map<string, Option<real>>

  /** `data.get(key)`: None both for an absent key and for a JSON null. */
  function Get(data: Reading, key: string): (v: Option<real>)
    ensures key !in data ==> v == None
    ensures key in data ==> v == data[key]
  {
    if key in data then data[key] else None
  }

  /** Python truthiness of a nullable number: None and 0 / 0.0 are falsy. */
  predicate Truthy(v: Option<real>)
  {
    v.Some? && v.value != 0.0
  }

  /** `data.get(k0) or data.get(k1) or ...`: the first truthy candidate, and
      when none is truthy, whatever the LAST candidate holds. */
  function Resolve(data: Reading, keys: seq<string>): (r: Option<real>)
    requires |keys| > 0
    ensures (exists i :: 0 <= i < |keys| && Truthy(Get(data, keys[i]))) ==>
              Truthy(r) &&
              exists i :: 0 <= i < |keys| && r == Get(data, keys[i]) &&
                          forall j :: 0 <= j < i ==> !Truthy(Get(data, keys[j]))
    ensures (forall i :: 0 <= i < |keys| ==> !Truthy(Get(data, keys[i]))) ==>
              r == Get(data, keys[|keys| - 1])
  {
    if |keys| == 1 || Truthy(Get(data, keys[0])) then Get(data, keys[0])
    else
      var rest := Resolve(data, keys[1..]);
      assert forall i :: 1 <= i < |keys| ==> keys[i] == keys[1..][i - 1];
      rest
  }

  /** `data.get(k0) or data.get(k1)`. */
  lemma ResolvePair(data: Reading, k0: string, k1: string)
    ensures Resolve(data, [k0, k1]) ==
              if Truthy(Get(data, k0)) then Get(data, k0) else Get(data, k1)
  {
    assert [k0, k1][1..] == [k1];
  }

  /** `data.get(k0) or data.get(k1) or data.get(k2)`. */
  lemma ResolveTriple(data: Reading, k0: string, k1: string, k2: string)
    ensures Resolve(data, [k0, k1, k2]) ==
              if Truthy(Get(data, k0)) then Get(data, k0)
              else if Truthy(Get(data, k1)) then Get(data, k1)
              else Get(data, k2)
  {
    assert [k0, k1, k2][1..] == [k1, k2];
    ResolvePair(data, k1, k2);
  }

  /** A reference rule: the first candidate that is PRESENT (not null),
      zero included; None when no candidate is present. */
  function FirstPresent(data: Reading, keys: seq<string>): (r: Option<real>)
    ensures r.Some? ==> exists i :: 0 <= i < |keys| && r == Get(data, keys[i]) &&
                                    forall j :: 0 <= j < i ==> Get(data, keys[j]).None?
    ensures r.None? <==> forall i :: 0 <= i < |keys| ==> Get(data, keys[i]).None?
  {
    if |keys| == 0 then None
    else if Get(data, keys[0]).Some? then Get(data, keys[0])
    else
      var rest := FirstPresent(data, keys[1..]);
      assert forall i :: 1 <= i < |keys| ==> keys[i] == keys[1..][i - 1];
      rest
  }

  /** The two rules agree as long as no candidate holds the number 0. */
  lemma {:induction false} ResolveIsFirstPresentWithoutZeros(data: Reading, keys: seq<string>)
    requires |keys| > 0
    requires forall i :: 0 <= i < |keys| ==> Get(data, keys[i]) != Some(0.0)
    ensures Resolve(data, keys) == FirstPresent(data, keys)
  {
    if |keys| > 1 && !Truthy(Get(data, keys[0])) {
      assert forall i :: 1 <= i < |keys| ==> keys[i] == keys[1..][i - 1];
      ResolveIsFirstPresentWithoutZeros(data, keys[1..]);
    }
  }

  /** A present zero is not kept: it falls through to the next candidate,
      and a zero reading with an absent fallback key comes out as null. */
  lemma ZeroFallsThrough(k0: string, k1: string)
    requires k0 != k1
    ensures Resolve(map[k0 := Some(0.0)], [k0, k1]) == None
    ensures FirstPresent(map[k0 := Some(0.0)], [k0, k1]) == Some(0.0)
    ensures Resolve(map[k0 := Some(0.0), k1 := Some(5.0)], [k0, k1]) == Some(5.0)
  {
  }

  /** `sum(v for v in vs if isinstance(v, (int, float)))`: nulls count for
      nothing, and a list without a number sums to 0. */
  function SumOfNumbers(vs: seq<Option<real>>): (s: real)
    ensures (forall i :: 0 <= i < |vs| ==> vs[i].None?) ==> s == 0.0
    ensures (forall i :: 0 <= i < |vs| ==> vs[i].Some? ==> vs[i].value >= 0.0) ==> s >= 0.0
  {
    if vs == [] then 0.0
    else
      assert forall i :: 1 <= i < |vs| ==> vs[i] == vs[1..][i - 1];
      (if vs[0].Some? then vs[0].value else 0.0) + SumOfNumbers(vs[1..])
  }

  /** What one poll of the meter produced. `NetworkError` stands for
      everything `requests.get` raises (connection refused, timeout);
      a response carries its HTTP status and its body, which is None when
      it does not decode to a JSON object (`resp.json()` raises, or the
      top-level value has no `.get`). */
  datatype Fetch = NetworkError | Response(status: nat, body: Option<Reading>)

  /** One iteration of a collector loop as far as the outside world goes:
      what the poll produced, the time `datetime.now` returned, and whether
      the database insert raised. */
  datatype Cycle = Cycle(fetch: Fetch, now: nat, insertFails: bool)

  /** `resp.raise_for_status()`: statuses 400 to 599 raise. */
  predicate HttpError(status: nat)
  {
    400 <= status < 600
  }
}
