/** An upstream node and the moving average of its latency. Floating point numbers are modelled
    as reals. */
module Rpc {
  import opened Wrappers

  datatype Status = Status(isErroring: bool, latency: real, latencyData: seq<real>, maLength: real)

  datatype Rpc = Rpc(
    id: nat, name: string, status: Status,
    maxConsecutive: nat, consecutive: nat,
    lastUsed: nat, minTimeDelta: nat)

  /** `ma_length as usize` */
  function WindowLength(s: Status): nat {
    if s.maLength < 0.0 then 0 else s.maLength.Floor
  }

  function Sum(data: seq<real>): real {
    if data == [] then 0.0 else Sum(data[..|data| - 1]) + data[|data| - 1]
  }

  function Mean(data: seq<real>): real
    requires data != []
  {
    Sum(data) / |data| as real
  }

  /** `Rpc::update_latency`. Removing the oldest sample of an empty window panics, so a window of
      no samples is excluded. */
  function UpdateLatency(s: Status, latest: real): Status
    requires WindowLength(s) >= 1
  {
    var kept := if |s.latencyData| >= WindowLength(s) then s.latencyData[1..] else s.latencyData;
    s.(latencyData := kept + [latest], latency := Mean(kept + [latest]))
  }

  function UpdateAll(s: Status, samples: seq<real>): (r: Status)
    requires WindowLength(s) >= 1
    ensures WindowLength(r) == WindowLength(s)
  {
    if samples == [] then s
    else UpdateLatency(UpdateAll(s, samples[..|samples| - 1]), samples[|samples| - 1])
  }

  /** The last `n` elements, or all if there are fewer. */
  function LastOf<T>(data: seq<T>, n: nat): seq<T> {
    if |data| <= n then data else data[|data| - n..]
  }

  ghost predicate Within(data: seq<real>, lo: real, hi: real) {
    forall i :: 0 <= i < |data| ==> lo <= data[i] <= hi
  }

  lemma {:induction false} SumIsBetween(data: seq<real>, lo: real, hi: real)
    requires Within(data, lo, hi)
    ensures lo * |data| as real <= Sum(data) <= hi * |data| as real
  {
    if data != [] {
      var init := data[..|data| - 1];
      SumIsBetween(init, lo, hi);
      MulNext(lo, |init| as real);
      MulNext(hi, |init| as real);
      assert |data| as real == |init| as real + 1.0;
      assert lo <= data[|init|] <= hi;
    }
  }

  lemma MulNext(x: real, n: real)
    ensures x * (n + 1.0) == x * n + x
  {
  }

  lemma DivideBetween(lo: real, sum: real, hi: real, n: real)
    requires n > 0.0 && lo * n <= sum <= hi * n
    ensures lo <= sum / n <= hi
  {
  }

  lemma MeanIsBetween(data: seq<real>, lo: real, hi: real)
    requires data != [] && Within(data, lo, hi)
    ensures lo <= Mean(data) <= hi
  {
    SumIsBetween(data, lo, hi);
    DivideBetween(lo, Sum(data), hi, |data| as real);
  }

  lemma SlideWindow(samples: seq<real>, n: nat)
    requires samples != [] && n >= 1
    ensures var before := LastOf(samples[..|samples| - 1], n);
            (if |before| >= n then before[1..] else before) + [samples[|samples| - 1]] == LastOf(samples, n)
  {
  }

  /** After any run of updates of a fresh window the samples kept are exactly the last ones, and
      the latency is their mean. */
  lemma {:induction false} WindowIsExact(s: Status, samples: seq<real>, n: nat)
    requires s.latencyData == [] && n >= 1 && n as real <= s.maLength < n as real + 1.0
    ensures WindowLength(s) == n
    ensures UpdateAll(s, samples).latencyData == LastOf(samples, n)
    ensures samples != [] ==> UpdateAll(s, samples).latency == Mean(LastOf(samples, n))
  {
    hide Mean, LastOf;
    if samples == [] {
      LastOfNothing(n);
    } else {
      WindowIsExact(s, samples[..|samples| - 1], n);
      SlideWindow(samples, n);
    }
  }

  /** What the sum of samples is. */
  lemma {:induction false} SumIsAdditive(a: seq<real>, b: seq<real>)
    ensures Sum(a + b) == Sum(a) + Sum(b)
    ensures b != [] ==> Sum([b[0]]) == b[0]
  {
    if b == [] {
      assert a + b == a;
    } else {
      var init := b[..|b| - 1];
      SumIsAdditive(a, init);
      assert (a + b)[..|a + b| - 1] == a + init;
      assert [b[0]][..0] == [];
    }
  }

  /** The latency is the sum of the samples kept over their number. */
  lemma LatencyIsMean(s: Status, samples: seq<real>, n: nat)
    requires s.latencyData == [] && n >= 1 && n as real <= s.maLength < n as real + 1.0 && samples != []
    ensures var kept := if |samples| <= n then samples else samples[|samples| - n..];
            UpdateAll(s, samples).latency == Sum(kept) / |kept| as real
  {
    hide UpdateAll, Sum;
    WindowIsExact(s, samples, n);
  }

  lemma LastOfNothing(n: nat)
    ensures LastOf<real>([], n) == []
  {
  }

  /** The latency lies between any bounds of the samples kept. */
  lemma LatencyIsBetween(s: Status, samples: seq<real>, n: nat, lo: real, hi: real)
    requires s.latencyData == [] && n >= 1 && n as real <= s.maLength < n as real + 1.0 && samples != []
    requires Within(LastOf(samples, n), lo, hi)
    ensures lo <= UpdateAll(s, samples).latency <= hi
  {
    WindowIsExact(s, samples, n);
    assert LastOf(samples, n) != [];
    hide UpdateAll, Mean, LastOf;
    MeanIsBetween(LastOf(samples, n), lo, hi);
  }

  // ---------------------------------------------------------------------------
  // The list of nodes

  /** The first position of an id. */
  function PositionOf(list: seq<Rpc>, id: nat): Option<nat> {
    if list == [] then None
    else if list[0].id == id then Some(0)
    else
      match PositionOf(list[1..], id)
      case Some(i) => Some(i + 1)
      case None => None
  }

  lemma {:induction false} PositionOfIsFirst(list: seq<Rpc>, id: nat)
    ensures match PositionOf(list, id)
            case Some(i) => i < |list| && list[i].id == id && (forall j :: 0 <= j < i ==> list[j].id != id)
            case None => forall j :: 0 <= j < |list| ==> list[j].id != id
  {
    if list != [] && list[0].id != id {
      PositionOfIsFirst(list[1..], id);
      forall j | 0 < j < |list|
        ensures list[j] == list[1..][j - 1]
      {
      }
    }
  }

  /** Every node keeps at least one sample. */
  predicate HasWindows(list: seq<Rpc>) {
    forall i :: 0 <= i < |list| ==> WindowLength(list[i].status) >= 1
  }

  /** The list after the node with the given id, if it is still there, took `nanos` to answer. */
  function Charged(list: seq<Rpc>, id: nat, nanos: real): (charged: seq<Rpc>)
    requires HasWindows(list)
    ensures |charged| == |list|
  {
    PositionOfIsFirst(list, id);
    match PositionOf(list, id)
    case Some(i) => list[i := list[i].(status := UpdateLatency(list[i].status, nanos))]
    case None => list
  }

  /** Charging a node for a request leaves everything the selector limits by alone. */
  lemma ChargingNeverResetsLimits(list: seq<Rpc>, id: nat, nanos: real)
    requires HasWindows(list)
    ensures forall i :: 0 <= i < |list| ==>
              Charged(list, id, nanos)[i] == list[i].(status := Charged(list, id, nanos)[i].status)
    ensures forall i :: 0 <= i < |list| && list[i].id != id ==> Charged(list, id, nanos)[i] == list[i]
  {
    PositionOfIsFirst(list, id);
  }

  /** A charge adds its sample to the node with the id, the first if there are several, and changes no
      other node. */
  lemma ChargeIsExact(list: seq<Rpc>, p: nat, nanos: real)
    requires HasWindows(list) && p < |list| && forall i :: 0 <= i < p ==> list[i].id != list[p].id
    ensures var data := Charged(list, list[p].id, nanos)[p].status.latencyData;
            data != [] && data[|data| - 1] == nanos
    ensures forall i :: 0 <= i < |list| && i != p ==> Charged(list, list[p].id, nanos)[i] == list[i]
  {
    PositionOfIsFirst(list, list[p].id);
  }

  method SumOf(data: seq<real>) returns (total: real)
    ensures total == Sum(data)
  {
    total := 0.0;
    for i := 0 to |data|
      invariant total == Sum(data[..i])
    {
      assert data[..i + 1][..i] == data[..i];
      total := total + data[i];
    }
    assert data[..|data|] == data;
  }

  /** `update_latency`, one step at a time. */
  method PushLatency(status: Status, latest: real) returns (updated: Status)
    requires WindowLength(status) >= 1
    ensures updated == UpdateLatency(status, latest)
  {
    updated := status;
    if |updated.latencyData| >= WindowLength(status) {
      updated := updated.(latencyData := updated.latencyData[1..]);
    }
    updated := updated.(latencyData := updated.latencyData + [latest]);
    var total := SumOf(updated.latencyData);
    updated := updated.(latency := total / |updated.latencyData| as real);
  }

  method FindById(list: array<Rpc>, id: nat) returns (position: Option<nat>)
    ensures position == PositionOf(list[..], id)
  {
    PositionOfIsFirst(list[..], id);
    for i := 0 to list.Length
      invariant forall j :: 0 <= j < i ==> list[j].id != id
    {
      if list[i].id == id {
        assert list[..][i].id == id;
        return Some(i);
      }
    }
    return None;
  }

  /** Charges the node with the given id, if it is still in the list, in place. */
  method UpdateRpcLatency(list: array<Rpc>, id: nat, nanos: real)
    requires HasWindows(list[..])
    modifies list
    ensures list[..] == Charged(old(list[..]), id, nanos)
  {
    hide UpdateLatency, PositionOf, WindowLength;
    PositionOfIsFirst(list[..], id);
    var position := FindById(list, id);
    if position.Some? {
      var status := PushLatency(list[position.value].status, nanos);
      list[position.value] := list[position.value].(status := status);
    }
  }
}
