/** The weighted round-robin selector: one pick. */
module Select {
  import opened Wrappers
  import opened Text
  import opened Rpc

  /** `latency as u64` */
  function LatencyKey(r: Rpc): nat {
    if r.status.latency < 0.0 then 0
    else if r.status.latency.Floor >= U64_LIMIT then U64_LIMIT - 1
    else r.status.latency.Floor
  }

  /** The cast truncates, and saturates at both ends, so nodes are compared by whole nanoseconds
      except where both are below one or both are beyond the range of `u64`. */
  lemma KeysOrderByLatency(a: Rpc, b: Rpc)
    ensures LatencyKey(a) <= LatencyKey(b) <==>
            || a.status.latency < 1.0
            || b.status.latency >= (U64_LIMIT - 1) as real
            || a.status.latency.Floor <= b.status.latency.Floor
  {
  }

  /** `order` lists every number below `n` once. */
  ghost predicate IsPermutation(order: seq<nat>, n: nat) {
    && |order| == n
    && (forall j :: 0 <= j < n ==> order[j] < n)
    && (forall j, k :: 0 <= j < k < n ==> order[j] != order[k])
    && (forall i :: 0 <= i < n ==> i in order)
  }

  ghost predicate Ascending(order: seq<nat>, keys: seq<nat>)
    requires forall j :: 0 <= j < |order| ==> order[j] < |keys|
  {
    forall j, k :: 0 <= j < k < |order| ==> keys[order[j]] <= keys[order[k]]
  }

  function LatencyKeys(list: seq<Rpc>): seq<nat> {
    seq(|list|, i requires 0 <= i < |list| => LatencyKey(list[i]))
  }

  /** `order` lists every position of the list once, fastest first. */
  ghost predicate IsOrder(order: seq<nat>, list: seq<Rpc>) {
    IsPermutation(order, |list|) && Ascending(order, LatencyKeys(list))
  }

  /** `saturating_sub` */
  function Since(time: nat, earlier: nat): nat {
    if time >= earlier then time - earlier else 0
  }

  predicate Eligible(r: Rpc, time: nat) {
    r.maxConsecutive > r.consecutive && Since(time, r.lastUsed) > r.minTimeDelta
  }

  /** The first position in the order whose node may be used now. */
  function FirstEligible(list: seq<Rpc>, order: seq<nat>, time: nat): (c: Option<nat>)
    requires forall j :: 0 <= j < |order| ==> order[j] < |list|
    ensures c.Some? ==> c.value in order && Eligible(list[c.value], time)
    ensures c.None? ==> forall i :: i in order ==> !Eligible(list[i], time)
  {
    if order == [] then None
    else if Eligible(list[order[0]], time) then Some(order[0])
    else FirstEligible(list, order[1..], time)
  }

  /** The first eligible node in latency order, or else the fastest. */
  function Choice(list: seq<Rpc>, order: seq<nat>, time: nat): (c: nat)
    requires order != [] && forall j :: 0 <= j < |order| ==> order[j] < |list|
    ensures c < |list|
  {
    FirstOr(list, order, time, order[0])
  }

  function FirstOr(list: seq<Rpc>, order: seq<nat>, time: nat, fallback: nat): nat
    requires forall j :: 0 <= j < |order| ==> order[j] < |list|
  {
    match FirstEligible(list, order, time)
    case Some(c) => c
    case None => fallback
  }

  /** The counter the chosen node goes on from. */
  function StreakOf(list: seq<Rpc>, order: seq<nat>, time: nat): nat
    requires forall j :: 0 <= j < |order| ==> order[j] < |list|
  {
    match FirstEligible(list, order, time)
    case Some(c) => list[c].consecutive
    case None => 0
  }

  /** The list after a pick: the counter of the chosen node goes on, or starts over if it is the
      fallback, and every other counter is reset. */
  function Picked(list: seq<Rpc>, order: seq<nat>, time: nat): (after: seq<Rpc>)
    requires order != [] && forall j :: 0 <= j < |order| ==> order[j] < |list|
    ensures |after| == |list|
    ensures forall i :: 0 <= i < |list| ==>
              after[i] == list[i].(consecutive := after[i].consecutive, lastUsed := after[i].lastUsed)
  {
    seq(|list|, i requires 0 <= i < |list| =>
      if i == Choice(list, order, time)
      then list[i].(consecutive := StreakOf(list, order, time) + 1, lastUsed := time)
      else list[i].(consecutive := 0))
  }

  lemma PickedIs(list: seq<Rpc>, order: seq<nat>, time: nat, after: seq<Rpc>)
    requires order != [] && (forall j :: 0 <= j < |order| ==> order[j] < |list|)
    requires |after| == |list|
    requires forall i :: 0 <= i < |list| ==>
               after[i] == if i == Choice(list, order, time)
                           then list[i].(consecutive := StreakOf(list, order, time) + 1, lastUsed := time)
                           else list[i].(consecutive := 0)
    ensures after == Picked(list, order, time)
  {
  }

  function InsertAt(indices: seq<nat>, at: nat, n: nat): seq<nat>
    requires at <= |indices|
  {
    indices[..at] + [n] + indices[at..]
  }

  lemma InsertKeepsPermutation(indices: seq<nat>, at: nat)
    requires IsPermutation(indices, |indices|) && at <= |indices|
    ensures IsPermutation(InsertAt(indices, at, |indices|), |indices| + 1)
  {
    var n := |indices|;
    var longer := InsertAt(indices, at, n);
    forall i | 0 <= i < n + 1
      ensures i in longer
    {
      if i < n {
        assert indices == indices[..at] + indices[at..];
        assert i in indices;
      } else {
        assert longer[at] == n;
      }
    }
  }

  lemma InsertKeepsAscending(indices: seq<nat>, keys: seq<nat>, at: nat, n: nat)
    requires at <= |indices| && n < |keys| && forall j :: 0 <= j < |indices| ==> indices[j] < |keys|
    requires Ascending(indices, keys)
    requires forall j :: 0 <= j < at ==> keys[indices[j]] <= keys[n]
    requires forall j :: at <= j < |indices| ==> keys[n] <= keys[indices[j]]
    ensures forall j :: 0 <= j < |InsertAt(indices, at, n)| ==> InsertAt(indices, at, n)[j] < |keys|
    ensures Ascending(InsertAt(indices, at, n), keys)
  {
  }

  /** An index vector sorted by key; ties may come in any order. */
  method SortByKey(keys: seq<nat>) returns (indices: seq<nat>)
    ensures IsPermutation(indices, |keys|) && Ascending(indices, keys)
  {
    indices := [];
    for n := 0 to |keys|
      invariant IsPermutation(indices, n) && Ascending(indices, keys)
    {
      var at := n;
      while at > 0 && keys[n] < keys[indices[at - 1]]
        invariant 0 <= at <= n
        invariant forall k :: at <= k < n ==> keys[n] < keys[indices[k]]
      {
        at := at - 1;
      }
      InsertKeepsPermutation(indices, at);
      InsertKeepsAscending(indices, keys, at, n);
      indices := InsertAt(indices, at, n);
    }
  }

  method ArgSort(data: seq<Rpc>) returns (indices: seq<nat>)
    ensures IsOrder(indices, data)
    ensures forall j, k :: 0 <= j < k < |indices| ==>
              || data[indices[j]].status.latency < 1.0
              || data[indices[k]].status.latency >= (U64_LIMIT - 1) as real
              || data[indices[j]].status.latency.Floor <= data[indices[k]].status.latency.Floor
  {
    indices := SortByKey(LatencyKeys(data));
    forall j, k | 0 <= j < k < |indices|
      ensures data[indices[j]].status.latency < 1.0 || data[indices[k]].status.latency >= (U64_LIMIT - 1) as real
        || data[indices[j]].status.latency.Floor <= data[indices[k]].status.latency.Floor
    {
      KeysOrderByLatency(data[indices[j]], data[indices[k]]);
    }
  }

  /** The scan in reverse latency order, overwriting the choice and resetting counters in place. */
  method Scan(list: array<Rpc>, indices: seq<nat>, time: nat) returns (choice: nat, choiceConsecutive: nat)
    requires IsPermutation(indices, list.Length) && list.Length >= 1
    modifies list
    ensures choice < list.Length
    ensures choice == FirstOr(old(list[..]), indices, time, indices[0])
    ensures choiceConsecutive == StreakOf(old(list[..]), indices, time)
    ensures forall i :: 0 <= i < list.Length ==> list[i] == old(list[i]).(consecutive := 0)
  {
    hide FirstOr, StreakOf;
    ghost var before := list[..];
    choice, choiceConsecutive := indices[0], 0;
    ScanNothing(before, time, indices[0]);
    assert indices[|indices|..] == [];
    for j := |indices| downto 0
      invariant choice < list.Length
      invariant forall k :: j <= k < |indices| ==> list[indices[k]] == before[indices[k]].(consecutive := 0)
      invariant forall k :: 0 <= k < j ==> list[indices[k]] == before[indices[k]]
      invariant choice == FirstOr(before, indices[j..], time, indices[0])
      invariant choiceConsecutive == StreakOf(before, indices[j..], time)
    {
      var i := indices[j];
      ScanOneMore(before, indices, j, time, indices[0]);
      if list[i].maxConsecutive > list[i].consecutive && Since(time, list[i].lastUsed) > list[i].minTimeDelta {
        choice, choiceConsecutive := i, list[i].consecutive;
      }
      list[i] := list[i].(consecutive := 0);
    }
    assert indices[0..] == indices;
    forall i | 0 <= i < list.Length
      ensures list[i] == before[i].(consecutive := 0)
    {
      assert i in indices;
    }
  }

  lemma ScanNothing(list: seq<Rpc>, time: nat, fallback: nat)
    ensures FirstOr(list, [], time, fallback) == fallback && StreakOf(list, [], time) == 0
  {
  }

  /** What one more node at the front of the order changes. */
  lemma ScanOneMore(list: seq<Rpc>, order: seq<nat>, j: nat, time: nat, fallback: nat)
    requires j < |order| && forall k :: 0 <= k < |order| ==> order[k] < |list|
    ensures var chosen := Eligible(list[order[j]], time);
            && FirstOr(list, order[j..], time, fallback)
               == (if chosen then order[j] else FirstOr(list, order[j + 1..], time, fallback))
            && StreakOf(list, order[j..], time)
               == (if chosen then list[order[j]].consecutive else StreakOf(list, order[j + 1..], time))
  {
    assert order[j..][0] == order[j] && order[j..][1..] == order[j + 1..];
  }

  method Algo(list: array<Rpc>, time: nat) returns (rpc: Rpc, position: Option<nat>, ghost order: seq<nat>)
    requires list.Length >= 1
    modifies list
    ensures IsOrder(order, old(list[..]))
    ensures list[..] == Picked(old(list[..]), order, time)
    ensures position == Some(Choice(old(list[..]), order, time)) && rpc == list[position.value]
  {
    hide LatencyKey, Ascending, Picked, FirstOr, StreakOf;
    ghost var before := list[..];
    var indices := ArgSort(list[..]);
    order := indices;
    var choice, choiceConsecutive := Scan(list, indices, time);
    list[choice] := list[choice].(consecutive := choiceConsecutive + 1, lastUsed := time);
    rpc, position := list[choice], Some(choice);
    PickedIs(before, order, time, list[..]);
  }

  /** The entry point: one element bypasses the counters, none gives no position. */
  method Pick(list: array<Rpc>, time: nat) returns (rpc: Option<Rpc>, position: Option<nat>, ghost order: seq<nat>)
    modifies list
    ensures list.Length == 0 ==> rpc == None && position == None
    ensures list.Length == 1 ==>
              list[..] == old(list[..]) && rpc == Some(list[0]) && position == Some(0) && order == []
    ensures list.Length >= 2 ==>
              && IsOrder(order, old(list[..]))
              && list[..] == Picked(old(list[..]), order, time)
              && position == Some(Choice(old(list[..]), order, time))
              && rpc == Some(list[position.value])
  {
    order := [];
    if list.Length == 1 {
      return Some(list[0]), Some(0), [];
    } else if list.Length == 0 {
      return None, None, [];
    }
    var chosen;
    chosen, position, order := Algo(list, time);
    rpc := Some(chosen);
  }

  // ---------------------------------------------------------------------------
  // What one pick guarantees

  ghost predicate OneCounter(list: seq<Rpc>) {
    forall i, j :: 0 <= i < j < |list| ==> list[i].consecutive == 0 || list[j].consecutive == 0
  }

  /** A pick leaves exactly one nonzero counter, that of its choice, and no counter above its
      limit, or above 1 for the fallback; so the increment never overflows. The counter of the choice
      goes on if it may be used and starts over if it is the fallback, and only its last use moves. */
  lemma PickLeavesOneCounter(list: seq<Rpc>, order: seq<nat>, time: nat)
    requires IsOrder(order, list) && list != []
    ensures var after := Picked(list, order, time);
            && OneCounter(after)
            && (forall i :: 0 <= i < |after| ==> (after[i].consecutive != 0 <==> i == Choice(list, order, time)))
            && (forall i :: 0 <= i < |after| ==>
                  after[i].consecutive <= if after[i].maxConsecutive > 1 then after[i].maxConsecutive else 1)
            && (forall i :: 0 <= i < |after| ==>
                  var streak := if MayBeUsed(list[i], time) then list[i].consecutive else 0;
                  after[i] == if i == Choice(list, order, time)
                              then list[i].(consecutive := streak + 1, lastUsed := time)
                              else list[i].(consecutive := 0))
  {
    assert forall i :: 0 <= i < |list| ==> i in order;
  }

  /** The streak of the node is not used up, and its last use is far enough back. */
  ghost predicate MayBeUsed(r: Rpc, time: nat) {
    r.consecutive < r.maxConsecutive && r.lastUsed + r.minTimeDelta < time
  }

  /** The choice is a node that may be used now if there is any. No node that may be used, or no node
      at all if none may be, is faster by a whole nanosecond in the range of `u64`. */
  lemma ChoiceIsFastest(list: seq<Rpc>, order: seq<nat>, time: nat)
    requires IsOrder(order, list) && list != []
    ensures var c := Choice(list, order, time);
            && (MayBeUsed(list[c], time) <==> exists i :: 0 <= i < |list| && MayBeUsed(list[i], time))
            && (forall i :: 0 <= i < |list| && (MayBeUsed(list[c], time) ==> MayBeUsed(list[i], time)) ==>
                  || list[c].status.latency < 1.0
                  || list[i].status.latency >= (U64_LIMIT - 1) as real
                  || list[c].status.latency.Floor <= list[i].status.latency.Floor)
  {
    var c := Choice(list, order, time);
    ChoiceHasLeastKey(list, order, time);
    hide IsOrder, LatencyKey, Choice;
    forall r: Rpc
      ensures MayBeUsed(r, time) <==> Eligible(r, time)
    {
    }
    forall i | 0 <= i < |list| && (MayBeUsed(list[c], time) ==> MayBeUsed(list[i], time))
      ensures list[c].status.latency < 1.0 || list[i].status.latency >= (U64_LIMIT - 1) as real
        || list[c].status.latency.Floor <= list[i].status.latency.Floor
    {
      KeysOrderByLatency(list[c], list[i]);
    }
  }

  lemma ChoiceHasLeastKey(list: seq<Rpc>, order: seq<nat>, time: nat)
    requires IsOrder(order, list) && list != []
    ensures var c := Choice(list, order, time);
            && (Eligible(list[c], time) <==> exists i :: 0 <= i < |list| && Eligible(list[i], time))
            && (forall i :: 0 <= i < |list| && (Eligible(list[c], time) ==> Eligible(list[i], time)) ==>
                  LatencyKey(list[c]) <= LatencyKey(list[i]))
  {
    hide LatencyKey;
    var c := Choice(list, order, time);
    var k := 0;
    if FirstEligible(list, order, time).Some? {
      k := FirstEligibleIsFirst(list, order, time);
    }
    forall i | 0 <= i < |list| && (Eligible(list[c], time) ==> Eligible(list[i], time))
      ensures LatencyKey(list[c]) <= LatencyKey(list[i])
    {
      assert i in order;
      var j :| 0 <= j < |order| && order[j] == i;
      assert LatencyKeys(list)[order[k]] == LatencyKey(list[c]) && LatencyKeys(list)[order[j]] == LatencyKey(list[i]);
    }
    assert forall i :: 0 <= i < |list| ==> i in order;
  }

  /** Where in the order the first eligible node is. */
  lemma {:induction false} FirstEligibleIsFirst(list: seq<Rpc>, order: seq<nat>, time: nat) returns (k: nat)
    requires forall j :: 0 <= j < |order| ==> order[j] < |list|
    requires FirstEligible(list, order, time).Some?
    ensures k < |order| && order[k] == FirstEligible(list, order, time).value
    ensures forall j :: 0 <= j < k ==> !Eligible(list[order[j]], time)
  {
    k := 0;
    if !Eligible(list[order[0]], time) {
      k := FirstEligibleIsFirst(list, order[1..], time);
      forall j | 0 < j < k + 1
        ensures !Eligible(list[order[j]], time)
      {
        assert order[j] == order[1..][j - 1];
      }
      k := k + 1;
    }
  }

  /** Among at least two nodes with one nonzero counter, positive limits and elapsed windows, some
      node is eligible. */
  lemma SomeoneIsEligible(list: seq<Rpc>, order: seq<nat>, time: nat)
    requires IsOrder(order, list) && |list| >= 2 && OneCounter(list)
    requires forall i :: 0 <= i < |list| ==> list[i].maxConsecutive >= 1
    requires forall i :: 0 <= i < |list| ==> Since(time, list[i].lastUsed) > list[i].minTimeDelta
    ensures FirstEligible(list, order, time).Some?
  {
    var free := if list[0].consecutive == 0 then 0 else 1;
    assert free in order && Eligible(list[free], time);
  }
}
