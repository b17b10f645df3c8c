/** The health check: nodes move between the active list and the poverty list. */
module Health {
  import opened Wrappers
  import opened Rpc

  datatype HeadResult = HeadResult(rpcId: nat, isSyncing: bool, reportedHead: nat)

  datatype HealthState = Healthy | MissingRpcs | Unhealthy

  /** Both lists. */
  datatype Pool = Pool(active: seq<Rpc>, poverty: seq<Rpc>)

  // ---------------------------------------------------------------------------
  // Lists of nodes

  predicate HasId(list: seq<Rpc>, id: nat) {
    exists i :: 0 <= i < |list| && list[i].id == id
  }

  ghost predicate UniqueIds(list: seq<Rpc>) {
    forall i, j :: 0 <= i < j < |list| ==> list[i].id != list[j].id
  }

  function WithErroring(r: Rpc, erroring: bool): Rpc {
    r.(status := r.status.(isErroring := erroring))
  }

  /** `list.retain(|rpc| rpc.status.is_erroring == erroring)` */
  function Retain(list: seq<Rpc>, erroring: bool): seq<Rpc> {
    if list == [] then []
    else (if list[0].status.isErroring == erroring then [list[0]] else []) + Retain(list[1..], erroring)
  }

  // ---------------------------------------------------------------------------
  // Rounds, as functions of the lists and the reports

  function HighestHead(heads: seq<HeadResult>): (h: nat)
    ensures forall i :: 0 <= i < |heads| ==> heads[i].reportedHead <= h
    ensures h == 0 || exists i :: 0 <= i < |heads| && heads[i].reportedHead == h
  {
    if heads == [] then 0
    else
      var rest := HighestHead(heads[..|heads| - 1]);
      var last := heads[|heads| - 1].reportedHead;
      if last > rest then last else rest
  }

  predicate Delinquent(head: HeadResult, agreed: nat) {
    head.reportedHead < agreed || head.isSyncing
  }

  /** The nodes reports are against, in order; a node may come more than once. */
  function BlamedIds(heads: seq<HeadResult>, agreed: nat): seq<nat> {
    if heads == [] then []
    else
      var last := heads[|heads| - 1];
      BlamedIds(heads[..|heads| - 1], agreed) + if Delinquent(last, agreed) then [last.rpcId] else []
  }

  /** The nodes reports speak for, in order; a node may come more than once. */
  function ClearedIds(heads: seq<HeadResult>, agreed: nat): seq<nat> {
    if heads == [] then []
    else
      var last := heads[|heads| - 1];
      ClearedIds(heads[..|heads| - 1], agreed) + if Delinquent(last, agreed) then [] else [last.rpcId]
  }

  /** A node found in `from` gets its flag set there, and a copy of it is added to `to` unless its
      id is there already. */
  function MoveNode(from: seq<Rpc>, to: seq<Rpc>, id: nat, erroring: bool): (seq<Rpc>, seq<Rpc>) {
    PositionOfIsFirst(from, id);
    match PositionOf(from, id)
    case None => (from, to)
    case Some(i) =>
      var rpc := WithErroring(from[i], erroring);
      (from[i := rpc], if HasId(to, id) then to else to + [rpc])
  }

  function MoveNodes(from: seq<Rpc>, to: seq<Rpc>, ids: seq<nat>, erroring: bool): (seq<Rpc>, seq<Rpc>) {
    if ids == [] then (from, to)
    else
      var (f, t) := MoveNodes(from, to, ids[..|ids| - 1], erroring);
      MoveNode(f, t, ids[|ids| - 1], erroring)
  }

  function AfterMakePoverty(p: Pool, heads: seq<HeadResult>): Pool {
    var (active, poverty) := MoveNodes(p.active, p.poverty, BlamedIds(heads, HighestHead(heads)), true);
    Pool(Retain(active, false), poverty)
  }

  function AfterEscapePoverty(p: Pool, heads: seq<HeadResult>, agreed: nat): Pool {
    var (poverty, active) := MoveNodes(p.poverty, p.active, ClearedIds(heads, agreed), false);
    Pool(active, Retain(poverty, true))
  }

  /** The list part of `send_dropped_to_poverty`. */
  function Drop(p: Pool, id: nat): Pool {
    match PositionOf(p.active, id)
    case None => p
    case Some(i) =>
      PositionOfIsFirst(p.active, id);
      Pool(p.active[..i] + p.active[i + 1..],
           if HasId(p.poverty, id) then p.poverty else p.poverty + [p.active[i]])
  }

  /** The composition in `check`: the poverty list is asked after the active one was culled. */
  function AfterCheck(p: Pool, heads: seq<HeadResult>, povertyHeads: seq<HeadResult>): Pool {
    AfterEscapePoverty(AfterMakePoverty(p, heads), povertyHeads, HighestHead(heads))
  }

  function Verdict(p: Pool): HealthState {
    if p.active != [] && p.poverty == [] then Healthy
    else if p.active != [] && p.poverty != [] then MissingRpcs
    else Unhealthy
  }

  // ---------------------------------------------------------------------------
  // The lists, as the program changes them

  class RpcLists {
    var rpcList: seq<Rpc>
    var povertyList: seq<Rpc>

    ghost function Lists(): Pool
      reads this
    {
      Pool(rpcList, povertyList)
    }

    /** Marks an active node as erroring and adds a copy of it to the poverty list, once. */
    method Demote(rpcId: nat)
      modifies this
      ensures (rpcList, povertyList) == MoveNode(old(rpcList), old(povertyList), rpcId, true)
    {
      PositionOfIsFirst(rpcList, rpcId);
      var position := PositionOf(rpcList, rpcId);
      if position.Some? {
        var rpc := WithErroring(rpcList[position.value], true);
        rpcList := rpcList[position.value := rpc];
        if !HasId(povertyList, rpcId) {
          povertyList := povertyList + [rpc];
        }
      }
    }

    /** Unmarks a node of the poverty list and adds a copy of it to the active list, once. */
    method Promote(rpcId: nat)
      modifies this
      ensures (povertyList, rpcList) == MoveNode(old(povertyList), old(rpcList), rpcId, false)
    {
      PositionOfIsFirst(povertyList, rpcId);
      var position := PositionOf(povertyList, rpcId);
      if position.Some? {
        var rpc := WithErroring(povertyList[position.value], false);
        povertyList := povertyList[position.value := rpc];
        if !HasId(rpcList, rpcId) {
          rpcList := rpcList + [rpc];
        }
      }
    }

    method MakePoverty(heads: seq<HeadResult>) returns (highestHead: nat)
      modifies this
      ensures highestHead == HighestHead(heads)
      ensures Lists() == AfterMakePoverty(old(Lists()), heads)
    {
      hide MoveNode;
      highestHead := 0;
      for i := 0 to |heads|
        invariant highestHead == HighestHead(heads[..i])
        invariant rpcList == old(rpcList) && povertyList == old(povertyList)
      {
        assert heads[..i + 1][..i] == heads[..i];
        if heads[i].reportedHead > highestHead {
          highestHead := heads[i].reportedHead;
        }
      }
      assert heads[..|heads|] == heads;
      ghost var ids: seq<nat> := [];
      for i := 0 to |heads|
        invariant ids == BlamedIds(heads[..i], highestHead)
        invariant (rpcList, povertyList) == MoveNodes(old(rpcList), old(povertyList), ids, true)
      {
        assert heads[..i + 1][..i] == heads[..i];
        if heads[i].reportedHead < highestHead || heads[i].isSyncing {
          Demote(heads[i].rpcId);
          ids := ids + [heads[i].rpcId];
          assert ids[..|ids| - 1] == BlamedIds(heads[..i], highestHead);
        }
      }
      rpcList := Retain(rpcList, false);
    }

    method EscapePoverty(povertyHeads: seq<HeadResult>, agreedHead: nat) returns (toSend: HealthState)
      modifies this
      ensures Lists() == AfterEscapePoverty(old(Lists()), povertyHeads, agreedHead)
      ensures toSend == Verdict(Lists())
      ensures toSend == Unhealthy <==> rpcList == []
      ensures toSend == MissingRpcs <==> rpcList != [] && povertyList != []
    {
      hide MoveNode;
      ghost var ids: seq<nat> := [];
      for i := 0 to |povertyHeads|
        invariant ids == ClearedIds(povertyHeads[..i], agreedHead)
        invariant (povertyList, rpcList) == MoveNodes(old(povertyList), old(rpcList), ids, false)
      {
        assert povertyHeads[..i + 1][..i] == povertyHeads[..i];
        if povertyHeads[i].reportedHead >= agreedHead && !povertyHeads[i].isSyncing {
          Promote(povertyHeads[i].rpcId);
          ids := ids + [povertyHeads[i].rpcId];
          assert ids[..|ids| - 1] == ClearedIds(povertyHeads[..i], agreedHead);
        }
      }
      assert povertyHeads[..|povertyHeads|] == povertyHeads;
      povertyList := Retain(povertyList, true);
      if rpcList != [] && povertyList == [] {
        toSend := Healthy;
      } else if povertyList != [] && rpcList != [] {
        toSend := MissingRpcs;
      } else {
        toSend := Unhealthy;
      }
    }

    method Check(heads: seq<HeadResult>, povertyHeads: seq<HeadResult>) returns (toSend: HealthState)
      modifies this
      ensures Lists() == AfterCheck(old(Lists()), heads, povertyHeads)
      ensures toSend == Verdict(Lists())
      ensures toSend == Unhealthy <==> rpcList == []
      ensures toSend == MissingRpcs <==> rpcList != [] && povertyList != []
    {
      var agreedHead := MakePoverty(heads);
      toSend := EscapePoverty(povertyHeads, agreedHead);
    }

    method SendDroppedToPoverty(rpcId: nat)
      modifies this
      ensures Lists() == Drop(old(Lists()), rpcId)
    {
      PositionOfIsFirst(rpcList, rpcId);
      var position := PositionOf(rpcList, rpcId);
      if position.Some? {
        var rpc := rpcList[position.value];
        rpcList := rpcList[..position.value] + rpcList[position.value + 1..];
        if !HasId(povertyList, rpcId) {
          povertyList := povertyList + [rpc];
        }
      }
    }
  }
}
