/** What rounds of the health check guarantee. */
module HealthRounds {
  import opened Wrappers
  import opened Rpc
  import opened Health

  ghost predicate Disjoint(a: seq<Rpc>, b: seq<Rpc>) {
    forall i, j :: 0 <= i < |a| && 0 <= j < |b| ==> a[i].id != b[j].id
  }

  /** No id is in a list twice or in both lists, and no active node is marked erroring. */
  ghost predicate Valid(p: Pool) {
    && UniqueIds(p.active) && UniqueIds(p.poverty) && Disjoint(p.active, p.poverty)
    && forall i :: 0 <= i < |p.active| ==> !p.active[i].status.isErroring
  }

  ghost predicate AllErroring(list: seq<Rpc>) {
    forall i :: 0 <= i < |list| ==> list[i].status.isErroring
  }

  /** Some report is against the node with this id: it is behind, or syncing. */
  ghost predicate Blamed(heads: seq<HeadResult>, agreed: nat, id: nat) {
    exists k :: 0 <= k < |heads| && heads[k].rpcId == id
      && (heads[k].reportedHead < agreed || heads[k].isSyncing)
  }

  /** Some report speaks for the node with this id. */
  ghost predicate Cleared(heads: seq<HeadResult>, agreed: nat, id: nat) {
    exists k :: 0 <= k < |heads| && heads[k].rpcId == id
      && heads[k].reportedHead >= agreed && !heads[k].isSyncing
  }

  // ---------------------------------------------------------------------------
  // Lists

  lemma {:induction false} RetainIs(list: seq<Rpc>, erroring: bool)
    ensures forall r :: r in Retain(list, erroring) <==> r in list && r.status.isErroring == erroring
    ensures UniqueIds(list) ==> UniqueIds(Retain(list, erroring))
  {
    if list != [] {
      RetainIs(list[1..], erroring);
      var rest := Retain(list[1..], erroring);
      assert list == [list[0]] + list[1..];
      if UniqueIds(list) {
        assert UniqueIds(list[1..]);
        forall j | 0 <= j < |rest|
          ensures rest[j].id != list[0].id
        {
          assert rest[j] in rest;
        }
      }
    }
  }

  lemma {:induction false} BlamedIdsAre(heads: seq<HeadResult>, agreed: nat)
    ensures forall id :: id in BlamedIds(heads, agreed) <==> Blamed(heads, agreed, id)
  {
    if heads != [] {
      var init, last := heads[..|heads| - 1], heads[|heads| - 1];
      assert heads == init + [last];
      BlamedIdsAre(init, agreed);
      forall id
        ensures Blamed(heads, agreed, id)
           <==> Blamed(init, agreed, id) || (last.rpcId == id && Delinquent(last, agreed))
      {
        assert forall k :: 0 <= k < |init| ==> heads[k] == init[k];
      }
    }
  }

  lemma {:induction false} ClearedIdsAre(heads: seq<HeadResult>, agreed: nat)
    ensures forall id :: id in ClearedIds(heads, agreed) <==> Cleared(heads, agreed, id)
  {
    if heads != [] {
      var init, last := heads[..|heads| - 1], heads[|heads| - 1];
      assert heads == init + [last];
      ClearedIdsAre(init, agreed);
      forall id
        ensures Cleared(heads, agreed, id)
           <==> Cleared(init, agreed, id) || (last.rpcId == id && !Delinquent(last, agreed))
      {
        assert forall k :: 0 <= k < |init| ==> heads[k] == init[k];
      }
    }
  }

  // ---------------------------------------------------------------------------
  // Moving nodes

  /** `r` is a node of `list` named in `ids`, with its flag set to `erroring`. */
  ghost predicate MovedFrom(list: seq<Rpc>, ids: seq<nat>, erroring: bool, r: Rpc) {
    exists i :: 0 <= i < |list| && list[i].id in ids && r == WithErroring(list[i], erroring)
  }

  /** The lists after moving some ids: named nodes are flagged where they are and copied, flagged,
      into the other list, once each. */
  ghost predicate MovedBy(from: seq<Rpc>, to: seq<Rpc>, after: (seq<Rpc>, seq<Rpc>), ids: seq<nat>, erroring: bool) {
    && |after.0| == |from|
    && (forall i :: 0 <= i < |from| ==>
          after.0[i] == if from[i].id in ids then WithErroring(from[i], erroring) else from[i])
    && (forall r :: r in after.1 <==> r in to || MovedFrom(from, ids, erroring, r))
    && UniqueIds(after.1)
  }

  lemma CopiedOnce(from: seq<Rpc>, to: seq<Rpc>, after: (seq<Rpc>, seq<Rpc>), ids: seq<nat>, erroring: bool, i: nat)
    requires UniqueIds(from) && Disjoint(from, to) && MovedBy(from, to, after, ids, erroring) && i < |from|
    ensures HasId(after.1, from[i].id) <==> from[i].id in ids
  {
    if from[i].id in ids {
      assert MovedFrom(from, ids, erroring, WithErroring(from[i], erroring));
    }
    if HasId(after.1, from[i].id) {
      var j :| 0 <= j < |after.1| && after.1[j].id == from[i].id;
      assert after.1[j] in after.1;
    }
  }

  lemma MoveOne(from: seq<Rpc>, to: seq<Rpc>, before: (seq<Rpc>, seq<Rpc>), ids: seq<nat>, id: nat, erroring: bool)
    requires UniqueIds(from) && Disjoint(from, to) && MovedBy(from, to, before, ids, erroring)
    ensures MovedBy(from, to, MoveNode(before.0, before.1, id, erroring), ids + [id], erroring)
  {
    var after := MoveNode(before.0, before.1, id, erroring);
    PositionOfIsFirst(before.0, id);
    match PositionOf(before.0, id)
    case None =>
      assert forall i :: 0 <= i < |from| ==> before.0[i].id == from[i].id;
      assert forall i :: 0 <= i < |from| ==> (from[i].id in ids + [id] <==> from[i].id in ids);
      assert forall r :: MovedFrom(from, ids + [id], erroring, r) <==> MovedFrom(from, ids, erroring, r);
    case Some(i) =>
      var rpc := WithErroring(from[i], erroring);
      assert before.0[i].id == from[i].id == id;
      CopiedOnce(from, to, before, ids, erroring, i);
      forall r
        ensures MovedFrom(from, ids + [id], erroring, r) <==> MovedFrom(from, ids, erroring, r) || r == rpc
      {
        if r == rpc {
          assert from[i].id in ids + [id];
        }
      }
      if id in ids {
        assert MovedFrom(from, ids, erroring, rpc);
      }
  }

  lemma {:induction false} MoveIsExact(from: seq<Rpc>, to: seq<Rpc>, ids: seq<nat>, erroring: bool)
    requires UniqueIds(from) && UniqueIds(to) && Disjoint(from, to)
    ensures MovedBy(from, to, MoveNodes(from, to, ids, erroring), ids, erroring)
  {
    if ids != [] {
      var init := ids[..|ids| - 1];
      MoveIsExact(from, to, init, erroring);
      MoveOne(from, to, MoveNodes(from, to, init, erroring), init, ids[|ids| - 1], erroring);
      assert init + [ids[|ids| - 1]] == ids;
    }
  }

  // ---------------------------------------------------------------------------
  // Exact rounds

  /** `make_poverty` evicts exactly the active nodes some report is against, flagged, and keeps
      every other node where it is. Reports may be stale, missing or repeated. */
  lemma MakePovertyIsExact(p: Pool, heads: seq<HeadResult>)
    requires Valid(p)
    ensures var q, agreed := AfterMakePoverty(p, heads), HighestHead(heads);
            && Valid(q)
            && (forall r :: r in q.active <==> r in p.active && !Blamed(heads, agreed, r.id))
            && (forall r :: r in q.poverty <==>
                  r in p.poverty || MovedFrom(p.active, BlamedIds(heads, agreed), true, r))
  {
    var agreed := HighestHead(heads);
    var ids := BlamedIds(heads, agreed);
    var moved := MoveNodes(p.active, p.poverty, ids, true);
    var q := AfterMakePoverty(p, heads);
    BlamedIdsAre(heads, agreed);
    MoveIsExact(p.active, p.poverty, ids, true);
    RetainIs(moved.0, false);
    forall r
      ensures r in q.active <==> r in p.active && !Blamed(heads, agreed, r.id)
    {
      if r in p.active {
        var i :| 0 <= i < |p.active| && p.active[i] == r;
        assert moved.0[i] in moved.0;
      }
    }
    assert Disjoint(q.active, q.poverty) by {
      forall i, j | 0 <= i < |q.active| && 0 <= j < |q.poverty|
        ensures q.active[i].id != q.poverty[j].id
      {
        assert q.active[i] in q.active && q.poverty[j] in q.poverty;
      }
    }
    forall i | 0 <= i < |q.active|
      ensures !q.active[i].status.isErroring
    {
      assert q.active[i] in q.active;
    }
  }

  /** `escape_poverty` readmits exactly the nodes of the poverty list some report speaks for, and
      keeps of the others exactly those marked erroring. */
  lemma EscapePovertyIsExact(p: Pool, heads: seq<HeadResult>, agreed: nat)
    requires Valid(p)
    ensures var q := AfterEscapePoverty(p, heads, agreed);
            && Valid(q) && AllErroring(q.poverty)
            && (forall r :: r in q.poverty <==>
                  r in p.poverty && r.status.isErroring && !Cleared(heads, agreed, r.id))
            && (forall r :: r in q.active <==>
                  r in p.active || MovedFrom(p.poverty, ClearedIds(heads, agreed), false, r))
  {
    var ids := ClearedIds(heads, agreed);
    var moved := MoveNodes(p.poverty, p.active, ids, false);
    var q := AfterEscapePoverty(p, heads, agreed);
    ClearedIdsAre(heads, agreed);
    MoveIsExact(p.poverty, p.active, ids, false);
    RetainIs(moved.0, true);
    forall r
      ensures r in q.poverty <==> r in p.poverty && r.status.isErroring && !Cleared(heads, agreed, r.id)
    {
      if r in p.poverty {
        var i :| 0 <= i < |p.poverty| && p.poverty[i] == r;
        assert moved.0[i] in moved.0;
      }
    }
    forall i, j | 0 <= i < |q.active| && 0 <= j < |q.poverty|
      ensures q.active[i].id != q.poverty[j].id
    {
      assert q.active[i] in q.active && q.poverty[j] in q.poverty;
    }
    forall i | 0 <= i < |q.active|
      ensures !q.active[i].status.isErroring
    {
      assert q.active[i] in q.active;
    }
    forall i | 0 <= i < |q.poverty|
      ensures q.poverty[i].status.isErroring
    {
      assert q.poverty[i] in q.poverty;
    }
  }

  lemma RemoveAtIs(list: seq<Rpc>, i: nat)
    requires UniqueIds(list) && i < |list|
    ensures var rest := list[..i] + list[i + 1..];
            UniqueIds(rest) && forall r :: r in rest <==> r in list && r.id != list[i].id
  {
    var rest := list[..i] + list[i + 1..];
    forall r
      ensures r in rest <==> r in list && r.id != list[i].id
    {
      if r in list && r.id != list[i].id {
        var j :| 0 <= j < |list| && list[j] == r;
        assert rest[if j < i then j else j - 1] == r;
      }
    }
  }

  /** A dropped connection moves one node, if it is active, and leaves its flag unset. */
  lemma DropIsExact(p: Pool, id: nat)
    requires Valid(p)
    ensures var q := Drop(p, id);
            && Valid(q)
            && (forall r :: r in q.active <==> r in p.active && r.id != id)
            && (forall r :: r in q.poverty <==> r in p.poverty || (r in p.active && r.id == id))
  {
    PositionOfIsFirst(p.active, id);
    var q := Drop(p, id);
    if PositionOf(p.active, id).None? {
      assert forall r :: r in p.active ==> r.id != id;
    } else {
      var i := PositionOf(p.active, id).value;
      RemoveAtIs(p.active, i);
      assert !HasId(p.poverty, id);
      assert q == Pool(p.active[..i] + p.active[i + 1..], p.poverty + [p.active[i]]);
      hide Drop;
      forall r
        ensures r in p.active && r.id == id <==> r == p.active[i]
      {
      }
      forall j | 0 <= j < |q.active|
        ensures q.active[j].id != id && !q.active[j].status.isErroring
        ensures q.active[j] in p.active
      {
        assert q.active[j] in q.active;
      }
    }
  }

  // ---------------------------------------------------------------------------
  // Runs

  datatype Event =
    | Make(heads: seq<HeadResult>)
    | Escape(povertyHeads: seq<HeadResult>, agreed: nat)
    | Dropped(id: nat)

  function Step(p: Pool, e: Event): Pool {
    match e
    case Make(heads) => AfterMakePoverty(p, heads)
    case Escape(heads, agreed) => AfterEscapePoverty(p, heads, agreed)
    case Dropped(id) => Drop(p, id)
  }

  function Steps(p: Pool, es: seq<Event>): Pool {
    if es == [] then p else Step(Steps(p, es[..|es| - 1]), es[|es| - 1])
  }

  /** Whatever the interleaving of the three operations and whatever the reports, no id is ever in
      a list twice or in both lists, and no active node is marked erroring. */
  lemma {:induction false} ReachableIsValid(p: Pool, es: seq<Event>)
    requires Valid(p)
    ensures Valid(Steps(p, es))
  {
    hide Step, Valid;
    if es != [] {
      ReachableIsValid(p, es[..|es| - 1]);
      StepKeepsValid(Steps(p, es[..|es| - 1]), es[|es| - 1]);
    }
  }

  lemma StepKeepsValid(p: Pool, e: Event)
    requires Valid(p)
    ensures Valid(Step(p, e))
  {
    match e
    case Make(heads) => MakePovertyIsExact(p, heads);
    case Escape(heads, agreed) => EscapePovertyIsExact(p, heads, agreed);
    case Dropped(id) => DropIsExact(p, id);
  }

  // ---------------------------------------------------------------------------
  // Conservation

  /** The nodes of both lists, flags aside. */
  ghost function Nodes(p: Pool): set<Rpc> {
    set r | r in p.active + p.poverty :: WithErroring(r, false)
  }

  lemma SameIdSameNode(p: Pool, a: Rpc, b: Rpc)
    requires Valid(p) && a in p.active + p.poverty && b in p.active + p.poverty && a.id == b.id
    ensures a == b && (a in p.active <==> b in p.active)
  {
  }

  lemma MakePovertyConserves(p: Pool, heads: seq<HeadResult>)
    requires Valid(p)
    ensures Nodes(AfterMakePoverty(p, heads)) == Nodes(p)
  {
    var agreed := HighestHead(heads);
    var q := AfterMakePoverty(p, heads);
    MakePovertyIsExact(p, heads);
    BlamedIdsAre(heads, agreed);
    forall r | r in p.active + p.poverty
      ensures WithErroring(r, false) in Nodes(q)
    {
      if r in p.active && Blamed(heads, agreed, r.id) {
        assert MovedFrom(p.active, BlamedIds(heads, agreed), true, WithErroring(r, true));
        assert WithErroring(r, true) in q.active + q.poverty;
        assert WithErroring(WithErroring(r, true), false) == WithErroring(r, false);
      } else {
        assert r in q.active + q.poverty;
      }
    }
    forall r | r in q.active + q.poverty
      ensures WithErroring(r, false) in Nodes(p)
    {
      if r !in p.active + p.poverty {
        var i :| 0 <= i < |p.active| && p.active[i].id in BlamedIds(heads, agreed)
          && r == WithErroring(p.active[i], true);
        assert p.active[i] in p.active + p.poverty;
        assert WithErroring(r, false) == WithErroring(p.active[i], false);
      }
    }
  }

  /** `escape_poverty` loses nothing exactly when every node of the poverty list is marked erroring
      or has a report that speaks for it. */
  lemma EscapeConservesIff(p: Pool, heads: seq<HeadResult>, agreed: nat)
    requires Valid(p)
    ensures Nodes(AfterEscapePoverty(p, heads, agreed)) == Nodes(p)
       <==> forall r :: r in p.poverty ==> r.status.isErroring || Cleared(heads, agreed, r.id)
  {
    var q := AfterEscapePoverty(p, heads, agreed);
    EscapePovertyIsExact(p, heads, agreed);
    ClearedIdsAre(heads, agreed);
    forall r | r in q.active + q.poverty
      ensures WithErroring(r, false) in Nodes(p)
    {
      if r !in p.active + p.poverty {
        var i :| 0 <= i < |p.poverty| && p.poverty[i].id in ClearedIds(heads, agreed)
          && r == WithErroring(p.poverty[i], false);
        assert p.poverty[i] in p.active + p.poverty;
      }
    }
    forall r | r in p.active + p.poverty
      ensures WithErroring(r, false) in Nodes(q)
         <==> (r in p.poverty ==> r.status.isErroring || Cleared(heads, agreed, r.id))
    {
      EscapeKeepsIff(p, heads, agreed, r);
    }
    if forall r :: r in p.poverty ==> r.status.isErroring || Cleared(heads, agreed, r.id) {
      assert Nodes(q) == Nodes(p);
    } else {
      var r :| r in p.poverty && !(r.status.isErroring || Cleared(heads, agreed, r.id));
      assert r in p.active + p.poverty;
      assert WithErroring(r, false) in Nodes(p) && WithErroring(r, false) !in Nodes(q);
    }
  }

  /** Which node `escape_poverty` loses. */
  lemma EscapeKeepsIff(p: Pool, heads: seq<HeadResult>, agreed: nat, r: Rpc)
    requires Valid(p) && r in p.active + p.poverty
    ensures WithErroring(r, false) in Nodes(AfterEscapePoverty(p, heads, agreed))
       <==> (r in p.poverty ==> r.status.isErroring || Cleared(heads, agreed, r.id))
  {
    var q := AfterEscapePoverty(p, heads, agreed);
    EscapePovertyIsExact(p, heads, agreed);
    ClearedIdsAre(heads, agreed);
    if r in p.active {
      assert r in q.active + q.poverty;
      SameIdSameNodeInPoverty(p, r);
    } else if Cleared(heads, agreed, r.id) {
      assert MovedFrom(p.poverty, ClearedIds(heads, agreed), false, WithErroring(r, false));
      assert WithErroring(r, false) in q.active + q.poverty;
    } else if r.status.isErroring {
      assert r in q.active + q.poverty;
    } else {
      assert forall other :: other in p.poverty && other.id == r.id ==> other == r;
      forall kept | kept in q.active + q.poverty
        ensures kept.id != r.id
      {
      }
    }
  }

  lemma SameIdSameNodeInPoverty(p: Pool, r: Rpc)
    requires Valid(p) && r in p.active
    ensures r !in p.poverty
  {
  }

  /** A whole round, from lists in which exactly the poverty list is marked erroring: no node is
      lost, duplicated or changed but for its flag; a node ends active exactly when it was active
      and no report was against it, or some report of the second query speaks for it; and the next
      round finds the lists as this one did. */
  lemma CheckIsExact(p: Pool, heads: seq<HeadResult>, povertyHeads: seq<HeadResult>)
    requires Valid(p) && AllErroring(p.poverty)
    ensures var q, agreed := AfterCheck(p, heads, povertyHeads), HighestHead(heads);
            && Valid(q) && AllErroring(q.poverty)
            && Nodes(q) == Nodes(p)
            && (forall r :: r in p.active ==>
                  (HasId(q.active, r.id) <==>
                   !Blamed(heads, agreed, r.id) || Cleared(povertyHeads, agreed, r.id)))
            && (forall r :: r in p.poverty ==> (HasId(q.active, r.id) <==> Cleared(povertyHeads, agreed, r.id)))
  {
    var agreed := HighestHead(heads);
    var m := AfterMakePoverty(p, heads);
    MakePovertyIsExact(p, heads);
    MakePovertyConserves(p, heads);
    EscapeConservesIff(m, povertyHeads, agreed);
    EscapePovertyIsExact(m, povertyHeads, agreed);
    BlamedIdsAre(heads, agreed);
    assert forall r :: r in m.poverty ==> r.status.isErroring by {
      forall r | r in p.poverty
        ensures r.status.isErroring
      {
      }
    }
    hide AfterMakePoverty, AfterEscapePoverty, Nodes;
    forall r | r in p.active
      ensures HasId(AfterCheck(p, heads, povertyHeads).active, r.id)
         <==> !Blamed(heads, agreed, r.id) || Cleared(povertyHeads, agreed, r.id)
    {
      if Blamed(heads, agreed, r.id) {
        var i :| 0 <= i < |p.active| && p.active[i] == r;
        assert MovedFrom(p.active, BlamedIds(heads, agreed), true, WithErroring(r, true));
        EndsActiveIffCleared(m, povertyHeads, agreed, WithErroring(r, true));
      } else {
        StaysActive(m, povertyHeads, agreed, r);
      }
    }
    forall r | r in p.poverty
      ensures HasId(AfterCheck(p, heads, povertyHeads).active, r.id) <==> Cleared(povertyHeads, agreed, r.id)
    {
      EndsActiveIffCleared(m, povertyHeads, agreed, r);
    }
  }

  /** Whether a round leaves an active node with this id: no report was against it while it was active,
      or some report of the second query speaks for it. */
  ghost predicate EndsActive(
    p: Pool, heads: seq<HeadResult>, povertyHeads: seq<HeadResult>, r: Rpc)
  {
    var agreed := HighestHead(heads);
    (r in p.active && !Blamed(heads, agreed, r.id)) || Cleared(povertyHeads, agreed, r.id)
  }

  lemma EndsSomewhere(p: Pool, heads: seq<HeadResult>, povertyHeads: seq<HeadResult>, r: Rpc)
    requires Valid(p) && AllErroring(p.poverty) && r in p.active + p.poverty
    ensures var q := AfterCheck(p, heads, povertyHeads);
            && (HasId(q.active, r.id) <==> EndsActive(p, heads, povertyHeads, r))
            && (HasId(q.poverty, r.id) <==> !EndsActive(p, heads, povertyHeads, r))
  {
    var q := AfterCheck(p, heads, povertyHeads);
    CheckIsExact(p, heads, povertyHeads);
    if r in p.poverty && r in p.active {
      SameIdSameNodeInPoverty(p, r);
      assert false;
    }
    hide AfterCheck, Blamed, Cleared;
    assert WithErroring(r, false) in Nodes(p);
    assert WithErroring(r, false) in Nodes(q);
    var n :| n in q.active + q.poverty && WithErroring(n, false) == WithErroring(r, false);
    assert n.id == WithErroring(n, false).id == r.id;
    if n in q.active {
      HasSomeId(q.active, n);
    } else {
      HasSomeId(q.poverty, n);
    }
  }

  /** What a round reports: no node ends active, some do and some do not, or every one does. */
  lemma RoundVerdict(p: Pool, heads: seq<HeadResult>, povertyHeads: seq<HeadResult>)
    requires Valid(p) && AllErroring(p.poverty)
    ensures var verdict, all := Verdict(AfterCheck(p, heads, povertyHeads)), p.active + p.poverty;
            && (verdict == Unhealthy <==> forall r :: r in all ==> !EndsActive(p, heads, povertyHeads, r))
            && (verdict == Healthy <==>
                  all != [] && forall r :: r in all ==> EndsActive(p, heads, povertyHeads, r))
            && (verdict == MissingRpcs <==>
                  && (exists r :: r in all && EndsActive(p, heads, povertyHeads, r))
                  && (exists r :: r in all && !EndsActive(p, heads, povertyHeads, r)))
  {
    SomeEndActive(p, heads, povertyHeads);
    SomeEndInPoverty(p, heads, povertyHeads);
    hide AfterCheck, EndsActive, Valid, AllErroring;
    if p.active + p.poverty != [] {
      HasMember(p.active + p.poverty);
    }
  }

  lemma SomeEndActive(p: Pool, heads: seq<HeadResult>, povertyHeads: seq<HeadResult>)
    requires Valid(p) && AllErroring(p.poverty)
    ensures AfterCheck(p, heads, povertyHeads).active != [] <==>
            exists r :: r in p.active + p.poverty && EndsActive(p, heads, povertyHeads, r)
  {
    var q := AfterCheck(p, heads, povertyHeads);
    CheckIsExact(p, heads, povertyHeads);
    hide AfterCheck, EndsActive, Valid, AllErroring, Nodes;
    if q.active != [] {
      var r := CameFrom(p, q, q.active[0]);
      assert HasId(q.active, r.id);
      EndsSomewhere(p, heads, povertyHeads, r);
    }
    forall r | r in p.active + p.poverty && EndsActive(p, heads, povertyHeads, r)
      ensures q.active != []
    {
      EndsSomewhere(p, heads, povertyHeads, r);
    }
  }

  lemma SomeEndInPoverty(p: Pool, heads: seq<HeadResult>, povertyHeads: seq<HeadResult>)
    requires Valid(p) && AllErroring(p.poverty)
    ensures AfterCheck(p, heads, povertyHeads).poverty != [] <==>
            exists r :: r in p.active + p.poverty && !EndsActive(p, heads, povertyHeads, r)
  {
    var q := AfterCheck(p, heads, povertyHeads);
    CheckIsExact(p, heads, povertyHeads);
    hide AfterCheck, EndsActive, Valid, AllErroring, Nodes;
    if q.poverty != [] {
      var r := CameFrom(p, q, q.poverty[0]);
      assert HasId(q.poverty, r.id);
      EndsSomewhere(p, heads, povertyHeads, r);
    }
    forall r | r in p.active + p.poverty && !EndsActive(p, heads, povertyHeads, r)
      ensures q.poverty != []
    {
      EndsSomewhere(p, heads, povertyHeads, r);
    }
  }

  lemma CameFrom(p: Pool, q: Pool, n: Rpc) returns (r: Rpc)
    requires Nodes(q) == Nodes(p) && n in q.active + q.poverty
    ensures r in p.active + p.poverty && r.id == n.id
  {
    assert WithErroring(n, false) in Nodes(q);
    r :| r in p.active + p.poverty && WithErroring(r, false) == WithErroring(n, false);
    assert r.id == WithErroring(r, false).id == n.id;
  }

  lemma EndsActiveIffCleared(m: Pool, heads: seq<HeadResult>, agreed: nat, r: Rpc)
    requires Valid(m) && r in m.poverty
    ensures HasId(AfterEscapePoverty(m, heads, agreed).active, r.id) <==> Cleared(heads, agreed, r.id)
  {
    var q := AfterEscapePoverty(m, heads, agreed);
    EscapePovertyIsExact(m, heads, agreed);
    ClearedIdsAre(heads, agreed);
    hide AfterEscapePoverty, Cleared;
    if Cleared(heads, agreed, r.id) {
      assert MovedFrom(m.poverty, ClearedIds(heads, agreed), false, WithErroring(r, false));
    }
    if HasId(q.active, r.id) {
      var k :| 0 <= k < |q.active| && q.active[k].id == r.id;
      assert q.active[k] in q.active;
    }
  }

  lemma StaysActive(m: Pool, heads: seq<HeadResult>, agreed: nat, r: Rpc)
    requires Valid(m) && r in m.active
    ensures HasId(AfterEscapePoverty(m, heads, agreed).active, r.id)
  {
    EscapePovertyIsExact(m, heads, agreed);
    assert r in AfterEscapePoverty(m, heads, agreed).active;
  }

  // ---------------------------------------------------------------------------
  // Recovery, and what recovery misses

  /** Every report of a query names this head and no syncing. */
  ghost predicate Unanimous(heads: seq<HeadResult>, head: nat) {
    forall k :: 0 <= k < |heads| ==> heads[k].reportedHead == head && !heads[k].isSyncing
  }

  /** If every node reports the same head and none is syncing, one round from any valid lists, an
      empty active list included, empties the poverty list and loses no node. */
  lemma OneRoundRecovers(p: Pool, heads: seq<HeadResult>, povertyHeads: seq<HeadResult>, head: nat)
    requires Valid(p) && Unanimous(heads, head) && Unanimous(povertyHeads, head)
    requires forall r :: r in p.poverty ==> exists k :: 0 <= k < |povertyHeads| && povertyHeads[k].rpcId == r.id
    ensures var q := AfterCheck(p, heads, povertyHeads);
            && q.poverty == []
            && Nodes(q) == Nodes(p)
            && Verdict(q) == (if p.active == [] && p.poverty == [] then Unhealthy else Healthy)
  {
    var agreed := HighestHead(heads);
    var m, q := AfterMakePoverty(p, heads), AfterCheck(p, heads, povertyHeads);
    assert forall id :: !Blamed(heads, agreed, id);
    MakePovertyIsExact(p, heads);
    MakePovertyConserves(p, heads);
    BlamedIdsAre(heads, agreed);
    assert forall r :: r in m.poverty <==> r in p.poverty;
    EscapePovertyIsExact(m, povertyHeads, agreed);
    forall r | r in m.poverty
      ensures Cleared(povertyHeads, agreed, r.id)
    {
      var k :| 0 <= k < |povertyHeads| && povertyHeads[k].rpcId == r.id;
      assert !Delinquent(povertyHeads[k], agreed);
    }
    EscapeConservesIff(m, povertyHeads, agreed);
    if q.poverty != [] {
      HasMember(q.poverty);
      assert false;
    }
    SomeNode(p);
    SomeNode(q);
  }

  lemma HasMember(list: seq<Rpc>)
    requires list != []
    ensures exists r :: r in list
  {
    assert list[0] in list;
  }

  lemma SomeNode(p: Pool)
    ensures Nodes(p) == {} <==> p.active == [] && p.poverty == []
  {
    if p.active + p.poverty != [] {
      var r := (p.active + p.poverty)[0];
      assert WithErroring(r, false) in Nodes(p);
    }
  }

  /** The node with this id is in the poverty list only, without its mark. */
  ghost predicate Unmarked(p: Pool, id: nat) {
    && !HasId(p.active, id) && HasId(p.poverty, id)
    && forall r :: r in p.poverty && r.id == id ==> !r.status.isErroring
  }

  lemma DropUnmarks(p: Pool, id: nat)
    requires Valid(p) && HasId(p.active, id)
    ensures Valid(Drop(p, id)) && Unmarked(Drop(p, id), id)
  {
    var d := Drop(p, id);
    DropIsExact(p, id);
    var node :| node in p.active && node.id == id;
    NoId(d.active, id);
    HasSomeId(d.poverty, node);
    forall r | r in d.poverty && r.id == id
      ensures r == node
    {
      SameIdSameNode(d, r, node);
    }
  }

  /** Culling the active list and dropping other connections, or the same again, leave it there. */
  lemma UnmarkedStays(p: Pool, e: Event, id: nat)
    requires Valid(p) && Unmarked(p, id) && !e.Escape?
    ensures Unmarked(Step(p, e), id)
  {
    var q := Step(p, e);
    match e {
      case Make(heads) => MakePovertyIsExact(p, heads);
      case Dropped(d) => DropIsExact(p, d);
    }
    hide Step;
    var node :| node in p.poverty && node.id == id;
    assert forall r :: r in p.active ==> r.id != id;
    NoId(q.active, id);
    HasSomeId(q.poverty, node);
  }

  lemma {:induction false} UnmarkedStaysFor(p: Pool, es: seq<Event>, id: nat)
    requires Valid(p) && Unmarked(p, id) && forall e :: e in es ==> !e.Escape?
    ensures Valid(Steps(p, es)) && Unmarked(Steps(p, es), id)
  {
    hide Step, Valid, Unmarked;
    if es != [] {
      var init := es[..|es| - 1];
      UnmarkedStaysFor(p, init, id);
      UnmarkedStays(Steps(p, init), es[|es| - 1], id);
      StepKeepsValid(Steps(p, init), es[|es| - 1]);
    }
  }

  lemma EscapeDecides(p: Pool, id: nat, heads: seq<HeadResult>, agreed: nat)
    requires Valid(p) && Unmarked(p, id)
    ensures var q := AfterEscapePoverty(p, heads, agreed);
            && Valid(q) && !HasId(q.poverty, id)
            && (HasId(q.active, id) <==> Cleared(heads, agreed, id))
  {
    var q := AfterEscapePoverty(p, heads, agreed);
    EscapePovertyIsExact(p, heads, agreed);
    ClearedIdsAre(heads, agreed);
    var node :| node in p.poverty && node.id == id;
    EndsActiveIffCleared(p, heads, agreed, node);
    NoId(q.poverty, id);
  }

  /** A node whose connection drops enters the poverty list unmarked. Until the next
      `escape_poverty` it stays there, whatever is culled or dropped in between; that call readmits
      it exactly when a report speaks for it, and otherwise the node is in neither list ever after,
      whatever happens later. */
  lemma DroppedNodeIsLost(p: Pool, id: nat, between: seq<Event>, heads: seq<HeadResult>, agreed: nat, later: seq<Event>)
    requires Valid(p) && HasId(p.active, id) && forall e :: e in between ==> !e.Escape?
    ensures var escaped := AfterEscapePoverty(Steps(Drop(p, id), between), heads, agreed);
            var q := Steps(escaped, later);
            && !HasId(escaped.poverty, id)
            && (HasId(escaped.active, id) <==> Cleared(heads, agreed, id))
            && (!Cleared(heads, agreed, id) ==> !HasId(q.active, id) && !HasId(q.poverty, id))
  {
    hide Steps, Step, AfterEscapePoverty, Drop, Valid, Unmarked, Cleared, HasId;
    DropUnmarks(p, id);
    UnmarkedStaysFor(Drop(p, id), between, id);
    var waiting := Steps(Drop(p, id), between);
    EscapeDecides(waiting, id, heads, agreed);
    if !Cleared(heads, agreed, id) {
      GoneForGood(AfterEscapePoverty(waiting, heads, agreed), id, later);
    }
  }

  lemma {:induction false} GoneForGood(p: Pool, id: nat, es: seq<Event>)
    requires Valid(p) && !HasId(p.active, id) && !HasId(p.poverty, id)
    ensures !HasId(Steps(p, es).active, id) && !HasId(Steps(p, es).poverty, id)
  {
    hide Step, Valid;
    if es != [] {
      var init := es[..|es| - 1];
      GoneForGood(p, id, init);
      ReachableIsValid(p, init);
      NothingAppears(Steps(p, init), es[|es| - 1], id);
    }
  }

  lemma HasSomeId(list: seq<Rpc>, r: Rpc)
    requires r in list
    ensures HasId(list, r.id)
  {
  }

  lemma NoId(list: seq<Rpc>, id: nat)
    requires forall r :: r in list ==> r.id != id
    ensures !HasId(list, id)
  {
    assert forall i :: 0 <= i < |list| ==> list[i] in list;
  }

  lemma NothingAppears(p: Pool, e: Event, id: nat)
    requires Valid(p) && !HasId(p.active, id) && !HasId(p.poverty, id)
    ensures !HasId(Step(p, e).active, id) && !HasId(Step(p, e).poverty, id)
  {
    match e {
      case Make(heads) => MakePovertyIsExact(p, heads);
      case Escape(heads, agreed) => EscapePovertyIsExact(p, heads, agreed);
      case Dropped(d) => DropIsExact(p, d);
    }
    var q := Step(p, e);
    hide Step;
    assert forall r :: r in p.active || r in p.poverty ==> r.id != id;
    assert forall r :: r in q.active || r in q.poverty ==> r.id != id;
    NoId(q.active, id);
    NoId(q.poverty, id);
  }
}
