/** Answering one request: from the cache if possible, or else from the nodes in turn. */
module Forward {
  import opened Wrappers
  import opened Json
  import opened CacheRules
  import opened Format
  import opened Database
  import opened HeadCache
  import opened Rpc
  import opened Select
  import Transparency

  datatype Response =
    | InvalidRequest
    | NoRpcAvailable
    | TimedOut
    /** The body of a cached answer with the id restored. */
    | FromCache(body: Value)
    /** The answer of a node, as it came. */
    | FromNode(rx: Reply)
    /** The connection ends without an answer. */
    | Dropped

  /** One turn of the retry loop. */
  datatype Try = Try(time: nat, order: seq<nat>, failed: bool)

  function PickedBy(list: seq<Rpc>, t: Try): (after: seq<Rpc>)
    requires list != [] && (forall j :: 0 <= j < |t.order| ==> t.order[j] < |list|) && (|list| >= 2 ==> t.order != [])
    ensures |after| == |list|
  {
    if |list| == 1 then list else Picked(list, t.order, t.time)
  }

  function PositionBy(list: seq<Rpc>, t: Try): (p: nat)
    requires list != [] && (forall j :: 0 <= j < |t.order| ==> t.order[j] < |list|) && (|list| >= 2 ==> t.order != [])
    ensures p < |list|
  {
    if |list| == 1 then 0 else Choice(list, t.order, t.time)
  }

  ghost predicate CanTry(list: seq<Rpc>, t: Try) {
    && list != [] && HasWindows(list)
    && (if |list| == 1 then t.order == [] else IsOrder(t.order, list))
  }

  /** Milliseconds as the latency counts them. */
  function Nanos(millis: nat): real {
    1_000_000.0 * millis as real
  }

  /** One node is picked; if it fails it is charged the whole time to live. */
  ghost function AfterTry(list: seq<Rpc>, t: Try, ttl: nat): (after: seq<Rpc>)
    requires CanTry(list, t)
    ensures |after| == |list| && HasWindows(after)
  {
    if t.failed then Charged(PickedBy(list, t), list[PositionBy(list, t)].id, Nanos(ttl)) else PickedBy(list, t)
  }

  /** What a failed try changes but for the counters of the pick: the node that was asked, or the
      first with its id, gets the time to live as its newest sample, and no other node any. */
  lemma FailureIsCharged(list: seq<Rpc>, t: Try, ttl: nat, p: nat)
    requires CanTry(list, t) && t.failed
    requires p < |list| && list[p].id == list[PositionBy(list, t)].id
    requires forall i :: 0 <= i < p ==> list[i].id != list[p].id
    ensures var after := AfterTry(list, t, ttl);
            var data := after[p].status.latencyData;
            && data != [] && data[|data| - 1] == ttl as real * 1_000_000.0
            && (forall i :: 0 <= i < |list| && i != p ==> after[i].status == list[i].status)
            && (forall i :: 0 <= i < |list| ==> after[i] == PickedBy(list, t)[i].(status := after[i].status))
  {
    hide Choice;
    var picked := PickedBy(list, t);
    assert forall i :: 0 <= i < |list| ==> picked[i].id == list[i].id && picked[i].status == list[i].status;
    hide Picked;
    ChargeIsExact(picked, p, Nanos(ttl));
    ChargingNeverResetsLimits(picked, picked[p].id, Nanos(ttl));
    hide Charged;
  }

  /** An answer charges nobody. */
  lemma SuccessChargesNobody(list: seq<Rpc>, t: Try, ttl: nat)
    requires CanTry(list, t) && !t.failed
    ensures forall i :: 0 <= i < |list| ==> AfterTry(list, t, ttl)[i].status == list[i].status
  {
    hide Choice;
  }

  /** The tries lead from one list to the other. */
  ghost predicate TriesLead(list: seq<Rpc>, tries: seq<Try>, ttl: nat, after: seq<Rpc>)
    decreases |tries|
  {
    if tries == [] then after == list
    else
      var init, last := tries[..|tries| - 1], tries[|tries| - 1];
      exists middle :: TriesLead(list, init, ttl, middle) && TryLeads(middle, last, ttl, after)
  }

  ghost predicate TryLeads(list: seq<Rpc>, t: Try, ttl: nat, after: seq<Rpc>) {
    CanTry(list, t) && after == AfterTry(list, t, ttl)
  }

  /** How often the loop tries at most: once even when no retries are allowed. */
  function MaxTries(maxRetries: nat): nat {
    if maxRetries == 0 then 1 else maxRetries
  }

  /** The tries follow the outcomes: all failed but perhaps the last, never more than allowed. */
  ghost predicate TriesFollow(tries: seq<Try>, outcomes: nat -> Option<Reply>, maxRetries: nat) {
    && |tries| <= MaxTries(maxRetries)
    && (forall i :: 0 <= i < |tries| ==> (tries[i].failed <==> outcomes(i).None?))
    && (forall i :: 0 <= i < |tries| - 1 ==> tries[i].failed)
  }

  lemma OneMoreTry(list: seq<Rpc>, tries: seq<Try>, ttl: nat, middle: seq<Rpc>, t: Try, after: seq<Rpc>)
    requires TriesLead(list, tries, ttl, middle) && TryLeads(middle, t, ttl, after)
    ensures TriesLead(list, tries + [t], ttl, after)
  {
    var longer := tries + [t];
    assert longer[..|longer| - 1] == tries;
  }

  /** The node of the last try has this id. */
  ghost predicate AskedLast(list: seq<Rpc>, tries: seq<Try>, ttl: nat, id: nat) {
    tries != [] &&
    var init, last := tries[..|tries| - 1], tries[|tries| - 1];
    exists middle: seq<Rpc> ::
      && TriesLead(list, init, ttl, middle)
      && CanTry(middle, last) && middle[PositionBy(middle, last)].id == id
  }

  lemma LastTryAsked(list: seq<Rpc>, tries: seq<Try>, ttl: nat, middle: seq<Rpc>, t: Try)
    requires TriesLead(list, tries, ttl, middle) && CanTry(middle, t)
    ensures AskedLast(list, tries + [t], ttl, middle[PositionBy(middle, t)].id)
  {
    assert (tries + [t])[..|tries|] == tries;
  }

  /** One turn of the loop: a node is picked, asked, and charged if it does not answer in time. */
  method TryOnce(list: array<Rpc>, time: nat, outcome: Option<Reply>, ttl: nat)
    returns (rpcId: nat, ghost t: Try)
    requires list.Length > 0 && HasWindows(list[..])
    modifies list
    ensures TryLeads(old(list[..]), t, ttl, list[..]) && (t.failed <==> outcome.None?)
    ensures HasWindows(list[..]) && rpcId == old(list[..])[PositionBy(old(list[..]), t)].id
  {
    hide WindowLength, IsOrder, Picked, Choice;
    ghost var before := list[..];
    var rpc, position;
    ghost var order;
    rpc, position, order := Pick(list, time);
    t := Try(time, order, outcome.None?);
    TryIsPick(before, t, list[..]);
    rpcId := rpc.value.id;
    assert list[..][position.value].id == rpcId;
    if outcome.None? {
      ChargingNeverResetsLimits(list[..], rpcId, Nanos(ttl));
      UpdateRpcLatency(list, rpcId, Nanos(ttl));
      assert list[..][position.value].id == rpcId;
    }
  }

  /** `fetch_from_rpc!` without its caching: outcome `i` is what the node of try `i` answers within
      the time to live, or None, and `clock(i)` the time of that pick. */
  method Fetch(list: array<Rpc>, ttl: nat, maxRetries: nat, outcomes: nat -> Option<Reply>, clock: nat -> nat)
    returns (response: Response, rpcId: Option<nat>, ghost tries: seq<Try>)
    requires HasWindows(list[..])
    modifies list
    ensures response.NoRpcAvailable? || response.TimedOut? || response.FromNode?
    ensures response.NoRpcAvailable? <==> list.Length == 0
    ensures TriesLead(old(list[..]), tries, ttl, list[..]) && TriesFollow(tries, outcomes, maxRetries)
    ensures response.FromNode? ==>
              && tries != [] && !tries[|tries| - 1].failed
              && outcomes(|tries| - 1) == Some(response.rx)
              && rpcId.Some? && AskedLast(old(list[..]), tries, ttl, rpcId.value)
    ensures |tries| <= 1 || |tries| <= maxRetries
    ensures list.Length != 0 ==> tries != []
    ensures response.TimedOut? ==>
              && (|tries| == maxRetries || (|tries| == 1 && maxRetries == 0))
              && (forall i :: 0 <= i < |tries| ==> tries[i].failed) && rpcId == None
  {
    hide TriesLead, TryLeads, AskedLast, HasWindows, CanTry, PositionBy, TriesFollow;
    NoTriesFollow(outcomes, maxRetries);
    tries := [];
    NoTries(list[..], ttl);
    if list.Length == 0 {
      return NoRpcAvailable, None, tries;
    }
    var retries := 0;
    while true
      invariant retries == |tries| && (retries == 0 || retries < maxRetries)
      invariant TriesLead(old(list[..]), tries, ttl, list[..])
      invariant forall i :: 0 <= i < |tries| ==> tries[i].failed && outcomes(i).None?
      invariant HasWindows(list[..])
      decreases maxRetries - retries
    {
      ghost var middle := list[..];
      ghost var t;
      var id;
      id, t := TryOnce(list, clock(retries), outcomes(retries), ttl);
      OneMoreTry(old(list[..]), tries, ttl, middle, t, list[..]);
      TryCan(middle, t, ttl, list[..]);
      LastTryAsked(old(list[..]), tries, ttl, middle, t);
      OneMoreFollows(tries, t, outcomes, maxRetries);
      tries := tries + [t];
      match outcomes(retries) {
        case Some(rx) => return FromNode(rx), Some(id), tries;
        case None =>
      }
      retries := retries + 1;
      if retries >= maxRetries {
        return TimedOut, None, tries;
      }
    }
  }

  lemma NoTriesFollow(outcomes: nat -> Option<Reply>, maxRetries: nat)
    ensures TriesFollow([], outcomes, maxRetries)
  {
  }

  lemma OneMoreFollows(tries: seq<Try>, t: Try, outcomes: nat -> Option<Reply>, maxRetries: nat)
    requires tries == [] || |tries| < maxRetries
    requires forall i :: 0 <= i < |tries| ==> tries[i].failed && outcomes(i).None?
    requires t.failed <==> outcomes(|tries|).None?
    ensures TriesFollow(tries + [t], outcomes, maxRetries)
    ensures t.failed ==> forall i :: 0 <= i <= |tries| ==> (tries + [t])[i].failed && outcomes(i).None?
  {
  }

  lemma TryCan(list: seq<Rpc>, t: Try, ttl: nat, after: seq<Rpc>)
    requires TryLeads(list, t, ttl, after)
    ensures CanTry(list, t)
  {
  }

  lemma NoTries(list: seq<Rpc>, ttl: nat)
    ensures TriesLead(list, [], ttl, list)
  {
  }

  /** What `Pick` did is the first half of a try. */
  lemma TryIsPick(list: seq<Rpc>, t: Try, after: seq<Rpc>)
    requires list != [] && HasWindows(list)
    requires |list| == 1 ==> t.order == [] && after == list
    requires |list| >= 2 ==> IsOrder(t.order, list) && after == Picked(list, t.order, t.time)
    ensures CanTry(list, t) && PickedBy(list, t) == after
    ensures list[PositionBy(list, t)].id == after[PositionBy(list, t)].id
    ensures HasWindows(after)
  {
  }

  /** Answers an already parsed request. A cached answer is served without touching the nodes or
      the cache. Otherwise the cache is offered the answer under the key of the request, and the
      client gets it as it came, unless the offer ends the connection. */
  method ForwardValue(
    request: Value, cache: ReorgAwareCache, named: NamedBlocknumbers, list: array<Rpc>,
    ttl: nat, maxRetries: nat, outcomes: nat -> Option<Reply>, clock: nat -> nat)
    returns (response: Response, rpcId: Option<nat>, ghost tries: seq<Try>)
    requires cache.Valid() && HasWindows(list[..])
    modifies cache, cache.bus, list
    ensures cache.Valid()
    ensures response.InvalidRequest? <==> !request.Object?
    ensures request.Object? ==>
              (response.FromCache? <==> Hit(old(cache.State()), request, named).Some?)
    ensures response.FromCache? ==> Some(response.body) == Hit(old(cache.State()), request, named)
    ensures response.FromCache? || response.InvalidRequest? ==> tries == [] && rpcId == None
    ensures TriesLead(old(list[..]), tries, ttl, list[..]) && TriesFollow(tries, outcomes, maxRetries)
    ensures request.Object? ==>
              cache.State() ==
                if response.FromNode? || response.Dropped?
                then AfterAnswer(old(cache.State()), request, named, outcomes(LastTry(tries)))
                else old(cache.State())
    ensures response.FromNode? ==>
              && Some(response.rx) == outcomes(LastTry(tries))
              && rpcId.Some? && AskedLast(old(list[..]), tries, ttl, rpcId.value)
    ensures |tries| <= 1 || |tries| <= maxRetries
    ensures response.FromNode? || response.Dropped? ==> outcomes(LastTry(tries)).Some?
    ensures response.FromNode? || response.Dropped? ==>
              (response.Dropped? <==>
                 && CanCache(Print(Outgoing(request, named)), outcomes(LastTry(tries)).value.text)
                 && TooShort(request))
  {
    hide Hit, CacheQuery, Print, HasBlockTag, CanCache, TooShort, ReplaceBlockTags,
      TriesLead, TriesFollow, AskedLast, HasWindows, CanTry, IdOf, Replay;
    tries := [];
    NoTriesFollow(outcomes, maxRetries);
    NoTries(list[..], ttl);
    if !request.Object? {
      return InvalidRequest, None, tries;
    }
    var id := IdOf(request);
    var tx := Set(request, "id", Null);
    tx := ReplaceBlockTags(tx, named);
    var key := tx;
    KeyIsObject(request, named);
    HitIs(cache.State(), request, named);
    if !HasBlockTag(Print(tx)) {
      var cached := cache.bus.Get(key);
      if cached.Some? {
        return FromCache(Set(cached.value, "id", Number(id))), None, tries;
      }
    }
    tx := Set(tx, "id", Number(id));
    OutgoingTooShort(request, named);
    response, rpcId, tries := Fetch(list, ttl, maxRetries, outcomes, clock);
    if response.FromNode? {
      var panicked := cache.StoreAnswer(response.rx, tx, key, named);
      if panicked {
        response := Dropped;
      }
    }
  }

  function LastTry(tries: seq<Try>): nat {
    if tries == [] then 0 else |tries| - 1
  }

  function AfterAnswer(c: Cache, request: Value, named: NamedBlocknumbers, rx: Option<Reply>): Cache
    requires request.Object?
  {
    match rx
    case Some(reply) => CacheQuery(c, reply, Outgoing(request, named), KeyOf(request, named), named)
    case None => c
  }

  lemma HitIs(c: Cache, request: Value, named: NamedBlocknumbers)
    requires request.Object? && AllObjects(c.db)
    ensures Hit(c, request, named)
         == if !HasBlockTag(Print(KeyOf(request, named))) && KeyOf(request, named) in c.db
            then Some(Set(c.db[KeyOf(request, named)], "id", Number(IdOf(request)))) else None
  {
  }

  /** A request answered without anything in between is an asking followed at once by the handing
      over of its answer, and that is always orderly: only an observed head in between can make an
      answer late. */
  lemma AnsweringIsAskThenStore(up: Transparency.Upstream, w: Transparency.World,
                                request: Value, named: NamedBlocknumbers, fails: bool, other: Reply)
    requires request.Object? && Hit(w.cache, request, named).None?
    ensures var asked := Transparency.Step(up, w, Transparency.Ask(request, named, fails, other));
            var stored := Transparency.Step(up, asked, Transparency.Store(|w.flights|, named));
            && asked.cache == w.cache && |asked.flights| == |w.flights| + 1
            && Transparency.Orderly(asked, Transparency.Store(|w.flights|, named))
            && stored == w.(cache := AfterAnswer(w.cache, request, named, Some(asked.flights[|w.flights|].rx)))
  {
    hide Hit, CacheQuery, PlainNumber, Print;
    KeyIsObject(request, named);
    hide KeyOf;
    var flight := Transparency.Launch(up, w.chain, KeyOf(request, named), IdOf(request), fails, other);
    assert (w.flights + [flight])[..|w.flights|] + (w.flights + [flight])[|w.flights| + 1..] == w.flights;
  }
}
