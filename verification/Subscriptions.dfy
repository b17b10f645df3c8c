/** WebSocket subscriptions: who is connected, who subscribed to what on which node, and what is
    dispatched to whom. */
module Subscriptions {
  import opened Wrappers
  import opened Json

  type UserId = nat

  /** The sending half of a connection's channel. */
  type Channel = nat

  datatype NodeSubInfo = NodeSubInfo(nodeId: nat, subscriptionId: string)

  datatype RequestResult = Call(call: Value) | Subscription(sub: Value)

  /** A message accepted by the channel of a user. */
  datatype Delivery = Delivery(user: UserId, channel: Channel, message: RequestResult)

  /** Which channels were closed by their receivers, and what the others took, in order. */
  datatype Wires = Wires(closed: set<Channel>, sent: seq<Delivery>)

  datatype Subs = Subs(
    users: map<UserId, Channel>,
    subscriptions: map<NodeSubInfo, set<UserId>>,
    incoming: map<string, NodeSubInfo>)

  // ---------------------------------------------------------------------------
  // The operations, as functions

  function WithoutUsers(
    subscriptions: map<NodeSubInfo, set<UserId>>, gone: set<UserId>): map<NodeSubInfo, set<UserId>> {
    map info | info in subscriptions :: subscriptions[info] - gone
  }

  function RemovedUsers(s: Subs, gone: set<UserId>): Subs {
    s.(users := s.users - gone, subscriptions := WithoutUsers(s.subscriptions, gone))
  }

  function Subscribers(s: Subs, info: NodeSubInfo): set<UserId> {
    if info in s.subscriptions then s.subscriptions[info] else {}
  }

  function Subscribed(s: Subs, user: UserId, subscription: string): Subs {
    if subscription !in s.incoming then s
    else
      var info := s.incoming[subscription];
      s.(subscriptions := s.subscriptions[info := Subscribers(s, info) + {user}])
  }

  function Unsubscribed(s: Subs, user: UserId, subscriptionId: string): Subs {
    s.(subscriptions := map info | info in s.subscriptions ::
      if info.subscriptionId == subscriptionId then s.subscriptions[info] - {user} else s.subscriptions[info])
  }

  /** Registered users subscribed to this very subscription of this very node. */
  function Recipients(s: Subs, info: NodeSubInfo): set<UserId> {
    set u | u in Subscribers(s, info) && u in s.users
  }

  function ClosedAmong(s: Subs, users: set<UserId>, closed: set<Channel>): set<UserId> {
    set u | u in users && u in s.users && s.users[u] in closed
  }

  /** The state after a dispatch. An entry nobody is left in is unregistered under the text of its
      id, although entries are registered under the text of their parameters. */
  function Dispatched(s: Subs, info: NodeSubInfo, closed: set<Channel>): Subs {
    if info !in s.subscriptions then s
    else if s.subscriptions[info] == {} then s.(incoming := s.incoming - {info.subscriptionId})
    else RemovedUsers(s, ClosedAmong(s, Recipients(s, info), closed))
  }

  /** The text subscriptions are registered under. */
  function ParamsText(subscription: Value): string {
    Print(Field(subscription, "params"))
  }

  predicate HasParams(subscription: Value) {
    Field(subscription, "params").Array? && Field(subscription, "params").items != []
  }

  // ---------------------------------------------------------------------------
  // The operations, as the program performs them

  class SubscriptionData {
    var users: map<UserId, Channel>
    var subscriptions: map<NodeSubInfo, set<UserId>>
    var incomingSubscriptions: map<string, NodeSubInfo>
    /** The gauges `ws_users_total` and `ws_node_subs_total`. */
    var usersTotal: int
    var nodeSubsTotal: int

    ghost function State(): Subs
      reads this
    {
      Subs(users, subscriptions, incomingSubscriptions)
    }

    /** The gauges show the sizes of the maps. */
    ghost predicate Valid()
      reads this
    {
      usersTotal == |users| && nodeSubsTotal == |incomingSubscriptions|
    }

    constructor ()
      ensures Valid() && State() == Subs(map[], map[], map[])
    {
      users, subscriptions, incomingSubscriptions := map[], map[], map[];
      usersTotal, nodeSubsTotal := 0, 0;
    }

    method AddUser(userId: UserId, userData: Channel)
      requires Valid()
      modifies this
      ensures Valid() && State() == old(State()).(users := old(users)[userId := userData])
    {
      if userId !in users {
        usersTotal := usersTotal + 1;
      }
      users := users[userId := userData];
    }

    method UnsubscribeUserFromAll(userId: UserId)
      requires Valid()
      modifies this
      ensures Valid() && State() == old(State()).(subscriptions := WithoutUsers(old(subscriptions), {userId}))
    {
      var left := subscriptions.Keys;
      while left != {}
        invariant left <= subscriptions.Keys == old(subscriptions).Keys
        invariant forall info :: info in subscriptions ==>
          subscriptions[info] == if info in left then old(subscriptions)[info] else old(subscriptions)[info] - {userId}
        invariant Valid() && State() == old(State()).(subscriptions := subscriptions)
      {
        var info :| info in left;
        if userId in subscriptions[info] {
          subscriptions := subscriptions[info := subscriptions[info] - {userId}];
        }
        left := left - {info};
      }
    }

    /** The second loop, over sets the user has already been taken out of, changes only a gauge
        that is not part of this model. */
    method RemoveUser(userId: UserId)
      requires Valid()
      modifies this
      ensures Valid() && State() == RemovedUsers(old(State()), {userId})
    {
      UnsubscribeUserFromAll(userId);
      if userId in users {
        usersTotal := usersTotal - 1;
      }
      users := users - {userId};
    }

    method RawRegister(subscription: string, subscriptionId: string, nodeId: nat)
      requires Valid()
      modifies this
      ensures Valid()
      ensures State() == old(State()).(
        incoming := old(incomingSubscriptions)[subscription := NodeSubInfo(nodeId, subscriptionId)])
    {
      if subscription !in incomingSubscriptions {
        nodeSubsTotal := nodeSubsTotal + 1;
      }
      incomingSubscriptions := incomingSubscriptions[subscription := NodeSubInfo(nodeId, subscriptionId)];
    }

    method RegisterSubscription(subscription: Value, subscriptionId: string, nodeId: nat)
      requires Valid()
      modifies this
      ensures Valid()
      ensures State() == old(State()).(
        incoming := old(incomingSubscriptions)[
          Print(Field(subscription, "params")) := NodeSubInfo(nodeId, subscriptionId)])
    {
      RawRegister(ParamsText(subscription), subscriptionId, nodeId);
    }

    method UnregisterSubscription(subscriptionRequest: string)
      requires Valid()
      modifies this
      ensures Valid() && State() == old(State()).(incoming := old(incomingSubscriptions) - {subscriptionRequest})
    {
      if subscriptionRequest in incomingSubscriptions {
        nodeSubsTotal := nodeSubsTotal - 1;
      }
      incomingSubscriptions := incomingSubscriptions - {subscriptionRequest};
    }

    /** Fails, changing nothing, for a request without parameters or an unknown subscription. */
    method SubscribeUser(userId: UserId, subscription: Value) returns (r: Outcome<string>)
      requires Valid()
      modifies this
      ensures Valid()
      ensures r.Ok? <==>
                && Field(subscription, "params").Array? && Field(subscription, "params").items != []
                && Print(Field(subscription, "params")) in incomingSubscriptions
      ensures r.Ok? ==> r.value == incomingSubscriptions[Print(Field(subscription, "params"))].subscriptionId
      ensures State() == if r.Ok? then Subscribed(old(State()), userId, ParamsText(subscription)) else old(State())
    {
      if !HasParams(subscription) {
        return Err;
      }
      var text := ParamsText(subscription);
      if text !in incomingSubscriptions {
        return Err;
      }
      var info := incomingSubscriptions[text];
      var subscribers := if info in subscriptions then subscriptions[info] else {};
      subscriptions := subscriptions[info := subscribers + {userId}];
      return Ok(info.subscriptionId);
    }

    method UnsubscribeUser(userId: UserId, subscriptionId: string)
      requires Valid()
      modifies this
      ensures Valid() && State() == Unsubscribed(old(State()), userId, subscriptionId)
    {
      var left := subscriptions.Keys;
      while left != {}
        invariant left <= subscriptions.Keys == old(subscriptions).Keys
        invariant forall info :: info in subscriptions ==>
          subscriptions[info] == if info in left || info.subscriptionId != subscriptionId
                                 then old(subscriptions)[info] else old(subscriptions)[info] - {userId}
        invariant Valid() && State() == old(State()).(subscriptions := subscriptions)
      {
        var info :| info in left;
        if info.subscriptionId == subscriptionId && userId in subscriptions[info] {
          subscriptions := subscriptions[info := subscriptions[info] - {userId}];
        }
        left := left - {info};
      }
    }

    /** Sends the message to every registered subscriber, in no particular order, and removes those
        whose channel is closed. Returns true when there is an entry with nobody in it. */
    method DispatchToSubscribers(subscriptionId: string, nodeId: nat, message: RequestResult, wires: Wires)
      returns (r: Outcome<bool>, after: Wires)
      requires Valid()
      modifies this
      ensures Valid()
      ensures r.Err? <==> message.Call?
      ensures r.Err? ==> State() == old(State()) && after == wires
      ensures r.Ok? ==>
        var info := NodeSubInfo(nodeId, subscriptionId);
        && (r.value <==> info in old(subscriptions) && old(subscriptions)[info] == {})
        && State() == Dispatched(old(State()), info, wires.closed)
        && SentOnce(wires, after, Deliveries(old(State()), Reached(old(State()), info, wires.closed), message))
    {
      after := wires;
      if message.Call? {
        return Err, wires;
      }
      var info := NodeSubInfo(nodeId, subscriptionId);
      if info !in subscriptions {
        NobodyReached(State(), info, wires.closed, message);
        return Ok(false), wires;
      }
      if subscriptions[info] == {} {
        NobodyReached(State(), info, wires.closed, message);
        UnregisterSubscription(subscriptionId);
        return Ok(true), wires;
      }
      var recipients := set u | u in subscriptions[info] && u in users :: (u, users[u]);
      after := SendToAll(recipients, Recipients(State(), info), message, wires);
      return Ok(false), after;
    }

    /** The loop over the collected recipients. */
    method SendToAll(recipients: set<(UserId, Channel)>, ghost ids: set<UserId>, message: RequestResult, wires: Wires)
      returns (after: Wires)
      requires Valid()
      requires ids <= users.Keys && recipients == set u | u in ids :: (u, users[u])
      modifies this
      ensures Valid()
      ensures State() == RemovedUsers(old(State()), ClosedAmong(old(State()), ids, wires.closed))
      ensures SentOnce(wires, after,
                       Deliveries(old(State()), ids - ClosedAmong(old(State()), ids, wires.closed), message))
    {
      hide RemovedUsers, ClosedAmong, Deliveries, SentOnce;
      after := wires;
      var left := recipients;
      ghost var done: set<UserId> := {};
      ghost var before := State();
      NothingDone(before, wires, message);
      while left != {}
        invariant done <= ids
        invariant left == set u | u in ids && u !in done :: (u, before.users[u])
        invariant forall u :: u in ids && u !in done ==> (u, before.users[u]) in left
        invariant Valid() && State() == RemovedUsers(before, ClosedAmong(before, done, wires.closed))
        invariant SentOnce(wires, after,
                           Deliveries(before, done - ClosedAmong(before, done, wires.closed), message))
      {
        var recipient :| recipient in left;
        var (user, channel) := recipient;
        OneMore(before, done, user, wires, after, message);
        if channel in wires.closed {
          RemoveUser(user);
        } else {
          after := after.(sent := after.sent + [Delivery(user, channel, message)]);
        }
        left := left - {recipient};
        done := done + {user};
      }
      assert done == ids;
    }
  }

  /** Recipients whose channel still takes messages. */
  function Reached(s: Subs, info: NodeSubInfo, closed: set<Channel>): set<UserId> {
    Recipients(s, info) - ClosedAmong(s, Recipients(s, info), closed)
  }

  /** One delivery for each of these users. */
  function Deliveries(s: Subs, users: set<UserId>, message: RequestResult): set<Delivery> {
    set u | u in users && u in s.users :: Delivery(u, s.users[u], message)
  }

  lemma NobodyReached(s: Subs, info: NodeSubInfo, closed: set<Channel>, message: RequestResult)
    requires Subscribers(s, info) == {}
    ensures Deliveries(s, Reached(s, info, closed), message) == {}
  {
  }

  /** Behind what was sent before, exactly these deliveries were made, each once. */
  ghost predicate SentOnce(before: Wires, after: Wires, deliveries: set<Delivery>) {
    && after.closed == before.closed
    && |before.sent| <= |after.sent| && after.sent[..|before.sent|] == before.sent
    && (forall d :: d in after.sent[|before.sent|..] <==> d in deliveries)
    && (forall i, j :: |before.sent| <= i < j < |after.sent| ==> after.sent[i] != after.sent[j])
  }

  lemma NothingDone(s: Subs, wires: Wires, message: RequestResult)
    ensures RemovedUsers(s, ClosedAmong(s, {}, wires.closed)) == s
    ensures SentOnce(wires, wires, Deliveries(s, {} - ClosedAmong(s, {}, wires.closed), message))
  {
    assert ClosedAmong(s, {}, wires.closed) == {};
    assert forall info :: info in s.subscriptions ==> s.subscriptions[info] - {} == s.subscriptions[info];
    assert WithoutUsers(s.subscriptions, {}) == s.subscriptions;
    assert s.users - {} == s.users;
    assert Deliveries(s, {} - {}, message) == {};
  }

  lemma RemoveTwice(s: Subs, a: set<UserId>, b: set<UserId>)
    ensures RemovedUsers(RemovedUsers(s, a), b) == RemovedUsers(s, a + b)
  {
    var left, right := RemovedUsers(RemovedUsers(s, a), b), RemovedUsers(s, a + b);
    assert left.users == right.users;
    forall info | info in s.subscriptions
      ensures left.subscriptions[info] == right.subscriptions[info]
    {
    }
    assert left.subscriptions == right.subscriptions;
  }

  lemma SendOne(before: Wires, wires: Wires, deliveries: set<Delivery>, d: Delivery)
    requires SentOnce(before, wires, deliveries) && d !in deliveries
    ensures SentOnce(before, wires.(sent := wires.sent + [d]), deliveries + {d})
  {
    var after := wires.(sent := wires.sent + [d]);
    assert after.sent[|before.sent|..] == wires.sent[|before.sent|..] + [d];
    forall i | |before.sent| <= i < |wires.sent|
      ensures wires.sent[i] != d
    {
      assert wires.sent[i] in wires.sent[|before.sent|..];
    }
  }

  lemma OneMore(s: Subs, done: set<UserId>, user: UserId, wires: Wires, after: Wires, message: RequestResult)
    requires user in s.users && user !in done
    requires SentOnce(wires, after, Deliveries(s, done - ClosedAmong(s, done, wires.closed), message))
    ensures var was, now := ClosedAmong(s, done, wires.closed), ClosedAmong(s, done + {user}, wires.closed);
            if s.users[user] in wires.closed then
              && RemovedUsers(RemovedUsers(s, was), {user}) == RemovedUsers(s, now)
              && SentOnce(wires, after, Deliveries(s, done + {user} - now, message))
            else
              && now == was
              && SentOnce(wires, after.(sent := after.sent + [Delivery(user, s.users[user], message)]),
                          Deliveries(s, done + {user} - now, message))
  {
    hide RemovedUsers, SentOnce;
    var was, now := ClosedAmong(s, done, wires.closed), ClosedAmong(s, done + {user}, wires.closed);
    if s.users[user] in wires.closed {
      assert now == was + {user};
      assert done + {user} - now == done - was;
      RemoveTwice(s, was, {user});
    } else {
      var d := Delivery(user, s.users[user], message);
      assert now == was;
      assert Deliveries(s, done + {user} - now, message) == Deliveries(s, done - was, message) + {d};
      SendOne(wires, after, Deliveries(s, done - was, message), d);
    }
  }
}
