/** What the subscription maps amount to, over runs and at a dispatch. */
module SubscriptionRuns {
  import opened Wrappers
  import opened Text
  import opened Json
  import opened JsonText
  import opened Subscriptions

  type Pair = (NodeSubInfo, UserId)

  /** Who is subscribed to what. */
  ghost function Pairs(s: Subs): set<Pair> {
    set info, u | info in s.subscriptions && u in s.subscriptions[info] :: (info, u)
  }

  datatype Event =
    | Add(user: UserId, channel: Channel)
    | Remove(user: UserId)
    | Register(subscription: Value, id: string, node: nat)
    | Unregister(request: string)
    | Subscribe(user: UserId, subscription: Value)
    | Unsubscribe(user: UserId, id: string)
      /** A message of this subscription arrives while some channels are closed. */
    | Dispatch(info: NodeSubInfo, closed: set<Channel>)

  function Step(s: Subs, e: Event): Subs {
    match e
    case Add(u, c) => s.(users := s.users[u := c])
    case Remove(u) => RemovedUsers(s, {u})
    case Register(sub, id, node) => s.(incoming := s.incoming[ParamsText(sub) := NodeSubInfo(node, id)])
    case Unregister(request) => s.(incoming := s.incoming - {request})
    case Subscribe(u, sub) => if HasParams(sub) then Subscribed(s, u, ParamsText(sub)) else s
    case Unsubscribe(u, id) => Unsubscribed(s, u, id)
    case Dispatch(info, closed) => Dispatched(s, info, closed)
  }

  function Steps(s: Subs, es: seq<Event>): Subs {
    if es == [] then s else Step(Steps(s, es[..|es| - 1]), es[|es| - 1])
  }

  /** The same without nesting: who is connected, a set of pairs, which subscriptions ever had a
      user, and what is registered. */
  datatype Plain = Plain(
    users: map<UserId, Channel>, pairs: set<Pair>, entries: set<NodeSubInfo>, incoming: map<string, NodeSubInfo>)

  ghost function Abstract(s: Subs): Plain {
    Plain(s.users, Pairs(s), s.subscriptions.Keys, s.incoming)
  }

  ghost function PlainWithout(p: Plain, gone: set<UserId>): Plain {
    p.(users := p.users - gone, pairs := set pair | pair in p.pairs && pair.1 !in gone)
  }

  ghost function PlainStep(p: Plain, e: Event): Plain {
    match e
    case Add(u, c) => p.(users := p.users[u := c])
    case Remove(u) => PlainWithout(p, {u})
    case Register(sub, id, node) => p.(incoming := p.incoming[ParamsText(sub) := NodeSubInfo(node, id)])
    case Unregister(request) => p.(incoming := p.incoming - {request})
    case Subscribe(u, sub) =>
      if HasParams(sub) && ParamsText(sub) in p.incoming
      then
        var info := p.incoming[ParamsText(sub)];
        p.(pairs := p.pairs + {(info, u)}, entries := p.entries + {info})
      else p
    case Unsubscribe(u, id) =>
      p.(pairs := set pair | pair in p.pairs && !(pair.0.subscriptionId == id && pair.1 == u))
    case Dispatch(info, closed) =>
      if info !in p.entries then p
      else if forall pair :: pair in p.pairs ==> pair.0 != info
      then p.(incoming := p.incoming - {info.subscriptionId})
      else PlainWithout(p, set u | (info, u) in p.pairs && u in p.users && p.users[u] in closed)
  }

  ghost function PlainSteps(p: Plain, es: seq<Event>): Plain {
    if es == [] then p else PlainStep(PlainSteps(p, es[..|es| - 1]), es[|es| - 1])
  }

  lemma RemovingRefines(s: Subs, gone: set<UserId>)
    ensures Abstract(RemovedUsers(s, gone)) == PlainWithout(Abstract(s), gone)
  {
    assert Pairs(RemovedUsers(s, gone)) == set pair | pair in Pairs(s) && pair.1 !in gone;
  }

  lemma DispatchRefines(s: Subs, info: NodeSubInfo, closed: set<Channel>)
    ensures Abstract(Dispatched(s, info, closed)) == PlainStep(Abstract(s), Dispatch(info, closed))
  {
    hide RemovedUsers, PlainWithout;
    if info in s.subscriptions {
      if s.subscriptions[info] != {} {
        var u :| u in s.subscriptions[info];
        assert (info, u) in Pairs(s);
      }
      var gone := set u | (info, u) in Pairs(s) && u in s.users && s.users[u] in closed;
      assert gone == ClosedAmong(s, Recipients(s, info), closed);
      RemovingRefines(s, gone);
    }
  }

  lemma StepRefines(s: Subs, e: Event)
    ensures Abstract(Step(s, e)) == PlainStep(Abstract(s), e)
  {
    hide ParamsText, HasParams, RemovedUsers, PlainWithout, Dispatched;
    var after := Pairs(Step(s, e));
    match e
    case Add(u, c) => assert after == Pairs(s);
    case Remove(u) => RemovingRefines(s, {u});
    case Register(sub, id, node) => assert after == Pairs(s);
    case Unregister(request) => assert after == Pairs(s);
    case Subscribe(u, sub) =>
      if HasParams(sub) && ParamsText(sub) in s.incoming {
        assert after == Pairs(s) + {(s.incoming[ParamsText(sub)], u)};
      }
    case Unsubscribe(u, id) =>
      assert after == set pair | pair in Pairs(s) && !(pair.0.subscriptionId == id && pair.1 == u);
    case Dispatch(info, closed) => DispatchRefines(s, info, closed);
  }

  /** Over any run the nested maps behave like a plain set of pairs. */
  lemma {:induction false} MapsRefineAPairSet(s: Subs, es: seq<Event>)
    ensures Abstract(Steps(s, es)) == PlainSteps(Abstract(s), es)
  {
    hide Step, PlainStep, Abstract;
    if es != [] {
      MapsRefineAPairSet(s, es[..|es| - 1]);
      StepRefines(Steps(s, es[..|es| - 1]), es[|es| - 1]);
    }
  }

  /** A dispatch reaches exactly the registered subscribers with an open channel. Those with a
      closed one are in no subscription and not connected afterwards; every other membership is
      as before. When nobody is left in the entry, a registration disappears exactly when its text
      is the subscription id, and otherwise none does. */
  lemma DispatchIsExact(s: Subs, info: NodeSubInfo, closed: set<Channel>)
    ensures var q := Dispatched(s, info, closed);
            var gone := set u | (info, u) in Pairs(s) && u in s.users && s.users[u] in closed;
            && (forall u :: u in Reached(s, info, closed) <==>
                  (info, u) in Pairs(s) && u in s.users && s.users[u] !in closed)
            && q.users == s.users - gone
            && (forall i, u :: (i, u) in Pairs(q) <==> (i, u) in Pairs(s) && u !in gone)
            && (forall t :: t in q.incoming <==>
                  && t in s.incoming
                  && !(info in s.subscriptions && Subscribers(s, info) == {} && t == info.subscriptionId))
            && (forall t :: t in q.incoming ==> q.incoming[t] == s.incoming[t])
  {
    var q := Dispatched(s, info, closed);
    var gone := set u | (info, u) in Pairs(s) && u in s.users && s.users[u] in closed;
    assert gone == ClosedAmong(s, Recipients(s, info), closed);
  }

  // ---------------------------------------------------------------------------
  // Which text a registration is made under

  /** Subscriptions share a registration exactly when their parameters are equal. */
  lemma ParamsDetermineRegistration(a: Value, b: Value)
    ensures ParamsText(a) == ParamsText(b) <==> Field(a, "params") == Field(b, "params")
  {
    TextDeterminesValue(Field(a, "params"), Field(b, "params"));
  }

  /** What a user who subscribes gets into, right after a registration: that one if the parameters are
      equal, and otherwise what was registered before. */
  lemma RegisteredIsFound(s: Subs, sub: Value, id: string, node: nat, user: UserId, asked: Value)
    requires Field(asked, "params").Array? && Field(asked, "params").items != []
    ensures var q := Step(Step(s, Register(sub, id, node)), Subscribe(user, asked));
            var info := NodeSubInfo(node, id);
            && (Field(asked, "params") == Field(sub, "params") ==> user in Subscribers(q, info))
            && (Field(asked, "params") != Field(sub, "params") && Print(Field(asked, "params")) !in s.incoming ==>
                  q.subscriptions == s.subscriptions)
  {
    hide Print, Field;
    ParamsDetermineRegistration(sub, asked);
  }

  // ---------------------------------------------------------------------------
  // Which text a registration is removed under

  const EMPTY_SUBS := Subs(map[], map[], map[])

  /** The text of a JSON value never starts like a quantity. */
  lemma TextIsNoQuantity(j: Value)
    ensures !("0x" <= Print(j))
  {
    var text := Print(j);
    if j.Number? {
      DecimalShape(j.n);
      assert |text| > 1 ==> text[1] != "0x"[1];
    } else {
      assert text[0] != "0x"[0];
    }
  }

  lemma {:induction false} RegisteredTexts(es: seq<Event>, t: string)
    requires t in Steps(EMPTY_SUBS, es).incoming
    ensures !("0x" <= t)
  {
    hide Print;
    var init, e := es[..|es| - 1], es[|es| - 1];
    if t in Steps(EMPTY_SUBS, init).incoming {
      RegisteredTexts(init, t);
    } else {
      assert e.Register? && t == ParamsText(e.subscription);
      TextIsNoQuantity(Field(e.subscription, "params"));
    }
  }

  /** Nodes hand out quantities as subscription ids. Over any run, no message of such a subscription
      ever unregisters anything, so the cleanup meant for abandoned subscriptions never happens. */
  lemma CleanupNeverHappens(es: seq<Event>, info: NodeSubInfo, closed: set<Channel>)
    requires "0x" <= info.subscriptionId
    ensures Step(Steps(EMPTY_SUBS, es), Dispatch(info, closed)).incoming == Steps(EMPTY_SUBS, es).incoming
  {
    hide Steps;
    if info.subscriptionId in Steps(EMPTY_SUBS, es).incoming {
      RegisteredTexts(es, info.subscriptionId);
      assert false;
    }
  }

  /** The subscription to new heads. */
  function NewHeads(): Value {
    Object([Member("params", Array([String("newHeads")]))])
  }

  /** A run in which the last subscriber leaves: the dispatch finds the entry empty, and the
      registration outlives it. */
  lemma AbandonedStaysRegistered(user: UserId, channel: Channel, node: nat)
    ensures var info := NodeSubInfo(node, "0x1");
            var s := Steps(EMPTY_SUBS, [
              Add(user, channel), Register(NewHeads(), "0x1", node), Subscribe(user, NewHeads()), Remove(user)]);
            && info in s.subscriptions && s.subscriptions[info] == {}
            && ParamsText(NewHeads()) in Dispatched(s, info, {}).incoming
  {
    hide Print;
    var info := NodeSubInfo(node, "0x1");
    var es := [Add(user, channel), Register(NewHeads(), "0x1", node), Subscribe(user, NewHeads()), Remove(user)];
    var s2 := Step(Step(EMPTY_SUBS, es[0]), es[1]);
    var s4 := Step(Step(s2, es[2]), es[3]);
    FourSteps(es);
    assert Find(NewHeads().members, "params") == Some(Array([String("newHeads")]));
    CleanupNeverHappens(es, info, {});
    assert ParamsText(NewHeads()) in s4.incoming;
  }

  lemma FourSteps(es: seq<Event>)
    requires |es| == 4
    ensures Steps(EMPTY_SUBS, es) == Step(Step(Step(Step(EMPTY_SUBS, es[0]), es[1]), es[2]), es[3])
  {
    hide Step;
    assert Steps(EMPTY_SUBS, es[..1]) == Step(EMPTY_SUBS, es[0]) by {
      assert es[..1][..0] == [];
    }
    assert Steps(EMPTY_SUBS, es[..2]) == Step(Steps(EMPTY_SUBS, es[..1]), es[1]) by {
      assert es[..2][..1] == es[..1];
    }
    assert Steps(EMPTY_SUBS, es[..3]) == Step(Steps(EMPTY_SUBS, es[..2]), es[2]) by {
      assert es[..3][..2] == es[..2];
    }
  }
}
