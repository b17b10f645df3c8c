/** What is served, and where transparency ends: the conditions under which every request is answered
    as the upstream would are exactly what the cache needs, and they can fail. */
module Exactness {
  import opened Wrappers
  import opened Json
  import opened CacheRules
  import opened Format
  import opened HeadCache
  import opened Transparency
  import opened Samples

  // ---------------------------------------------------------------------------
  // What is served

  /** A request for a numbered block that passes the gate on requests. */
  ghost predicate Cacheable(tx: Value, named: NamedBlocknumbers, id: nat) {
    && tx.Object?
    && CacheMethod(Print(Set(KeyOf(tx, named), "id", Number(id))))
    && PlainNumber(KeyOf(tx, named)).Block?
  }

  /** An answer that passes the gate on results and has an id to replace. */
  predicate Storable(rx: Reply) {
    CacheResult(rx.text) && StoredForm(rx).Some?
  }

  lemma CacheableIsRead(tx: Value, named: NamedBlocknumbers, id: nat)
    requires Cacheable(tx, named, id)
    ensures !HasBlockTag(Print(KeyOf(tx, named)))
  {
    IdNeverMattersToTags(KeyOf(tx, named), id);
    KeyHasNullId(tx, named);
  }

  /** Handing over an answer writes it exactly when request and answer may be cached. */
  lemma WrittenIff(c: Cache, f: Flight, tx: Value, named: NamedBlocknumbers, now: NamedBlocknumbers)
    requires tx.Object? && f.key == KeyOf(tx, named) && f.key.Object?
    ensures CacheQuery(c, f.rx, f.Request(), f.key, now).db
         == if Cacheable(tx, named, f.id) && Storable(f.rx) then c.db[f.key := StoredForm(f.rx).value] else c.db
  {
    hide StoredForm, PlainNumber, Print, CacheMethod, CacheResult, KeyOf;
    RequestNumber(f.key, f.id);
    if CanCache(Print(f.Request()), f.rx.text) {
      CachedNumbersNeverMove(f.Request(), f.rx.text, now, now);
    }
  }

  /** After an answer was handed over, the request it answers is answered from the cache, under any
      id, exactly when it was before or both request and answer may be cached. */
  lemma ServedIff(c: Cache, f: Flight, tx: Value, named: NamedBlocknumbers, now: NamedBlocknumbers)
    requires tx.Object? && f.key == KeyOf(tx, named) && f.key.Object?
    ensures Hit(CacheQuery(c, f.rx, f.Request(), f.key, now), tx, named).Some?
       <==> Hit(c, tx, named).Some? || (Cacheable(tx, named, f.id) && Storable(f.rx))
  {
    WrittenIff(c, f, tx, named, now);
    if Cacheable(tx, named, f.id) {
      CacheableIsRead(tx, named, f.id);
    }
    hide CacheQuery, KeyOf, Print, Cacheable, HasBlockTag, CacheResult;
  }

  /** A flight that carries the answer to this request from some block, and both may be cached. */
  ghost predicate Carries(up: Upstream, f: Flight, tx: Value, named: NamedBlocknumbers) {
    && Cacheable(tx, named, f.id) && f.key == KeyOf(tx, named)
    && f.block.Some? && f.rx == up(f.key, f.block.value, f.id) && Storable(f.rx)
  }

  /** What was handed over is served, under any id, as the answer from the block it was given from. */
  lemma StoredIsServed(
    up: Upstream, c: Cache, f: Flight, tx: Value, named: NamedBlocknumbers, now: NamedBlocknumbers)
    requires Honest(up) && Carries(up, f, tx, named)
    ensures f.key.Object?
    ensures Hit(CacheQuery(c, f.rx, f.Request(), f.key, now), tx, named) == up(f.key, f.block.value, IdOf(tx)).value
  {
    KeyIsObject(tx, named);
    WrittenIff(c, f, tx, named, now);
    CacheableIsRead(tx, named, f.id);
    RestoredIsAnswer(up, f.key, f.block.value, f.id, IdOf(tx));
    hide CacheQuery, KeyOf, Print, Cacheable, HasBlockTag, StoredForm;
  }

  // ---------------------------------------------------------------------------
  // Which answers come too late

  /** The upstream's answers to this request differ whenever their blocks do. */
  ghost predicate Tells(up: Upstream, key: Key) {
    forall a: BlockHash, b: BlockHash :: a != b ==> StoredForm(up(key, a, 0)) != StoredForm(up(key, b, 0))
  }

  lemma StoredIsFreshIff(
    up: Upstream, w: World, i: nat, tx: Value, named: NamedBlocknumbers, now: NamedBlocknumbers)
    requires i < |w.flights| && Carries(up, w.flights[i], tx, named) && Honest(up) && Tells(up, w.flights[i].key)
    ensures Fresh(up, Step(up, w, Store(i, now)), tx, named) <==> StillCanonical(w.chain, w.flights[i])
  {
    var f := w.flights[i];
    var w' := Step(up, w, Store(i, now));
    StoredIsServed(up, w.cache, f, tx, named, now);
    CarriedHasBlock(up, f, tx, named);
    StoreIs(up, w, i, now);
    hide PlainNumber, KeyOf, Hit, CacheQuery, Carries, Honest, Tells, StoredForm, Fresh, Step, IdOf;
    FreshIff(up, w', tx, named, f.block.value);
    var n: nat := PlainNumber(f.key).n;
    if n in w.chain {
      SameAnswerSameBlock(up, f.key, w.chain[n], f.block.value, IdOf(tx));
    }
  }

  lemma StoreIs(up: Upstream, w: World, i: nat, now: NamedBlocknumbers)
    requires i < |w.flights| && w.flights[i].key.Object?
    ensures var f, w' := w.flights[i], Step(up, w, Store(i, now));
            w'.chain == w.chain && w'.cache == CacheQuery(w.cache, f.rx, f.Request(), f.key, now)
  {
    hide CacheQuery;
  }

  lemma FreshIff(up: Upstream, w: World, tx: Value, named: NamedBlocknumbers, b: BlockHash)
    requires tx.Object? && PlainNumber(KeyOf(tx, named)).Block?
    requires up(KeyOf(tx, named), b, IdOf(tx)).value.Some?
    requires Hit(w.cache, tx, named) == up(KeyOf(tx, named), b, IdOf(tx)).value
    ensures var key := KeyOf(tx, named);
            (Fresh(up, w, tx, named) <==>
               && PlainNumber(key).n in w.chain
               && up(key, w.chain[PlainNumber(key).n], IdOf(tx)).value == up(key, b, IdOf(tx)).value)
  {
    hide PlainNumber, KeyOf, Hit;
  }

  lemma CarriedHasBlock(up: Upstream, f: Flight, tx: Value, named: NamedBlocknumbers)
    requires Carries(up, f, tx, named) && Honest(up)
    ensures tx.Object? && f.key.Object? && f.key == KeyOf(tx, named) && f.block.Some? && PlainNumber(f.key).Block?
    ensures up(f.key, f.block.value, IdOf(tx)).value.Some?
  {
    hide PlainNumber, KeyOf, StoredForm;
    KeyIsObject(tx, named);
    RestoredIsAnswer(up, f.key, f.block.value, f.id, IdOf(tx));
  }

  lemma SameAnswerSameBlock(up: Upstream, key: Key, a: BlockHash, b: BlockHash, id: nat)
    requires Honest(up) && Tells(up, key)
    ensures up(key, a, id).value == up(key, b, id).value ==> a == b
  {
    assert StoredForm(up(key, a, id)) == StoredForm(up(key, a, 0));
    assert StoredForm(up(key, b, id)) == StoredForm(up(key, b, 0));
  }

  /** What the proxy can see happen. */
  datatype Sight = Head(head: nat) | Final(number: nat)

  /** Whether, among these sights, some head is taken for a reorganisation of block `n` while `n` is
      above everything finalized. `last` is the head observed before, `final` the highest number
      published before. */
  predicate ReorgSeen(n: nat, last: nat, final: nat, sights: seq<Sight>)
    decreases |sights|
  {
    sights != [] &&
    match sights[0]
    case Head(head) => (head <= n <= last && final < n) || ReorgSeen(n, head, final, sights[1..])
    case Final(number) => ReorgSeen(n, last, if number > final then number else final, sights[1..])
  }

  /** The sights as events, head `i` coming with chain `i`. */
  function Turns(sights: seq<Sight>, chains: seq<Chain>): seq<Event>
    requires |chains| == |sights|
  {
    if sights == [] then []
    else
      [match sights[0]
       case Head(head) => Observe(head, chains[0])
       case Final(number) => Finalize(number)] + Turns(sights[1..], chains[1..])
  }

  /** The mark on a flight says exactly that such a head was seen, whatever the chains. */
  lemma {:induction false} MarkedIffSeen(up: Upstream, w: World, i: nat, n: nat, sights: seq<Sight>, chains: seq<Chain>)
    requires i < |w.flights| && PlainNumber(w.flights[i].key) == Block(n) && |chains| == |sights|
    ensures var after := Run(up, w, Turns(sights, chains));
            && |after.flights| == |w.flights|
            && after.flights[i] == w.flights[i].(
                 overtaken := w.flights[i].overtaken || ReorgSeen(n, w.cache.blockNumber, w.maxFinalized, sights))
    decreases |sights|
  {
    hide PlainNumber;
    if sights != [] {
      var es := Turns(sights, chains);
      assert es[1..] == Turns(sights[1..], chains[1..]);
      MarkedIffSeen(up, Step(up, w, es[0]), i, n, sights[1..], chains[1..]);
    }
  }

  /** As long as no such head is seen, no chain that is announced can replace the block. */
  lemma {:induction false} UnseenStaysCanonical(
    up: Upstream, w: World, f: Flight, n: nat, sights: seq<Sight>, chains: seq<Chain>)
    requires PlainNumber(f.key) == Block(n) && |chains| == |sights| && OrderlyRun(up, w, Turns(sights, chains))
    requires StillCanonical(w.chain, f) && !ReorgSeen(n, w.cache.blockNumber, w.maxFinalized, sights)
    ensures StillCanonical(Run(up, w, Turns(sights, chains)).chain, f)
    decreases |sights|
  {
    hide PlainNumber, Overtaken;
    if sights != [] {
      var es := Turns(sights, chains);
      assert es[1..] == Turns(sights[1..], chains[1..]);
      if es[0].Observe? {
        assert n in Changed(w.chain, es[0].chain) ==> CoversBlock(w, es[0].head, n);
      }
      UnseenStaysCanonical(up, Step(up, w, es[0]), f, n, sights[1..], chains[1..]);
    }
  }

  /** The chains that replace block `n` with every head that may. */
  function Replacing(chain: Chain, n: nat, last: nat, final: nat, sights: seq<Sight>): (chains: seq<Chain>)
    requires n in chain
    ensures |chains| == |sights|
    decreases |sights|
  {
    if sights == [] then []
    else
      match sights[0]
      case Head(head) =>
        var next := if head <= n <= last && final < n then chain[n := chain[n] + 1] else chain;
        [next] + Replacing(next, n, head, final, sights[1..])
      case Final(number) =>
        [chain] + Replacing(chain, n, last, if number > final then number else final, sights[1..])
  }

  lemma {:induction false} ReplacingReplaces(up: Upstream, w: World, n: nat, sights: seq<Sight>)
    requires n in w.chain
    ensures var es := Turns(sights, Replacing(w.chain, n, w.cache.blockNumber, w.maxFinalized, sights));
            var after := Run(up, w, es).chain;
            && OrderlyRun(up, w, es)
            && n in after && w.chain[n] <= after[n]
            && (ReorgSeen(n, w.cache.blockNumber, w.maxFinalized, sights) ==> w.chain[n] < after[n])
    decreases |sights|
  {
    hide PlainNumber, Overtaken;
    if sights != [] {
      var chains := Replacing(w.chain, n, w.cache.blockNumber, w.maxFinalized, sights);
      var es := Turns(sights, chains);
      var next := Step(up, w, es[0]);
      assert chains[1..] == Replacing(next.chain, n, next.cache.blockNumber, next.maxFinalized, sights[1..]);
      assert es[1..] == Turns(sights[1..], chains[1..]);
      ReplacingReplaces(up, next, n, sights[1..]);
    }
  }

  /** Handing the answer over after these sights is right for every chain they can come with. */
  ghost predicate SafeToStore(
    up: Upstream, w: World, i: nat, tx: Value, named: NamedBlocknumbers, now: NamedBlocknumbers, sights: seq<Sight>)
    requires tx.Object?
  {
    forall chains: seq<Chain> :: |chains| == |sights| && OrderlyRun(up, w, Turns(sights, chains)) ==>
      Fresh(up, Step(up, Run(up, w, Turns(sights, chains)), Store(i, now)), tx, named)
  }

  /** An answer given from a canonical block may be handed to the cache after any heads and finalized
      numbers exactly when none of those heads was taken for a reorganisation of its block. */
  lemma LateAnswerIsFreshIff(
    up: Upstream, w: World, i: nat, tx: Value, named: NamedBlocknumbers, now: NamedBlocknumbers, sights: seq<Sight>)
    requires i < |w.flights| && Carries(up, w.flights[i], tx, named) && Honest(up) && Tells(up, w.flights[i].key)
    requires StillCanonical(w.chain, w.flights[i])
    ensures SafeToStore(up, w, i, tx, named, now, sights)
       <==> !ReorgSeen(PlainNumber(KeyOf(tx, named)).n, w.cache.blockNumber, w.maxFinalized, sights)
  {
    var f := w.flights[i];
    var n: nat := PlainNumber(f.key).n;
    hide PlainNumber, KeyOf, Cacheable, Storable, Fresh, Step, Run, OrderlyRun, Turns, ReorgSeen, Replacing, Tells,
      Honest;
    var seen := ReorgSeen(n, w.cache.blockNumber, w.maxFinalized, sights);
    forall chains: seq<Chain> | |chains| == |sights| && OrderlyRun(up, w, Turns(sights, chains))
      ensures var after := Run(up, w, Turns(sights, chains));
              && (Fresh(up, Step(up, after, Store(i, now)), tx, named) <==> StillCanonical(after.chain, f))
              && (!seen ==> StillCanonical(after.chain, f))
    {
      MarkedIffSeen(up, w, i, n, sights, chains);
      StoredIsFreshIff(up, Run(up, w, Turns(sights, chains)), i, tx, named, now);
      if !seen {
        UnseenStaysCanonical(up, w, f, n, sights, chains);
      }
    }
    ReplacingReplaces(up, w, n, sights);
    var worst := Replacing(w.chain, n, w.cache.blockNumber, w.maxFinalized, sights);
    assert seen ==> !StillCanonical(Run(up, w, Turns(sights, worst)).chain, f);
  }

  /** After a head is observed, with whatever chain, the answer for a block that is not finalized is
      evicted or still right exactly when the block did not change or lies between that head and the
      head observed before it. */
  lemma ObservedHeadIsSafeIff(up: Upstream, w: World, k: Key, head: nat, chain: Chain)
    requires Tells(up, k) && Tracking(w) && k in w.cache.db && Agrees(up, w, k)
    requires PlainNumber(k).n > w.maxFinalized
    ensures var w' := Step(up, w, Observe(head, chain));
            var n := PlainNumber(k).n;
            ((k in w'.cache.db ==> Agrees(up, w', k))
             <==> (n in chain && chain[n] == w.chain[n]) || head <= n <= w.cache.blockNumber)
  {
    HeadEvictsExactly(w, head, k);
    hide PlainNumber, StoredForm, ObserveHead, Tracking, Overtaken;
  }

  /** Such an entry is safe whatever chain the head comes with exactly when its block lies between
      that head and the head observed before it. A head above the one before is taken for no
      reorganisation at all, so no entry is safe from it. */
  lemma HeadIsSafeForEveryChainIff(up: Upstream, w: World, k: Key, head: nat)
    requires Tells(up, k) && Tracking(w) && k in w.cache.db && Agrees(up, w, k)
    requires PlainNumber(k).n > w.maxFinalized
    ensures (forall chain :: var w' := Step(up, w, Observe(head, chain)); k in w'.cache.db ==> Agrees(up, w', k))
       <==> head <= PlainNumber(k).n <= w.cache.blockNumber
  {
    assert PlainNumber(k).Block? && PlainNumber(k).n in w.chain;
    hide PlainNumber, StoredForm, Tracking, Step, Agrees, Tells;
    forall chain: Chain
      ensures var w' := Step(up, w, Observe(head, chain));
              var n := PlainNumber(k).n;
              ((k in w'.cache.db ==> Agrees(up, w', k))
               <==> (n in chain && chain[n] == w.chain[n]) || head <= n <= w.cache.blockNumber)
    {
      ObservedHeadIsSafeIff(up, w, k, head, chain);
    }
    var w' := Step(up, w, Observe(head, map[]));
    assert (k in w'.cache.db ==> Agrees(up, w', k)) <==> head <= PlainNumber(k).n <= w.cache.blockNumber;
  }

  // ---------------------------------------------------------------------------
  // The failures happen

  lemma TellingIsHonest()
    ensures Honest(Telling)
    ensures forall key :: Tells(Telling, key)
  {
    hide StoredForm, Answer;
    forall k: Key, b: BlockHash, i: nat
      ensures StoredForm(Telling(k, b, i)) == Some(Answer(Null, b))
      ensures Get(Telling(k, b, i).value.value, "id") == Some(Number(i))
    {
      AnswerIsStored(k, b, i);
    }
    forall key: Key, a: BlockHash, b: BlockHash | a != b
      ensures StoredForm(Telling(key, a, 0)) != StoredForm(Telling(key, b, 0))
    {
      AnswersDiffer(a, b);
    }
  }

  /** A client asks for a balance at block 1. */
  function Question(): Value {
    Sample(Number(7), "0x1")
  }

  function QuestionKey(): Key {
    Sample(Null, "0x1")
  }

  /** The flight with the answer from block `b`. */
  function AnswerFlight(b: BlockHash): Flight {
    Flight(QuestionKey(), 7, Telling(QuestionKey(), b, 7), Some(b), false)
  }

  lemma QuestionFacts(named: NamedBlocknumbers)
    ensures Question().Object? && KeyOf(Question(), named) == QuestionKey() && IdOf(Question()) == 7
    ensures QuestionKey().Object? && PlainNumber(QuestionKey()) == Block(1)
    ensures Cacheable(Question(), named, 7)
  {
    SampleKey(Number(7), named);
    SampleIds(Null, Number(7), "0x1");
    SamplePassesGate(7, "0x1");
    hide Sample, Print, CacheMethod, KeyOf, PlainNumber;
  }

  lemma QuestionIsCarried(b: BlockHash, named: NamedBlocknumbers)
    ensures Carries(Telling, AnswerFlight(b), Question(), named)
  {
    QuestionFacts(named);
    AnswerIsStored(QuestionKey(), b, 7);
    AnswerPassesGate(QuestionKey(), b, 7);
    hide Question, QuestionKey, Telling, StoredForm, Cacheable, KeyOf, CacheResult;
  }

  /** The question is stored once it was answered, and then answered from the cache. */
  lemma QuestionIsServed(c: Cache, named: NamedBlocknumbers, now: NamedBlocknumbers, b: BlockHash)
    ensures QuestionKey().Object? && Question().Object?
    ensures Hit(CacheQuery(c, AnswerFlight(b).rx, AnswerFlight(b).Request(), QuestionKey(), now), Question(), named)
         == Some(Answer(Number(7), b))
  {
    QuestionFacts(named);
    QuestionIsCarried(b, named);
    TellingIsHonest();
    StoredIsServed(Telling, c, AnswerFlight(b), Question(), named, now);
  }

  /** Asked again with a string as its id, it is answered with the id 0. */
  lemma StringIdIsAnsweredAsZero(c: Cache, named: NamedBlocknumbers, now: NamedBlocknumbers, b: BlockHash)
    ensures var tx := Sample(String("a"), "0x1");
            && QuestionKey().Object? && tx.Object? && Get(tx, "id") == Some(String("a"))
            && Hit(CacheQuery(c, AnswerFlight(b).rx, AnswerFlight(b).Request(), QuestionKey(), now), tx, named)
               == Some(Answer(Number(0), b))
  {
    var tx := Sample(String("a"), "0x1");
    QuestionFacts(named);
    SampleKey(String("a"), named);
    SampleFields(String("a"), "0x1");
    StringIdGoesOutAsZero(named);
    QuestionIsCarried(b, named);
    TellingIsHonest();
    hide CacheQuery, KeyOf, PlainNumber, StoredForm, CacheMethod, Sample, Print, Hit;
    StoredIsServed(Telling, c, AnswerFlight(b), tx, named, now);
  }

  /** Asking when nothing is stored sends the question upstream. */
  lemma QuestionIsLaunched(w: World, named: NamedBlocknumbers, other: Reply, b: BlockHash)
    requires w.cache.db == map[] && w.flights == [] && 1 in w.chain && w.chain[1] == b
    ensures Step(Telling, w, Ask(Question(), named, false, other)) == w.(flights := [AnswerFlight(b)])
    ensures Orderly(w, Ask(Question(), named, false, other))
  {
    QuestionFacts(named);
    hide KeyOf, PlainNumber, Print, Question, QuestionKey, Telling, Cacheable;
  }

  /** A reorganisation while an answer is under way: every event but the handing over is orderly, and
      the cache then serves the answer of the replaced block. */
  lemma LateAnswerGoesStale(named: NamedBlocknumbers, other: Reply, b0: BlockHash, b1: BlockHash)
    requires b0 != b1
    ensures var es := [Observe(1, map[1 := b0]), Ask(Question(), named, false, other), Observe(1, map[1 := b1])];
            var w := Step(Telling, Run(Telling, Start(map[]), es), Store(0, named));
            && OrderlyRun(Telling, Start(map[]), es)
            && Question().Object? && !Fresh(Telling, w, Question(), named)
            && Hit(w.cache, Question(), named) == Some(Answer(Number(7), b0))
  {
    hide *;
    LateRun(named, other, b0, b1);
    LateEnd(Run(Telling, Start(map[]), [
      Observe(1, map[1 := b0]), Ask(Question(), named, false, other), Observe(1, map[1 := b1])]), named, b0, b1);
  }

  lemma LateEnd(w: World, named: NamedBlocknumbers, b0: BlockHash, b1: BlockHash)
    requires |w.flights| == 1 && w.flights[0] == AnswerFlight(b0).(overtaken := w.flights[0].overtaken)
    requires w.chain == map[1 := b1] && b0 != b1
    ensures var w' := Step(Telling, w, Store(0, named));
            && Question().Object? && !Fresh(Telling, w', Question(), named)
            && Hit(w'.cache, Question(), named) == Some(Answer(Number(7), b0))
  {
    hide PlainNumber, KeyOf, Fresh, Hit, CacheQuery, Question, QuestionKey, Telling, Tells, Honest, Carries, Answer;
    QuestionFacts(named);
    TellingIsHonest();
    CarriedAnyway(w.flights[0], b0, named);
    QuestionIsServed(w.cache, named, named, b0);
    StoredIsFreshIff(Telling, w, 0, Question(), named, named);
    assert w.flights[0].Request() == AnswerFlight(b0).Request();
  }

  lemma LateRun(named: NamedBlocknumbers, other: Reply, b0: BlockHash, b1: BlockHash)
    ensures var es := [Observe(1, map[1 := b0]), Ask(Question(), named, false, other), Observe(1, map[1 := b1])];
            var w := Run(Telling, Start(map[]), es);
            && OrderlyRun(Telling, Start(map[]), es)
            && |w.flights| == 1 && w.flights[0] == AnswerFlight(b0).(overtaken := w.flights[0].overtaken)
            && w.chain == map[1 := b1]
  {
    hide Run, OrderlyRun, Step, AnswerFlight, Question, Telling;
    var w1 := Step(Telling, Start(map[]), Observe(1, map[1 := b0]));
    FirstHead(b0);
    ThreeSteps(Start(map[]), Observe(1, map[1 := b0]), Ask(Question(), named, false, other), Observe(1, map[1 := b1]));
    QuestionIsLaunched(w1, named, other, b0);
    ReorgOverFlight(Step(Telling, w1, Ask(Question(), named, false, other)), b0, b1);
  }

  lemma CarriedAnyway(f: Flight, b: BlockHash, named: NamedBlocknumbers)
    requires f == AnswerFlight(b).(overtaken := f.overtaken)
    ensures Carries(Telling, f, Question(), named)
  {
    QuestionIsCarried(b, named);
  }

  lemma ReorgOverFlight(w: World, b0: BlockHash, b1: BlockHash)
    requires w == World(EMPTY_CACHE.(blockNumber := 1), map[1 := b0], 0, [AnswerFlight(b0)], {})
    ensures var w' := Step(Telling, w, Observe(1, map[1 := b1]));
            && |w'.flights| == 1 && w'.flights[0] == AnswerFlight(b0).(overtaken := w'.flights[0].overtaken)
            && w'.chain == map[1 := b1]
    ensures Orderly(w, Observe(1, map[1 := b1]))
  {
    hide ObserveHead, PlainNumber, AnswerFlight;
  }

  lemma FirstHead(b: BlockHash)
    ensures Step(Telling, Start(map[]), Observe(1, map[1 := b]))
         == World(EMPTY_CACHE.(blockNumber := 1), map[1 := b], 0, [], {})
  {
  }

  lemma ThreeSteps(w: World, a: Event, b: Event, c: Event)
    ensures Run(Telling, w, [a, b, c]) == Step(Telling, Step(Telling, Step(Telling, w, a), b), c)
    ensures OrderlyRun(Telling, w, [a, b, c])
       <==> Orderly(w, a) && Orderly(Step(Telling, w, a), b) && Orderly(Step(Telling, Step(Telling, w, a), b), c)
  {
    hide Run, OrderlyRun, Step, Orderly;
    assert [a, b, c] == [a] + [b, c];
    FirstStep(w, a, [b, c]);
    TwoSteps(Step(Telling, w, a), b, c);
  }

  lemma FirstStep(w: World, e: Event, es: seq<Event>)
    ensures Run(Telling, w, [e] + es) == Run(Telling, Step(Telling, w, e), es)
    ensures OrderlyRun(Telling, w, [e] + es) <==> Orderly(w, e) && OrderlyRun(Telling, Step(Telling, w, e), es)
  {
    hide Step, Orderly;
    assert ([e] + es)[1..] == es;
  }

  /** The head observed first is never taken for a reorganisation, although it replaces the very
      block the cache holds an answer for: every event but that head is orderly. */
  lemma FirstHeadGoesStale(named: NamedBlocknumbers, other: Reply, b0: BlockHash, b1: BlockHash)
    requires b0 != b1
    ensures var es := [Ask(Question(), named, false, other), Store(0, named)];
            var w := Step(Telling, Run(Telling, Start(map[1 := b0]), es), Observe(1, map[1 := b1]));
            && OrderlyRun(Telling, Start(map[1 := b0]), es)
            && Question().Object? && !Fresh(Telling, w, Question(), named)
            && Hit(w.cache, Question(), named) == Some(Answer(Number(7), b0))
  {
    hide *;
    FirstRun(named, other, b0);
    QuestionFacts(named);
    MissedHeadIsStale(Run(Telling, Start(map[1 := b0]), [Ask(Question(), named, false, other), Store(0, named)]),
                      1, map[1 := b1], Question(), QuestionKey(), named, b0);
  }

  /** Nor is any later head above the one before it, although a reorganisation to a longer chain comes
      with just such a head: every event but that head is orderly. */
  lemma HigherHeadGoesStale(named: NamedBlocknumbers, other: Reply, b0: BlockHash, b1: BlockHash, b2: BlockHash)
    requires b0 != b1
    ensures var es := [Observe(1, map[1 := b0]), Ask(Question(), named, false, other), Store(0, named)];
            var w := Step(Telling, Run(Telling, Start(map[]), es), Observe(2, map[1 := b1, 2 := b2]));
            && OrderlyRun(Telling, Start(map[]), es)
            && Question().Object? && !Fresh(Telling, w, Question(), named)
            && Hit(w.cache, Question(), named) == Some(Answer(Number(7), b0))
  {
    hide *;
    HigherRun(named, other, b0);
    QuestionFacts(named);
    MissedHeadIsStale(Run(Telling, Start(map[]), [
      Observe(1, map[1 := b0]), Ask(Question(), named, false, other), Store(0, named)]),
      2, map[1 := b1, 2 := b2], Question(), QuestionKey(), named, b0);
  }

  /** A head whose range misses block 1 leaves the answer from the block it replaces. */
  lemma MissedHeadIsStale(
    w: World, head: nat, chain: Chain, tx: Value, key: Key, named: NamedBlocknumbers, b: BlockHash)
    requires Tracking(w) && !(head <= 1 <= w.cache.blockNumber) && key in w.cache.db
    requires tx.Object? && KeyOf(tx, named) == key && IdOf(tx) == 7 && PlainNumber(key) == Block(1)
    requires Hit(w.cache, tx, named) == Some(Answer(Number(7), b)) && 1 in chain && chain[1] != b
    ensures var w' := Step(Telling, w, Observe(head, chain));
            && !Fresh(Telling, w', tx, named)
            && Hit(w'.cache, tx, named) == Some(Answer(Number(7), b))
  {
    HeadEvictsExactly(w, head, key);
    hide KeyOf, PlainNumber, ObserveHead, Telling, Print, Tracking, Answer, IdOf, Overtaken;
    var w' := Step(Telling, w, Observe(head, chain));
    assert Hit(w'.cache, tx, named) == Hit(w.cache, tx, named);
    TellingAnswers(key, chain[1]);
    AnswersDiffer7(b, chain[1]);
  }

  lemma FirstRun(named: NamedBlocknumbers, other: Reply, b: BlockHash)
    ensures var es := [Ask(Question(), named, false, other), Store(0, named)];
            var w := Run(Telling, Start(map[1 := b]), es);
            && OrderlyRun(Telling, Start(map[1 := b]), es)
            && Tracking(w) && w.cache.blockNumber == 0 && QuestionKey() in w.cache.db
            && Question().Object? && Hit(w.cache, Question(), named) == Some(Answer(Number(7), b))
  {
    hide Run, OrderlyRun, Step, Orderly, AnswerFlight, Question, QuestionKey, Telling, Hit, CacheQuery, Answer;
    var w0 := Start(map[1 := b]);
    var ask, store := Ask(Question(), named, false, other), Store(0, named);
    QuestionIsLaunched(w0, named, other, b);
    TwoSteps(w0, ask, store);
    QuestionIsStored(Step(Telling, w0, ask), named, b);
    QuestionIsServed(w0.cache, named, named, b);
    RunKeepsTracking(Telling, w0, [ask, store]);
  }

  lemma HigherRun(named: NamedBlocknumbers, other: Reply, b: BlockHash)
    ensures var es := [Observe(1, map[1 := b]), Ask(Question(), named, false, other), Store(0, named)];
            var w := Run(Telling, Start(map[]), es);
            && OrderlyRun(Telling, Start(map[]), es)
            && Tracking(w) && w.cache.blockNumber == 1 && QuestionKey() in w.cache.db
            && Question().Object? && Hit(w.cache, Question(), named) == Some(Answer(Number(7), b))
  {
    hide Run, OrderlyRun, Step, AnswerFlight, Question, QuestionKey, Telling, Hit, CacheQuery, Answer;
    var observe, ask, store := Observe(1, map[1 := b]), Ask(Question(), named, false, other), Store(0, named);
    var w1 := Step(Telling, Start(map[]), observe);
    FirstHead(b);
    ThreeSteps(Start(map[]), observe, ask, store);
    QuestionIsLaunched(w1, named, other, b);
    QuestionIsStored(Step(Telling, w1, ask), named, b);
    QuestionIsServed(w1.cache, named, named, b);
    RunKeepsTracking(Telling, Start(map[]), [observe, ask, store]);
  }

  lemma TellingAnswers(key: Key, b: BlockHash)
    ensures Telling(key, b, 7).value == Some(Answer(Number(7), b))
  {
  }

  lemma AnswersDiffer7(a: BlockHash, b: BlockHash)
    requires a != b
    ensures Answer(Number(7), a) != Answer(Number(7), b)
  {
    AnswersDiffer(a, b);
    assert Answer(Number(7), a).members[2] == Answer(Null, a).members[2];
    assert Answer(Number(7), b).members[2] == Answer(Null, b).members[2];
    assert Answer(Null, a).members == [Answer(Null, a).members[0], VERSION, Answer(Null, a).members[2]];
  }

  lemma QuestionIsStored(w: World, named: NamedBlocknumbers, b: BlockHash)
    requires w.flights == [AnswerFlight(b)]
    ensures var w' := Step(Telling, w, Store(0, named));
            && w'.cache.blockNumber == w.cache.blockNumber
            && w'.cache == CacheQuery(w.cache, AnswerFlight(b).rx, AnswerFlight(b).Request(), QuestionKey(), named)
            && QuestionKey() in w'.cache.db
    ensures Orderly(w, Store(0, named))
  {
    hide CacheQuery, KeyOf, Cacheable, Storable, Question, QuestionKey, Telling, PlainNumber, StoredForm;
    QuestionFacts(named);
    QuestionIsCarried(b, named);
    WrittenIff(w.cache, AnswerFlight(b), Question(), named, named);
    QueryEffect(w.cache, AnswerFlight(b), named);
  }

  lemma TwoSteps(w: World, a: Event, b: Event)
    ensures Run(Telling, w, [a, b]) == Step(Telling, Step(Telling, w, a), b)
    ensures OrderlyRun(Telling, w, [a, b]) <==> Orderly(w, a) && Orderly(Step(Telling, w, a), b)
  {
    hide Step, Orderly;
    assert [a, b] == [a] + [b] && [b] == [b] + [];
    FirstStep(w, a, [b]);
    FirstStep(Step(Telling, w, a), b, []);
  }
}
