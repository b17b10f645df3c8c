/** The cache against the chain: over any run at all, an answer from the cache is the answer the
    upstream would give now, unless something unsettled its block since a head last covered it. */
module Transparency {
  import opened Wrappers
  import opened Json
  import opened CacheRules
  import opened Format
  import opened HeadCache

  /** The identity of a block, such as its hash. */
  type BlockHash = nat

  /** The canonical blocks the upstream knows, by number. */
  type Chain = map<nat, BlockHash>

  /** The answer of the upstream to a request, given the canonical block the request names
      and the id it was sent with. */
  type Upstream = (Key, BlockHash, nat) -> Reply

  /** JSON-RPC 2.0, section 5: a response carries the id of its request. Nothing else in it
      depends on the id. */
  ghost predicate Honest(up: Upstream) {
    forall k: Key, b: BlockHash, i: nat ::
      && StoredForm(up(k, b, i)) == StoredForm(up(k, b, 0))
      && (StoredForm(up(k, b, i)).Some? ==> Get(up(k, b, i).value.value, "id") == Some(Number(i)))
  }

  /** A request that was sent upstream and whose answer has not been handed to the cache yet;
      `block` is the block the answer was given from, and `overtaken` says that a reorganisation of
      the block the request names was observed since. */
  datatype Flight = Flight(key: Key, id: nat, rx: Reply, block: Option<BlockHash>, overtaken: bool) {
    function Request(): Value
      requires key.Object?
    {
      Set(key, "id", Number(id))
    }
  }

  /** `unsettled` are the numbers of the blocks that were replaced, or for which an answer came too
      late, since a head last covered them. */
  datatype World = World(cache: Cache, chain: Chain, maxFinalized: nat, flights: seq<Flight>, unsettled: set<nat>)

  datatype Event =
      /** The upstream's canonical chain becomes `chain`, and no head tells of it yet. */
    | Follow(chain: Chain)
      /** The upstream's canonical chain becomes `chain` and its head is observed. */
    | Observe(head: nat, chain: Chain)
      /** A finalized number is published; it may be lower than the last one. */
    | Finalize(number: nat)
      /** A client asks. The answer is `other` if the upstream fails, or if the request names no
          block it knows. */
    | Ask(tx: Value, named: NamedBlocknumbers, fails: bool, other: Reply)
      /** The answer of a flight reaches the cache. */
    | Store(flight: nat, named: NamedBlocknumbers)

  /** A fresh start, whatever the chain. */
  function Start(chain: Chain): World {
    World(EMPTY_CACHE, chain, 0, [], {})
  }

  function Launch(up: Upstream, chain: Chain, key: Key, id: nat, fails: bool, other: Reply): Flight {
    match PlainNumber(key)
    case Block(n) =>
      if n in chain && !fails then Flight(key, id, up(key, chain[n], id), Some(chain[n]), false)
      else Flight(key, id, other, None, false)
    case NoBlock => Flight(key, id, other, None, false)
    case Panics => Flight(key, id, other, None, false)
  }

  /** The head is taken for a reorganisation of block `n`, which was never finalized. */
  predicate CoversBlock(w: World, head: nat, n: nat) {
    w.maxFinalized < n && head <= n <= w.cache.blockNumber
  }

  /** The same for the block `key` names. */
  predicate Covers(w: World, head: nat, key: Key) {
    PlainNumber(key).Block? && CoversBlock(w, head, PlainNumber(key).n)
  }

  /** The blocks that are replaced or removed. */
  function Changed(before: Chain, after: Chain): set<nat> {
    set b | b in before && !(b in after && after[b] == before[b])
  }

  function BlockOf(key: Key): set<nat> {
    if PlainNumber(key).Block? then {PlainNumber(key).n} else {}
  }

  function Overtaken(w: World, head: nat): (flights: seq<Flight>)
    ensures |flights| == |w.flights|
  {
    seq(|w.flights|, i requires 0 <= i < |w.flights| =>
      w.flights[i].(overtaken := w.flights[i].overtaken || Covers(w, head, w.flights[i].key)))
  }

  ghost function Step(up: Upstream, w: World, e: Event): World {
    match e
    case Follow(chain) => w.(chain := chain, unsettled := w.unsettled + Changed(w.chain, chain))
    case Observe(head, chain) =>
      w.(cache := ObserveHead(w.cache, head), chain := chain, flights := Overtaken(w, head),
         unsettled := set n | n in w.unsettled + Changed(w.chain, chain) && !CoversBlock(w, head, n))
    case Finalize(number) =>
      w.(cache := w.cache.(finalized := number),
         maxFinalized := if number > w.maxFinalized then number else w.maxFinalized)
    case Ask(tx, named, fails, other) =>
      if !tx.Object? || Hit(w.cache, tx, named).Some? then w
      else w.(flights := w.flights + [Launch(up, w.chain, KeyOf(tx, named), IdOf(tx), fails, other)])
    case Store(i, named) =>
      if i >= |w.flights| || !w.flights[i].key.Object? then w
      else
        var f := w.flights[i];
        w.(cache := CacheQuery(w.cache, f.rx, f.Request(), f.key, named),
           flights := w.flights[..i] + w.flights[i + 1..],
           unsettled := w.unsettled + if f.overtaken then BlockOf(f.key) else {})
  }

  ghost function Run(up: Upstream, w: World, es: seq<Event>): World
    decreases |es|
  {
    if es == [] then w else Run(up, Step(up, w, es[0]), es[1..])
  }

  // ---------------------------------------------------------------------------
  // What is assumed

  /** Failures, and answers about blocks the upstream does not know, are kept out of the cache. */
  ghost predicate Allowed(w: World, e: Event) {
    e.Ask? && e.tx.Object? && PlainNumber(KeyOf(e.tx, e.named)).Block?
    && (e.fails || PlainNumber(KeyOf(e.tx, e.named)).n !in w.chain) ==>
      !CacheResult(e.other.text)
  }

  ghost predicate AllowedRun(up: Upstream, w: World, es: seq<Event>)
    decreases |es|
  {
    es == [] || (Allowed(w, es[0]) && AllowedRun(up, Step(up, w, es[0]), es[1..]))
  }

  /** Every block that an observed head replaces or removes lies between that head and the head
      observed before it, above everything ever finalized. */
  ghost predicate Announced(w: World, head: nat, chain: Chain) {
    forall b :: b in Changed(w.chain, chain) ==> CoversBlock(w, head, b)
  }

  /** Nothing is unsettled: the chain only grows between heads, a head tells of every block it
      replaces, and no answer reaches the cache after a reorganisation that covers its block. */
  ghost predicate Orderly(w: World, e: Event) {
    Allowed(w, e) &&
    match e
    case Follow(chain) => Changed(w.chain, chain) == {}
    case Observe(head, chain) => Announced(w, head, chain)
    case Finalize(_) => true
    case Ask(_, _, _, _) => true
    case Store(i, _) => i < |w.flights| ==> !w.flights[i].overtaken
  }

  ghost predicate OrderlyRun(up: Upstream, w: World, es: seq<Event>)
    decreases |es|
  {
    es == [] || (Orderly(w, es[0]) && OrderlyRun(up, Step(up, w, es[0]), es[1..]))
  }

  // ---------------------------------------------------------------------------
  // What is promised

  /** If the request is answered from the cache, the answer is the one the upstream would give
      now, id included. */
  ghost predicate Fresh(up: Upstream, w: World, tx: Value, named: NamedBlocknumbers)
    requires tx.Object?
  {
    var key := KeyOf(tx, named);
    Hit(w.cache, tx, named).Some? ==>
      && PlainNumber(key).Block?
      && PlainNumber(key).n in w.chain
      && up(key, w.chain[PlainNumber(key).n], IdOf(tx)).value == Hit(w.cache, tx, named)
  }

  predicate Unsettled(w: World, key: Key) {
    PlainNumber(key).Block? && PlainNumber(key).n in w.unsettled
  }

  /** Whatever is asked now is answered as the upstream would, if its block is settled. */
  ghost predicate AllFresh(up: Upstream, w: World) {
    forall tx: Value, named: NamedBlocknumbers ::
      tx.Object? && !Unsettled(w, KeyOf(tx, named)) ==> Fresh(up, w, tx, named)
  }

  // ---------------------------------------------------------------------------
  // Tracking, which nothing the upstream or the chain does can break

  /** The entry under `k` is for a block that can no longer change, or is recorded for it. */
  ghost predicate Recorded(w: World, k: Key) {
    && PlainNumber(k).Block?
    && (PlainNumber(k).n > w.maxFinalized ==>
          PlainNumber(k).n in w.cache.tracked && k in w.cache.tracked[PlainNumber(k).n])
  }

  ghost predicate RecordsNameBlocks(tracked: Tracked) {
    forall b, k :: b in tracked && k in tracked[b] ==> PlainNumber(k) == Block(b)
  }

  ghost predicate Tracking(w: World) {
    && (forall k :: k in w.cache.db ==> Recorded(w, k))
    && RecordsNameBlocks(w.cache.tracked)
    && w.cache.finalized <= w.maxFinalized
  }

  /** A head deletes an entry exactly when it is recorded for a block between that head and the
      head observed before it, which is so for every such block that was never finalized. Other
      entries are untouched. */
  lemma HeadEvictsExactly(w: World, head: nat, k: Key)
    requires Tracking(w) && k in w.cache.db
    ensures PlainNumber(k).Block?
    ensures var n, c' := PlainNumber(k).n, ObserveHead(w.cache, head);
            && (k !in c'.db <==>
                  head <= n <= w.cache.blockNumber && n in w.cache.tracked && k in w.cache.tracked[n])
            && (Covers(w, head, k) ==> k !in c'.db)
            && (k in c'.db ==> c'.db[k] == w.cache.db[k])
  {
    hide PlainNumber;
    assert Recorded(w, k);
    var n := PlainNumber(k).n;
    if head <= n <= w.cache.blockNumber && n in w.cache.tracked && k in w.cache.tracked[n] {
      assert RolledBack(w.cache.tracked, head, w.cache.blockNumber, k);
    }
  }

  lemma ObserveKeepsTracking(up: Upstream, w: World, head: nat, chain: Chain)
    requires Tracking(w)
    ensures Tracking(Step(up, w, Observe(head, chain)))
  {
    hide PlainNumber, Overtaken;
    var w' := Step(up, w, Observe(head, chain));
    forall k | k in w'.cache.db
      ensures Recorded(w', k)
    {
      assert k in w.cache.db && Recorded(w, k);
      HeadEvictsExactly(w, head, k);
    }
  }

  /** Whatever the upstream answers, however the chain changes and however late an answer comes,
      every step keeps every entry of a block that was never finalized recorded for that block. */
  lemma StepKeepsTracking(up: Upstream, w: World, e: Event)
    requires Tracking(w)
    ensures Tracking(Step(up, w, e))
  {
    hide PlainNumber, KeyOf, StoredForm, Hit, ObserveHead, CacheQuery, Overtaken;
    match e
    case Follow(chain) =>
      assert forall k :: k in w.cache.db ==> Recorded(w, k);
    case Observe(head, chain) => ObserveKeepsTracking(up, w, head, chain);
    case Finalize(_) =>
      assert forall k :: k in w.cache.db ==> Recorded(w, k);
    case Ask(tx, named, fails, other) =>
      assert forall k :: k in w.cache.db ==> Recorded(w, k);
    case Store(i, named) =>
      if i < |w.flights| && w.flights[i].key.Object? {
        var f := w.flights[i];
        AnswerKeepsTracking(w, f, named);
        var answered := w.(cache := CacheQuery(w.cache, f.rx, f.Request(), f.key, named));
        assert forall k :: k in answered.cache.db ==> Recorded(answered, k);
      }
  }

  lemma AnswerKeepsTracking(w: World, f: Flight, named: NamedBlocknumbers)
    requires Tracking(w) && f.key.Object?
    ensures Tracking(w.(cache := CacheQuery(w.cache, f.rx, f.Request(), f.key, named)))
  {
    hide PlainNumber, StoredForm, CacheQuery, Print;
    var w' := w.(cache := CacheQuery(w.cache, f.rx, f.Request(), f.key, named));
    QueryEffect(w.cache, f, named);
    forall k | k in w'.cache.db
      ensures Recorded(w', k)
    {
      assert k in w.cache.db ==> Recorded(w, k);
    }
  }

  lemma {:induction false} RunKeepsTracking(up: Upstream, w: World, es: seq<Event>)
    requires Tracking(w)
    ensures Tracking(Run(up, w, es))
    decreases |es|
  {
    hide Tracking, Step;
    if es != [] {
      StepKeepsTracking(up, w, es[0]);
      RunKeepsTracking(up, Step(up, w, es[0]), es[1..]);
    }
  }

  /** In every state that can be reached at all, with stale entries or without, the next head that
      covers the block of a request leaves nothing to answer it with, and it touches no entry for a
      block outside its range. */
  lemma EveryHeadEvicts(
    up: Upstream, chain: Chain, es: seq<Event>, head: nat, next: Chain, tx: Value, named: NamedBlocknumbers)
    requires tx.Object?
    ensures var w := Run(up, Start(chain), es);
            var c' := Step(up, w, Observe(head, next)).cache;
            && (Covers(w, head, KeyOf(tx, named)) ==> Hit(c', tx, named) == None)
            && (forall k :: k in c'.db ==> k in w.cache.db && c'.db[k] == w.cache.db[k] && !Covers(w, head, k))
            && (forall k :: k in w.cache.db && k !in c'.db ==>
                  PlainNumber(k).Block? && head <= PlainNumber(k).n <= w.cache.blockNumber)
  {
    RunKeepsTracking(up, Start(chain), es);
    hide PlainNumber, Run, Tracking, KeyOf, Covers;
    var w := Run(up, Start(chain), es);
    var c' := Step(up, w, Observe(head, next)).cache;
    ObserveAddsNothing(w.cache, head);
    hide ObserveHead;
    forall k | k in w.cache.db
      ensures k in c'.db ==> c'.db[k] == w.cache.db[k] && !Covers(w, head, k)
      ensures k !in c'.db ==> PlainNumber(k).Block? && head <= PlainNumber(k).n <= w.cache.blockNumber
    {
      HeadEvictsExactly(w, head, k);
    }
  }

  lemma ObserveAddsNothing(c: Cache, head: nat)
    ensures forall k :: k in ObserveHead(c, head).db ==> k in c.db
  {
  }

  // ---------------------------------------------------------------------------
  // The invariant

  /** The entry under `k` is the stored form of the current answer. */
  ghost predicate Agrees(up: Upstream, w: World, k: Key) {
    && PlainNumber(k).Block?
    && PlainNumber(k).n in w.chain
    && k in w.cache.db
    && StoredForm(up(k, w.chain[PlainNumber(k).n], 0)) == Some(w.cache.db[k])
  }

  /** The block an answer was given from is still canonical. */
  ghost predicate StillCanonical(chain: Chain, f: Flight) {
    f.block.Some? && PlainNumber(f.key).Block? ==>
      PlainNumber(f.key).n in chain && chain[PlainNumber(f.key).n] == f.block.value
  }

  ghost predicate FlightOk(up: Upstream, f: Flight) {
    && f.key.Object?
    && match f.block
       case Some(b) => f.rx == up(f.key, b, f.id)
       case None => PlainNumber(f.key).Block? ==> !CacheResult(f.rx.text)
  }

  /** Settled entries agree, and the answers under way that were not overtaken are from canonical
      or unsettled blocks. */
  ghost predicate Inv(up: Upstream, w: World) {
    && Tracking(w)
    && (forall k :: k in w.cache.db ==> Agrees(up, w, k) || Unsettled(w, k))
    && (forall f :: f in w.flights ==>
          FlightOk(up, f) && (f.overtaken || StillCanonical(w.chain, f) || Unsettled(w, f.key)))
  }

  lemma FollowKeepsInv(up: Upstream, w: World, chain: Chain)
    requires Inv(up, w)
    ensures Inv(up, Step(up, w, Follow(chain)))
  {
    hide PlainNumber, StoredForm, Tracking;
    StepKeepsTracking(up, w, Follow(chain));
    assert forall k :: k in w.cache.db ==> Agrees(up, w, k) || Unsettled(w, k);
  }

  lemma ObserveKeepsInv(up: Upstream, w: World, head: nat, chain: Chain)
    requires Inv(up, w)
    ensures Inv(up, Step(up, w, Observe(head, chain)))
  {
    hide PlainNumber, StoredForm, ObserveHead, Tracking;
    var w' := Step(up, w, Observe(head, chain));
    StepKeepsTracking(up, w, Observe(head, chain));
    ObserveAddsNothing(w.cache, head);
    forall k | k in w'.cache.db
      ensures Agrees(up, w', k) || Unsettled(w', k)
    {
      assert Agrees(up, w, k) || Unsettled(w, k);
      HeadEvictsExactly(w, head, k);
    }
    forall f | f in w'.flights
      ensures FlightOk(up, f) && (f.overtaken || StillCanonical(w'.chain, f) || Unsettled(w', f.key))
    {
      var i :| 0 <= i < |w'.flights| && w'.flights[i] == f;
      assert w.flights[i] in w.flights;
    }
  }

  lemma RequestNumber(key: Key, id: nat)
    requires key.Object?
    ensures PlainNumber(Set(key, "id", Number(id))) == PlainNumber(key)
  {
    SetLaws(key, "id", Number(id), Null, "params");
    SetLaws(key, "id", Number(id), Null, "method");
  }

  /** Storing an answer changes nothing unless the request is cacheable and names a block by
      number; then at most one entry and one record are added, under that number. */
  lemma QueryEffect(c: Cache, f: Flight, named: NamedBlocknumbers)
    requires f.key.Object?
    ensures var c' := CacheQuery(c, f.rx, f.Request(), f.key, named);
            c' == c ||
            ( && CacheResult(f.rx.text) && PlainNumber(f.key).Block?
              && c' == c.(
                   db := if StoredForm(f.rx).Some? then c.db[f.key := StoredForm(f.rx).value] else c.db,
                   tracked := if PlainNumber(f.key).n > c.finalized
                              then Track(c.tracked, PlainNumber(f.key).n, f.key) else c.tracked))
  {
    if CanCache(Print(f.Request()), f.rx.text) {
      CachedNumbersNeverMove(f.Request(), f.rx.text, named, named);
      RequestNumber(f.key, f.id);
    }
  }

  /** Storing an answer keeps everything, if its block is canonical or unsettled. */
  lemma AnswerKeepsEntries(up: Upstream, w: World, f: Flight, named: NamedBlocknumbers)
    requires Honest(up) && Inv(up, w) && FlightOk(up, f) && (StillCanonical(w.chain, f) || Unsettled(w, f.key))
    ensures var w' := w.(cache := CacheQuery(w.cache, f.rx, f.Request(), f.key, named)); Inv(up, w')
  {
    hide PlainNumber, StoredForm, CacheQuery, Print, Tracking, CacheResult;
    var w' := w.(cache := CacheQuery(w.cache, f.rx, f.Request(), f.key, named));
    AnswerKeepsTracking(w, f, named);
    QueryEffect(w.cache, f, named);
    if w'.cache != w.cache {
      assert f.block.Some?;
      assert StoredForm(f.rx) == StoredForm(up(f.key, f.block.value, 0));
      forall k | k in w'.cache.db
        ensures Agrees(up, w', k) || Unsettled(w', k)
      {
        if k in w.cache.db {
          assert Agrees(up, w, k) || Unsettled(w, k);
        }
      }
    }
  }

  /** Unsettling a block asks less. */
  lemma UnsettlingKeepsInv(up: Upstream, w: World, more: set<nat>)
    requires Inv(up, w)
    ensures Inv(up, w.(unsettled := w.unsettled + more))
  {
    hide PlainNumber, StoredForm;
    var w' := w.(unsettled := w.unsettled + more);
    assert forall k :: k in w.cache.db ==> Recorded(w, k) && (Agrees(up, w, k) || Unsettled(w, k));
  }

  lemma StoreKeepsInv(up: Upstream, w: World, i: nat, named: NamedBlocknumbers)
    requires Honest(up) && Inv(up, w) && i < |w.flights|
    ensures Inv(up, Step(up, w, Store(i, named)))
  {
    hide PlainNumber, StoredForm, CacheQuery, Tracking;
    var f := w.flights[i];
    assert f in w.flights;
    var late := if f.overtaken then BlockOf(f.key) else {};
    var looser := w.(unsettled := w.unsettled + late);
    UnsettlingKeepsInv(up, w, late);
    AnswerKeepsEntries(up, looser, f, named);
    var answered := looser.(cache := CacheQuery(w.cache, f.rx, f.Request(), f.key, named));
    var w' := Step(up, w, Store(i, named));
    assert w' == answered.(flights := w'.flights);
    assert forall g :: g in w'.flights ==> g in w.flights;
    LandingKeepsInv(up, answered, w'.flights);
  }

  lemma LandingKeepsInv(up: Upstream, w: World, flights: seq<Flight>)
    requires Inv(up, w) && forall f :: f in flights ==> f in w.flights
    ensures Inv(up, w.(flights := flights))
  {
    hide PlainNumber, StoredForm;
    assert forall k :: k in w.cache.db ==> Recorded(w, k) && (Agrees(up, w, k) || Unsettled(w, k));
  }

  lemma AskKeepsInv(up: Upstream, w: World, e: Event)
    requires Inv(up, w) && e.Ask? && Allowed(w, e)
    ensures Inv(up, Step(up, w, e))
  {
    hide PlainNumber, KeyOf, StoredForm, Hit, Tracking, CacheResult;
    StepKeepsTracking(up, w, e);
    if e.tx.Object? {
      KeyIsObject(e.tx, e.named);
    }
    assert forall k :: k in w.cache.db ==> Agrees(up, w, k) || Unsettled(w, k);
  }

  lemma StepKeepsInv(up: Upstream, w: World, e: Event)
    requires Honest(up) && Inv(up, w) && Allowed(w, e)
    ensures Inv(up, Step(up, w, e))
  {
    hide PlainNumber, KeyOf, StoredForm, Hit, ObserveHead, CacheQuery, Tracking, Overtaken, CacheResult;
    match e
    case Follow(chain) => FollowKeepsInv(up, w, chain);
    case Observe(head, chain) => ObserveKeepsInv(up, w, head, chain);
    case Finalize(_) =>
      StepKeepsTracking(up, w, e);
      assert forall k :: k in w.cache.db ==> Agrees(up, w, k) || Unsettled(w, k);
    case Ask(_, _, _, _) => AskKeepsInv(up, w, e);
    case Store(i, named) =>
      if i < |w.flights| {
        StoreKeepsInv(up, w, i, named);
      }
  }

  lemma {:induction false} RunKeepsInv(up: Upstream, w: World, es: seq<Event>)
    requires Honest(up) && Inv(up, w) && AllowedRun(up, w, es)
    ensures Inv(up, Run(up, w, es))
    decreases |es|
  {
    hide Honest, Inv, Step, Allowed;
    if es != [] {
      StepKeepsInv(up, w, es[0]);
      RunKeepsInv(up, Step(up, w, es[0]), es[1..]);
    }
  }

  /** As long as finalized numbers are not taken back, the head cache holds only records of blocks
      that were not finalized when it last looked. */
  lemma RecordsStayOpen(up: Upstream, w: World, e: Event)
    requires RecordsAreOpen(w.cache) && (e.Finalize? ==> e.number >= w.cache.finalized)
    ensures RecordsAreOpen(Step(up, w, e).cache)
  {
    hide PlainNumber, KeyOf, Hit, GetBlockNumberFromRequest, Print, CanCache;
  }

  /** The finalized numbers of the run are not taken back. */
  ghost predicate Advancing(up: Upstream, w: World, es: seq<Event>)
    decreases |es|
  {
    es == [] ||
    ((es[0].Finalize? ==> es[0].number >= w.cache.finalized) && Advancing(up, Step(up, w, es[0]), es[1..]))
  }

  lemma {:induction false} RunKeepsRecordsOpen(up: Upstream, w: World, es: seq<Event>)
    requires RecordsAreOpen(w.cache) && Advancing(up, w, es)
    ensures RecordsAreOpen(Run(up, w, es).cache)
    decreases |es|
  {
    hide Step, RecordsAreOpen;
    if es != [] {
      RecordsStayOpen(up, w, es[0]);
      RunKeepsRecordsOpen(up, Step(up, w, es[0]), es[1..]);
    }
  }

  /** Memory is given back: after any run in which finalized numbers are not taken back, a head leaves
      records of blocks above the finalized number only. */
  lemma HeadsPrune(up: Upstream, chain: Chain, es: seq<Event>, head: nat, next: Chain)
    requires Advancing(up, Start(chain), es)
    ensures var w := Run(up, Start(chain), es + [Observe(head, next)]);
            && w.cache.lastFinalized == w.cache.finalized
            && forall b :: b in w.cache.tracked ==> b > w.cache.finalized
  {
    hide Step, Run, Advancing;
    var w := Run(up, Start(chain), es);
    RunKeepsRecordsOpen(up, Start(chain), es);
    RunEndsWith(up, Start(chain), es, Observe(head, next));
    ObserveIs(up, w, head, next);
    HeadPrunes(w.cache, head);
    ObservingIsExact(w.cache, head);
    hide ObserveHead;
  }

  lemma ObserveIs(up: Upstream, w: World, head: nat, chain: Chain)
    ensures Step(up, w, Observe(head, chain)).cache == ObserveHead(w.cache, head)
  {
  }

  lemma {:induction false} RunEndsWith(up: Upstream, w: World, es: seq<Event>, e: Event)
    ensures Run(up, w, es + [e]) == Step(up, Run(up, w, es), e)
    decreases |es|
  {
    hide Step;
    if es == [] {
      assert [] + [e] == [e] && [e][1..] == [];
    } else {
      RunEndsWith(up, Step(up, w, es[0]), es[1..], e);
      assert (es + [e])[1..] == es[1..] + [e];
    }
  }

  /** Answers for finalized blocks stay: once the records were pruned, no head evicts one. */
  lemma FinalizedEntriesStay(w: World, head: nat, k: Key)
    requires Tracking(w) && RecordsAreOpen(w.cache) && k in w.cache.db
    requires PlainNumber(k).Block? && PlainNumber(k).n <= w.cache.lastFinalized
    ensures k in ObserveHead(w.cache, head).db && ObserveHead(w.cache, head).db[k] == w.cache.db[k]
  {
    HeadEvictsExactly(w, head, k);
    hide PlainNumber, ObserveHead;
  }

  lemma InvGivesFresh(up: Upstream, w: World, tx: Value, named: NamedBlocknumbers)
    requires Honest(up) && Inv(up, w) && tx.Object? && !Unsettled(w, KeyOf(tx, named))
    ensures Fresh(up, w, tx, named)
  {
    if Hit(w.cache, tx, named).Some? {
      var key := KeyOf(tx, named);
      assert Agrees(up, w, key);
      RestoredIsAnswer(up, key, w.chain[PlainNumber(key).n], 0, IdOf(tx));
    }
  }

  /** Restoring an id in a stored answer gives the answer to the request with that id. */
  lemma RestoredIsAnswer(up: Upstream, key: Key, b: BlockHash, asked: nat, id: nat)
    requires Honest(up) && StoredForm(up(key, b, asked)).Some?
    ensures StoredForm(up(key, b, asked)).value.Object?
    ensures up(key, b, id).value == Some(Set(StoredForm(up(key, b, asked)).value, "id", Number(id)))
  {
    assert StoredForm(up(key, b, asked)) == StoredForm(up(key, b, 0)) == StoredForm(up(key, b, id));
    var v := up(key, b, id).value.value;
    SetLaws(v, "id", Null, Number(id), "id");
    SetLaws(v, "id", Number(id), Number(id), "id");
  }

  lemma InvGivesAllFresh(up: Upstream, w: World)
    requires Honest(up) && Inv(up, w)
    ensures AllFresh(up, w)
  {
    hide Honest, Inv, Fresh, Unsettled, KeyOf;
    forall tx: Value, named: NamedBlocknumbers | tx.Object? && !Unsettled(w, KeyOf(tx, named))
      ensures Fresh(up, w, tx, named)
    {
      InvGivesFresh(up, w, tx, named);
    }
  }

  lemma {:induction false} PrefixIsAllowed(up: Upstream, w: World, es: seq<Event>, i: nat)
    requires AllowedRun(up, w, es) && i <= |es|
    ensures AllowedRun(up, w, es[..i])
    decreases i
  {
    hide Step, Allowed;
    if i > 0 {
      PrefixIsAllowed(up, Step(up, w, es[0]), es[1..], i - 1);
      assert es[..i][1..] == es[1..][..i - 1];
    }
  }

  /** Cache transparency over whole runs, from any state that satisfies the invariant. However
      requests, answers, late answers, failures, heads, reorganisations seen and unseen and finalized
      numbers are interleaved, at every moment every request for a settled block is answered from the
      cache as the upstream would answer it now, or not from the cache. */
  lemma CacheIsTransparent(up: Upstream, w: World, es: seq<Event>)
    requires Honest(up) && Inv(up, w) && AllowedRun(up, w, es)
    ensures forall i :: 0 <= i <= |es| ==> AllFresh(up, Run(up, w, es[..i]))
  {
    hide Honest, Inv, AllFresh, AllowedRun, Run;
    forall i | 0 <= i <= |es|
      ensures AllFresh(up, Run(up, w, es[..i]))
    {
      PrefixIsAllowed(up, w, es, i);
      RunKeepsInv(up, w, es[..i]);
      InvGivesAllFresh(up, Run(up, w, es[..i]));
    }
  }

  lemma StartIsInv(up: Upstream, chain: Chain)
    ensures Inv(up, Start(chain))
  {
  }

  /** From a fresh start, whatever the chain and whatever it does. */
  lemma EmptyCacheIsTransparent(up: Upstream, chain: Chain, es: seq<Event>)
    requires Honest(up) && AllowedRun(up, Start(chain), es)
    ensures forall i :: 0 <= i <= |es| ==> AllFresh(up, Run(up, Start(chain), es[..i]))
  {
    StartIsInv(up, chain);
    CacheIsTransparent(up, Start(chain), es);
  }

  // ---------------------------------------------------------------------------
  // When nothing is unsettled

  lemma OrderlyStepSettles(up: Upstream, w: World, e: Event)
    requires Orderly(w, e)
    ensures Step(up, w, e).unsettled <= w.unsettled
  {
    hide PlainNumber, KeyOf, Hit, ObserveHead, CacheQuery, Overtaken, CacheResult;
  }

  lemma {:induction false} OrderlyRunSettles(up: Upstream, w: World, es: seq<Event>)
    requires OrderlyRun(up, w, es)
    ensures Run(up, w, es).unsettled <= w.unsettled && AllowedRun(up, w, es)
    decreases |es|
  {
    hide Step, Orderly, Allowed;
    if es != [] {
      OrderlyIsAllowed(w, es[0]);
      OrderlyStepSettles(up, w, es[0]);
      OrderlyRunSettles(up, Step(up, w, es[0]), es[1..]);
    }
  }

  lemma OrderlyIsAllowed(w: World, e: Event)
    requires Orderly(w, e)
    ensures Allowed(w, e)
  {
  }

  lemma {:induction false} PrefixIsOrderly(up: Upstream, w: World, es: seq<Event>, i: nat)
    requires OrderlyRun(up, w, es) && i <= |es|
    ensures OrderlyRun(up, w, es[..i])
    decreases i
  {
    hide Step, Orderly;
    if i > 0 {
      PrefixIsOrderly(up, Step(up, w, es[0]), es[1..], i - 1);
      assert es[..i][1..] == es[1..][..i - 1];
    }
  }

  /** When the chain only grows between heads, heads tell of every block they replace, and no answer
      arrives after a reorganisation of its block, nothing is ever unsettled: at every moment every
      request at all is answered from the cache as the upstream would answer it now, or not from the
      cache. */
  lemma OrderlyRunsAreTransparent(up: Upstream, chain: Chain, es: seq<Event>)
    requires Honest(up) && OrderlyRun(up, Start(chain), es)
    ensures forall i, tx: Value, named: NamedBlocknumbers :: 0 <= i <= |es| && tx.Object? ==>
              Fresh(up, Run(up, Start(chain), es[..i]), tx, named)
  {
    hide Fresh, Honest, Inv, OrderlyRun, AllowedRun, KeyOf, PlainNumber, Run;
    forall i, tx: Value, named: NamedBlocknumbers | 0 <= i <= |es| && tx.Object?
      ensures Fresh(up, Run(up, Start(chain), es[..i]), tx, named)
    {
      PrefixIsOrderly(up, Start(chain), es, i);
      OrderlyRunSettles(up, Start(chain), es[..i]);
      StartIsInv(up, chain);
      RunKeepsInv(up, Start(chain), es[..i]);
      InvGivesFresh(up, Run(up, Start(chain), es[..i]), tx, named);
    }
  }

  /** Stale answers do not outlive the next head that covers their block: after any run at all, from
      that head on, as long as nothing unsettles it again, the request is answered as the upstream
      would. */
  lemma HeadHeals(
    up: Upstream, chain: Chain, es: seq<Event>, head: nat, next: Chain, later: seq<Event>,
    tx: Value, named: NamedBlocknumbers)
    requires Honest(up) && AllowedRun(up, Start(chain), es) && tx.Object?
    requires Covers(Run(up, Start(chain), es), head, KeyOf(tx, named))
    requires OrderlyRun(up, Step(up, Run(up, Start(chain), es), Observe(head, next)), later)
    ensures Fresh(up, Run(up, Step(up, Run(up, Start(chain), es), Observe(head, next)), later), tx, named)
  {
    var w := Run(up, Start(chain), es);
    var healed := Step(up, w, Observe(head, next));
    StartIsInv(up, chain);
    hide Fresh, Honest, Inv, OrderlyRun, AllowedRun, KeyOf, PlainNumber, Run, ObserveHead, Overtaken;
    RunKeepsInv(up, Start(chain), es);
    StepKeepsInv(up, w, Observe(head, next));
    OrderlyRunSettles(up, healed, later);
    RunKeepsInv(up, healed, later);
    assert !Unsettled(healed, KeyOf(tx, named));
    InvGivesFresh(up, Run(up, healed, later), tx, named);
  }
}
