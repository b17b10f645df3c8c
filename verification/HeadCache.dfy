/** The reorg-aware cache: answers keyed by request, with the keys of blocks that can still be
    reorganised remembered per block. */
module HeadCache {
  import opened Wrappers
  import opened Text
  import opened Json
  import opened CacheRules
  import opened Database
  import opened Format

  /** What an upstream node sent back: its text, and the value it parses to if it is JSON. */
  datatype Reply = Reply(text: string, value: Option<Value>)

  /** A request without its id is the key of its answer. */
  type Key = Value

  type Tracked = map<nat, seq<Key>>

  /** Everything `CacheArgs` and the locals of `manage_cache` hold between two steps. The database
      is what a read sent now would find. */
  datatype Cache = Cache(
    db: map<Key, Value>, tracked: Tracked, blockNumber: nat, lastFinalized: nat, finalized: nat)

  const EMPTY_CACHE := Cache(map[], map[], 0, 0, 0)

  // ---------------------------------------------------------------------------
  // The steps, as functions of the state

  ghost predicate RolledBack(tracked: Tracked, lo: nat, hi: nat, key: Key) {
    exists b :: lo <= b <= hi && b in tracked && key in tracked[b]
  }

  /** The keys recorded for blocks `lo` to `hi` are deleted and their records dropped. */
  ghost function Reorg(c: Cache, newBlock: nat): Cache {
    c.(db := map k | k in c.db && !RolledBack(c.tracked, newBlock, c.blockNumber, k) :: c.db[k],
       tracked := Without(c.tracked, newBlock, c.blockNumber + 1))
  }

  /** The records without those of blocks `lo` up to but not including `end`. */
  function Without(tracked: Tracked, lo: nat, end: nat): Tracked {
    map b | b in tracked && !(lo <= b < end) :: tracked[b]
  }

  function Prune(tracked: Tracked, finalized: nat): Tracked {
    map b | b in tracked && b > finalized :: tracked[b]
  }

  /** One turn of the loop of `manage_cache`. */
  ghost function ObserveHead(c: Cache, newBlock: nat): Cache {
    var c1 := if newBlock <= c.blockNumber then Reorg(c, newBlock) else c;
    var c2 := if c.lastFinalized != c.finalized
              then c1.(lastFinalized := c.finalized, tracked := Prune(c1.tracked, c.finalized)) else c1;
    c2.(blockNumber := newBlock)
  }

  /** No record is kept for a block at or below the finalized number it was last pruned to. */
  ghost predicate RecordsAreOpen(c: Cache) {
    c.lastFinalized <= c.finalized && forall b :: b in c.tracked ==> b > c.lastFinalized
  }

  /** What a head leaves: exactly the records outside its range and, if the finalized number moved,
      above that number, as they were; and exactly the entries not recorded in its range. */
  lemma ObservingIsExact(c: Cache, head: nat)
    ensures var after := ObserveHead(c, head);
            && after.blockNumber == head && after.lastFinalized == c.finalized && after.finalized == c.finalized
            && (forall b :: b in after.tracked <==>
                  && b in c.tracked && !(head <= b <= c.blockNumber)
                  && (c.lastFinalized == c.finalized || b > c.finalized))
            && (forall b :: b in after.tracked ==> after.tracked[b] == c.tracked[b])
            && (forall k :: k in after.db <==>
                  k in c.db && forall b :: head <= b <= c.blockNumber && b in c.tracked ==> k !in c.tracked[b])
            && (forall k :: k in after.db ==> after.db[k] == c.db[k])
  {
  }

  /** After a head no record is left for a finalized block. */
  lemma HeadPrunes(c: Cache, head: nat)
    requires RecordsAreOpen(c)
    ensures forall b :: b in ObserveHead(c, head).tracked ==> b > c.finalized
    ensures RecordsAreOpen(ObserveHead(c, head)) && ObserveHead(c, head).lastFinalized == c.finalized
  {
    ObservingIsExact(c, head);
    hide ObserveHead;
  }

  function Track(tracked: Tracked, n: nat, key: Key): Tracked {
    tracked[n := (if n in tracked then tracked[n] else []) + [key]]
  }

  /** The answer as it is stored, with a null id; None if there is no id to replace. */
  function StoredForm(rx: Reply): Option<Value> {
    if rx.value.Some? && Get(rx.value.value, "id").Some? then Some(Set(rx.value.value, "id", Null)) else None
  }

  function CacheQuery(c: Cache, rx: Reply, tx: Value, key: Key, named: NamedBlocknumbers): Cache {
    if !CanCache(Print(tx), rx.text) then c
    else
      match GetBlockNumberFromRequest(tx, named)
      case NoBlock => c
      case Panics => c
      case Block(n) =>
        var c1 := if n > c.finalized then c.(tracked := Track(c.tracked, n, key)) else c;
        match StoredForm(rx)
        case Some(v) => c1.(db := c1.db[key := v])
        case None => c1
  }

  /** The request as it is hashed: a null id, and known tags rewritten. */
  function KeyOf(tx: Value, named: NamedBlocknumbers): Key
    requires tx.Object?
  {
    ReplaceBlockTags(Set(tx, "id", Null), named)
  }

  predicate HasU64Id(tx: Value) {
    Field(tx, "id").Number? && Field(tx, "id").n < U64_LIMIT
  }

  /** `id.as_u64().unwrap_or(0)` */
  function IdOf(tx: Value): nat {
    if HasU64Id(tx) then Field(tx, "id").n else 0
  }

  /** The request as it goes to the nodes: tags rewritten, the numeric id restored. */
  function Outgoing(tx: Value, named: NamedBlocknumbers): Value
    requires tx.Object?
  {
    KeyIsObject(tx, named);
    Set(KeyOf(tx, named), "id", Number(IdOf(tx)))
  }

  /** A request goes out with its own id exactly when that is a `u64`, and otherwise with 0. */
  lemma OutgoingRestoresId(tx: Value, named: NamedBlocknumbers)
    requires tx.Object?
    ensures Get(Outgoing(tx, named), "id") == Get(tx, "id") <==> HasU64Id(tx)
    ensures !HasU64Id(tx) ==> Get(Outgoing(tx, named), "id") == Some(Number(0))
  {
    KeyIsObject(tx, named);
    SetLaws(KeyOf(tx, named), "id", Number(IdOf(tx)), Null, "id");
  }

  lemma OutgoingTooShort(tx: Value, named: NamedBlocknumbers)
    requires tx.Object?
    ensures TooShort(Outgoing(tx, named)) <==> TooShort(tx)
  {
    hide ReplaceBlockTags, RemoveQuotes, Print, Set;
    KeyIsObject(tx, named);
    IdNeverMattersToBlock(tx, Null);
    RewritingKeepsTooShort(Set(tx, "id", Null), named);
    IdNeverMattersToBlock(KeyOf(tx, named), Number(IdOf(tx)));
  }

  lemma IdNeverMattersToBlock(tx: Value, id: Value)
    requires tx.Object?
    ensures BlockPosition(Set(tx, "id", id)) == BlockPosition(tx)
    ensures Field(Set(tx, "id", id), "params") == Field(tx, "params")
  {
    SetLaws(tx, "id", id, Null, "params");
    SetLaws(tx, "id", id, Null, "method");
  }

  lemma KeyIsObject(tx: Value, named: NamedBlocknumbers)
    requires tx.Object?
    ensures KeyOf(tx, named).Object?
  {
  }

  /** The body of an answer from the cache, if the request is answered from it. */
  function Hit(c: Cache, tx: Value, named: NamedBlocknumbers): Option<Value>
    requires tx.Object?
  {
    var key := KeyOf(tx, named);
    if !HasBlockTag(Print(key)) && key in c.db && c.db[key].Object?
    then Some(Set(c.db[key], "id", Number(IdOf(tx)))) else None
  }

  /** The key of a request has a null id and nothing the id could change. */
  lemma KeyHasNullId(tx: Value, named: NamedBlocknumbers)
    requires tx.Object?
    ensures Set(KeyOf(tx, named), "id", Null) == KeyOf(tx, named)
  {
    var bare := Set(tx, "id", Null);
    SetLaws(tx, "id", Null, Null, "id");
    SetLaws(tx, "id", Null, Null, "params");
    var key := KeyOf(tx, named);
    if key != bare {
      var position := BlockPosition(bare).value;
      TaggedParamExists(bare, position);
      var list := Field(bare, "params").items;
      var nn := TagIn(BlockText(bare, position));
      var params := Array(list[position := Quantity(NumberOf(nn, named))]);
      SetLaws(bare, "params", params, Null, "id");
    }
    SetLaws(key, "id", Null, Null, "id");
  }

  /** A request for a tag: `latest` and `finalized` are spelled out in its key once their numbers are
      known, and nothing else is changed but the id. */
  lemma KeySpellsTagOut(tx: Value, items: seq<Value>, position: nat, tag: string, named: NamedBlocknumbers)
    requires tx.Object? && BlockPosition(tx) == Some(position)
    requires Field(tx, "params") == Array(items) && position < |items|
    requires items[position] == String(tag) && tag in {"latest", "earliest", "safe", "finalized", "pending"}
    ensures tag == "latest" && named.latest != 0 ==>
              KeyOf(tx, named) == Set(Set(tx, "id", Null), "params",
                                      Array(items[position := String("0x" + LowerHex(named.latest))]))
    ensures tag == "finalized" && named.finalized != 0 ==>
              KeyOf(tx, named) == Set(Set(tx, "id", Null), "params",
                                      Array(items[position := String("0x" + LowerHex(named.finalized))]))
    ensures tag in {"earliest", "safe", "pending"}
            || (tag == "latest" && named.latest == 0) || (tag == "finalized" && named.finalized == 0) ==>
              KeyOf(tx, named) == Set(tx, "id", Null)
  {
    IdNeverMattersToBlock(tx, Null);
    hide BlockPosition, ReplaceBlockTags, LowerHex, Set;
    TagsMeanTheirNumbers(Set(tx, "id", Null), items, position, tag, named);
  }

  /** The key of a request that names its block by number, or names none, differs only by the id. */
  lemma KeyOfUntagged(tx: Value, named: NamedBlocknumbers)
    requires tx.Object?
    requires BlockPosition(tx).Some? ==> !HasBlockTag(BlockText(tx, BlockPosition(tx).value))
    ensures KeyOf(tx, named) == Set(tx, "id", Null)
  {
    IdNeverMattersToBlock(tx, Null);
    hide BlockPosition, Set, TagIn, Print, RemoveQuotes;
    if BlockPosition(tx).Some? {
      NoTagMeansNoTag(BlockText(tx, BlockPosition(tx).value));
    }
  }

  /** A request for `latest` is answered from the entry of the request that spells the number out, and
      the other way round. */
  lemma LatestSharesItsEntry(
    tx: Value, items: seq<Value>, position: nat, named: NamedBlocknumbers, later: NamedBlocknumbers)
    requires tx.Object? && BlockPosition(tx) == Some(position)
    requires Field(tx, "params") == Array(items) && position < |items| && items[position] == String("latest")
    requires 0 < named.latest < U64_LIMIT
    ensures var number := String("0x" + LowerHex(named.latest));
            KeyOf(tx, named) == KeyOf(Set(tx, "params", Array(items[position := number])), later)
  {
    var spelled := items[position := String("0x" + LowerHex(named.latest))];
    var explicit := Set(tx, "params", Array(spelled));
    KeySpellsTagOut(tx, items, position, "latest", named);
    SetLaws(tx, "params", Array(spelled), Null, "params");
    SetLaws(tx, "params", Array(spelled), Null, "method");
    InsertsCommute(tx.members, "id", Null, "params", Array(spelled));
    IdNeverMattersToBlock(explicit, Null);
    hide ReplaceBlockTags, LowerHex, Insert, Find;
    QuantityIsRead(Set(explicit, "id", Null), spelled, position, named.latest, later);
  }

  /** A request that still holds a tag is neither answered from the cache nor stored in it. */
  lemma TaggedRequestsBypass(c: Cache, tx: Value, named: NamedBlocknumbers, id: nat, rx: Reply, now: NamedBlocknumbers)
    requires tx.Object? && HasBlockTag(Print(KeyOf(tx, named)))
    ensures Hit(c, tx, named) == None
    ensures CacheQuery(c, rx, Set(KeyOf(tx, named), "id", Number(id)), KeyOf(tx, named), now) == c
  {
    KeyHasNullId(tx, named);
    IdNeverMattersToTags(KeyOf(tx, named), id);
  }

  /** Answers are stored with a null id and otherwise as they came. */
  lemma StoredWithNullId(rx: Reply, field: string)
    requires StoredForm(rx).Some?
    ensures Get(StoredForm(rx).value, field) == if field == "id" then Some(Null) else Get(rx.value.value, field)
  {
    SetLaws(rx.value.value, "id", Null, Null, field);
  }

  /** An answer from the cache carries the id of the request it answers exactly when that is a
      `u64`, and otherwise 0; the other fields are the stored ones. */
  lemma HitRestoresId(c: Cache, tx: Value, named: NamedBlocknumbers, field: string)
    requires tx.Object? && Hit(c, tx, named).Some?
    ensures Get(Hit(c, tx, named).value, "id") == Get(tx, "id") <==> HasU64Id(tx)
    ensures !HasU64Id(tx) ==> Get(Hit(c, tx, named).value, "id") == Some(Number(0))
    ensures field != "id" ==> Get(Hit(c, tx, named).value, field) == Get(c.db[KeyOf(tx, named)], field)
  {
    var stored, id := c.db[KeyOf(tx, named)], Number(IdOf(tx));
    SetLaws(stored, "id", id, Null, "id");
    SetLaws(stored, "id", id, Null, field);
  }

  // ---------------------------------------------------------------------------
  // The steps, as the program takes them

  /** The keys of blocks `lo` up to but not including `end`, in the order they are deleted. */
  function KeysBetween(tracked: Tracked, lo: nat, end: nat): seq<Key> {
    if end <= lo then []
    else KeysBetween(tracked, lo, end - 1) + (if end - 1 in tracked then tracked[end - 1] else [])
  }

  function DeleteOps(keys: seq<Key>): seq<BatchOp<Key, Value>> {
    seq(|keys|, i requires 0 <= i < |keys| => BatchDelete(keys[i]))
  }

  lemma {:induction false} KeysBetweenAreRolledBack(tracked: Tracked, lo: nat, end: nat, key: Key)
    requires lo < end
    ensures key in KeysBetween(tracked, lo, end) <==> RolledBack(tracked, lo, end - 1, key)
  {
    if lo < end - 1 {
      KeysBetweenAreRolledBack(tracked, lo, end - 1, key);
    } else {
      assert KeysBetween(tracked, lo, lo) == [];
    }
    assert RolledBack(tracked, lo, end - 1, key) <==>
           (lo < end - 1 && RolledBack(tracked, lo, end - 2, key)) || (end - 1 in tracked && key in tracked[end - 1]);
  }

  /** The batch of a reorg deletes every key recorded for a rolled back block, and only those. */
  lemma ReorgBatchDeletes(tracked: Tracked, lo: nat, hi: nat, key: Key)
    requires lo <= hi
    ensures Deletes(Batch(DeleteOps(KeysBetween(tracked, lo, hi + 1))), key) <==> RolledBack(tracked, lo, hi, key)
  {
    var keys := KeysBetween(tracked, lo, hi + 1);
    KeysBetweenAreRolledBack(tracked, lo, hi + 1, key);
    if key in keys {
      var i :| 0 <= i < |keys| && keys[i] == key;
      assert DeleteOps(keys)[i] == BatchDelete(key);
    }
  }

  /** Deleting the collected keys in one batch and dropping their records is exactly a reorg. */
  lemma ReorgBatchIsExact(c: Cache, newBlock: nat)
    requires newBlock <= c.blockNumber && AllObjects(c.db)
    ensures Reorg(c, newBlock) == c.(
              db := ApplyBatch(c.db, DeleteOps(KeysBetween(c.tracked, newBlock, c.blockNumber + 1))),
              tracked := Without(c.tracked, newBlock, c.blockNumber + 1))
    ensures AllObjects(Reorg(c, newBlock).db)
  {
    hide AllObjects, DeleteOps, KeysBetween, ApplyBatch, Reorg;
    ReorgBatchDeletesExactly(c, newBlock);
    ReorgKeepsObjects(c, newBlock);
  }

  lemma ReorgKeepsObjects(c: Cache, newBlock: nat)
    requires AllObjects(c.db)
    ensures AllObjects(Reorg(c, newBlock).db)
    ensures Reorg(c, newBlock) == c.(
              db := Reorg(c, newBlock).db,
              tracked := Without(c.tracked, newBlock, c.blockNumber + 1))
  {
    hide RolledBack, Without;
  }

  lemma ReorgBatchDeletesExactly(c: Cache, newBlock: nat)
    requires newBlock <= c.blockNumber
    ensures ApplyBatch(c.db, DeleteOps(KeysBetween(c.tracked, newBlock, c.blockNumber + 1))) == Reorg(c, newBlock).db
  {
    var keys := KeysBetween(c.tracked, newBlock, c.blockNumber + 1);
    var ops := DeleteOps(keys);
    var left := ApplyBatch(c.db, ops);
    var right := Reorg(c, newBlock).db;
    forall k: Key
      ensures Lookup(left, k) == Lookup(right, k)
    {
      BatchLookup(c.db, ops, k);
      KeysBetweenAreRolledBack(c.tracked, newBlock, c.blockNumber + 1, k);
      if k in keys {
        var i :| 0 <= i < |keys| && keys[i] == k;
        assert ops[i] == BatchDelete(k);
      }
    }
    SameLookups(left, right);
  }

  method DeleteAll(batch: seq<BatchOp<Key, Value>>, ghost earlier: seq<Key>, keys: seq<Key>)
    returns (longer: seq<BatchOp<Key, Value>>)
    requires batch == DeleteOps(earlier)
    ensures longer == DeleteOps(earlier + keys)
  {
    longer := batch;
    assert earlier + keys[..0] == earlier;
    for j := 0 to |keys|
      invariant longer == DeleteOps(earlier + keys[..j])
    {
      longer := longer + [BatchDelete(keys[j])];
    }
    assert keys[..|keys|] == keys;
  }

  lemma SameLookups(a: map<Key, Value>, b: map<Key, Value>)
    requires forall k: Key :: Lookup(a, k) == Lookup(b, k)
    ensures a == b
  {
    forall k: Key
      ensures k in a <==> k in b
      ensures k in a ==> a[k] == b[k]
    {
      assert Lookup(a, k) == Lookup(b, k);
    }
  }

  /** Stored answers are objects, as their ids were replaced. */
  ghost predicate AllObjects(db: map<Key, Value>) {
    forall k :: k in db ==> db[k].Object?
  }

  lemma WriteKeepsObjects(db: map<Key, Value>, k: Key, v: Value)
    requires AllObjects(db) && v.Object?
    ensures AllObjects(db[k := v])
  {
  }

  lemma LeastBlock(blocks: set<nat>) returns (least: nat)
    requires blocks != {}
    ensures least in blocks && forall b :: b in blocks ==> least <= b
  {
    var x :| x in blocks;
    least := x;
    var others := blocks - {x};
    assert forall b :: b in blocks ==> b == x || b in others;
    if others != {} {
      var rest := LeastBlock(others);
      least := if rest < x then rest else x;
    }
  }

  class ReorgAwareCache {
    /** The database task, behind its queue. */
    const bus: DatabaseTask<Key, Value>
    var headCache: Tracked
    var blockNumber: nat
    var lastFinalized: nat
    /** The value last published on the `finalized` watch channel. */
    var finalized: nat

    ghost predicate Valid()
      reads this, bus
    {
      bus.Valid() && AllObjects(bus.View())
    }

    ghost function State(): Cache
      reads this, bus
    {
      Cache(bus.View(), headCache, blockNumber, lastFinalized, finalized)
    }

    constructor ()
      ensures Valid() && fresh(bus) && State() == EMPTY_CACHE
    {
      bus := new DatabaseTask();
      headCache, blockNumber, lastFinalized, finalized := map[], 0, 0, 0;
    }

    /** Takes the keys of blocks `newBlock` to the old head out of the head cache. */
    method TakeRolledBack(newBlock: nat) returns (batch: seq<BatchOp<Key, Value>>)
      requires newBlock <= blockNumber
      modifies `headCache
      ensures batch == DeleteOps(KeysBetween(old(headCache), newBlock, blockNumber + 1))
      ensures headCache == Without(old(headCache), newBlock, blockNumber + 1)
    {
      batch := [];
      assert batch == DeleteOps(KeysBetween(headCache, newBlock, newBlock));
      for i := newBlock to blockNumber + 1
        invariant batch == DeleteOps(KeysBetween(old(headCache), newBlock, i))
        invariant headCache == Without(old(headCache), newBlock, i)
      {
        if i in headCache {
          batch := DeleteAll(batch, KeysBetween(old(headCache), newBlock, i), headCache[i]);
          headCache := headCache - {i};
        }
      }
    }

    /** Sends the deletion of the answers for blocks `newBlock` to the old head as one batch. */
    method HandleReorg(newBlock: nat)
      requires Valid() && newBlock <= blockNumber
      modifies `headCache, bus
      ensures Valid() && State() == Reorg(old(State()), newBlock)
      ensures bus.history == old(bus.history)
        + [Batch(DeleteOps(KeysBetween(old(headCache), newBlock, blockNumber + 1)))]
    {
      hide KeysBetween, DeleteOps, ApplyBatch, RolledBack, Without, AllObjects, Reorg, Replay;
      ReorgBatchIsExact(State(), newBlock);
      var batch := TakeRolledBack(newBlock);
      var _ := bus.Send(Batch(batch));
    }

    /** Finalized blocks need no record any more. */
    method RemoveStale(number: nat)
      modifies `headCache
      ensures headCache == Prune(old(headCache), number)
    {
      if headCache == map[] {
        return;
      }
      ghost var least := LeastBlock(headCache.Keys);
      var oldest :| oldest in headCache && forall b :: b in headCache ==> oldest <= b;
      if oldest > number {
        return;
      }
      for i := oldest to number + 1
        invariant headCache == Without(old(headCache), 0, i)
      {
        headCache := headCache - {i};
      }
    }

    /** One turn of the loop of `manage_cache`, for the head it observed. */
    method ManageCache(newBlock: nat)
      requires Valid()
      modifies this, bus
      ensures Valid() && State() == ObserveHead(old(State()), newBlock)
      ensures blockNumber == newBlock && lastFinalized == finalized == old(finalized)
      ensures headCache == map b | b in old(headCache) && !(newBlock <= b <= old(blockNumber))
                                   && (old(lastFinalized) == finalized || b > finalized) :: old(headCache)[b]
      ensures forall k :: k in bus.View() <==>
                && k in old(bus.View())
                && forall b :: newBlock <= b <= old(blockNumber) && b in old(headCache) ==> k !in old(headCache)[b]
    {
      ghost var before := State();
      ObservingIsExact(before, newBlock);
      hide AllObjects, Replay, Reorg, Prune;
      if newBlock <= blockNumber {
        HandleReorg(newBlock);
      }
      if lastFinalized != finalized {
        lastFinalized := finalized;
        RemoveStale(lastFinalized);
      }
      blockNumber := newBlock;
      assert State() == ObserveHead(before, newBlock);
      hide ObserveHead;
      assert headCache == ObserveHead(before, newBlock).tracked;
    }

    /** `finalized_tx.send_if_modified` */
    method PublishFinalized(number: nat)
      requires Valid()
      modifies `finalized
      ensures Valid() && State() == old(State()).(finalized := number)
    {
      finalized := number;
    }

    /** Tracks and stores the answer to a request if it may be cached. The task handling the
        request panics, having changed nothing, exactly when a cacheable request has a block
        parameter shorter than the prefix that is sliced off it. */
    method StoreAnswer(rx: Reply, tx: Value, key: Key, named: NamedBlocknumbers) returns (panicked: bool)
      requires Valid()
      modifies `headCache, bus
      ensures Valid() && State() == CacheQuery(old(State()), rx, tx, key, named)
      ensures panicked <==> CanCache(Print(tx), rx.text) && TooShort(tx)
    {
      PanicsIffTooShort(tx, named);
      hide GetBlockNumberFromRequest, TooShort, CanCache, Print, AllObjects, Replay;
      if !CanCache(Print(tx), rx.text) {
        return false;
      }
      var num := GetBlockNumberFromRequest(tx, named);
      if num.Panics? {
        return true;
      }
      if num.Block? {
        if num.n > finalized {
          var keys := if num.n in headCache then headCache[num.n] else [];
          headCache := headCache[num.n := keys + [key]];
        }
        if rx.value == None || Get(rx.value.value, "id") == None {
          return false;
        }
        var rxValue := Set(rx.value.value, "id", Null);
        WriteKeepsObjects(bus.View(), key, rxValue);
        var _ := bus.Send(Write(key, rxValue));
      }
      return false;
    }
  }
}
