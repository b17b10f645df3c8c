/** The database task: one owner of the store serves a first-in first-out queue of requests. */
module Database {
  import opened Wrappers

  datatype BatchOp<K, V> = BatchInsert(key: K, value: V) | BatchDelete(key: K)

  datatype RequestKind<K, V> =
    | Read(k: K)
    | Write(key: K, value: V)
    | Batch(ops: seq<BatchOp<K, V>>)
    | Flush

  /** A request in the queue, with the number its sender waits on. */
  datatype DbRequest<K, V> = DbRequest(ticket: nat, request: RequestKind<K, V>)

  // ---------------------------------------------------------------------------
  // What requests mean for a plain map

  function ApplyBatch<K, V>(store: map<K, V>, ops: seq<BatchOp<K, V>>): map<K, V> {
    if ops == [] then store
    else
      var last := ops[|ops| - 1];
      var before := ApplyBatch(store, ops[..|ops| - 1]);
      match last
      case BatchInsert(k, v) => before[k := v]
      case BatchDelete(k) => before - {k}
  }

  function Apply<K, V>(store: map<K, V>, request: RequestKind<K, V>): map<K, V> {
    match request
    case Read(_) => store
    case Write(k, v) => store[k := v]
    case Batch(ops) => ApplyBatch(store, ops)
    case Flush => store
  }

  function Lookup<K, V>(store: map<K, V>, k: K): Option<V> {
    if k in store then Some(store[k]) else None
  }

  /** Only a read gets an answer with something in it. */
  function ReplyTo<K, V>(store: map<K, V>, request: RequestKind<K, V>): Option<V> {
    if request.Read? then Lookup(store, request.k) else None
  }

  function Replay<K, V>(history: seq<RequestKind<K, V>>): map<K, V> {
    if history == [] then map[] else Apply(Replay(history[..|history| - 1]), history[|history| - 1])
  }

  ghost predicate Deletes<K, V(!new)>(request: RequestKind<K, V>, k: K) {
    request.Batch? && BatchDelete(k) in request.ops && forall v :: BatchInsert(k, v) !in request.ops
  }

  ghost predicate Writes<K, V(!new)>(request: RequestKind<K, V>, k: K) {
    (request.Write? && request.key == k) || (request.Batch? && exists v :: BatchInsert(k, v) in request.ops)
  }

  lemma {:induction false} BatchLookup<K, V(!new)>(store: map<K, V>, ops: seq<BatchOp<K, V>>, k: K)
    requires forall v :: BatchInsert(k, v) !in ops
    ensures Lookup(ApplyBatch(store, ops), k) == if BatchDelete(k) in ops then None else Lookup(store, k)
  {
    if ops != [] {
      var init, last := ops[..|ops| - 1], ops[|ops| - 1];
      assert ops == init + [last];
      BatchLookup(store, init, k);
    }
  }

  /** A key that some batch deleted reads as absent until a later request writes it again. */
  lemma {:induction false} EvictedKeyIsGone<K, V(!new)>(history: seq<RequestKind<K, V>>, j: nat, k: K)
    requires j < |history| && Deletes(history[j], k)
    requires forall i :: j < i < |history| ==> !Writes(history[i], k)
    ensures Lookup(Replay(history), k) == None
  {
    var init, last := history[..|history| - 1], history[|history| - 1];
    if j == |history| - 1 {
      BatchLookup(Replay(init), last.ops, k);
    } else {
      EvictedKeyIsGone(init, j, k);
      assert !Writes(last, k);
      if last.Batch? {
        BatchLookup(Replay(init), last.ops, k);
      }
    }
  }

  /** A read sent after the batch that deleted its key, with no write of the key in between, is
      answered with nothing, whatever was pending. */
  lemma EvictedReadMisses<K, V(!new)>(history: seq<RequestKind<K, V>>, j: nat, t: nat, k: K)
    requires j < t < |history| && Deletes(history[j], k) && history[t] == Read(k)
    requires forall i :: j < i < t ==> !Writes(history[i], k)
    ensures ReplyTo(Replay(history[..t]), history[t]) == None
  {
    hide Writes, Deletes, Replay;
    var before := history[..t];
    assert forall i :: 0 <= i < t ==> before[i] == history[i];
    EvictedKeyIsGone(before, j, k);
  }

  /** Operation `p` of the batch is the last to say anything about its key. */
  ghost predicate LastOp<K, V>(ops: seq<BatchOp<K, V>>, p: nat) {
    p < |ops| && forall q :: p < q < |ops| ==> ops[q].key != ops[p].key
  }

  lemma {:induction false} BatchEndsWith<K, V>(store: map<K, V>, ops: seq<BatchOp<K, V>>, p: nat)
    requires LastOp(ops, p)
    ensures Lookup(ApplyBatch(store, ops), ops[p].key) == if ops[p].BatchInsert? then Some(ops[p].value) else None
  {
    if p < |ops| - 1 {
      var init := ops[..|ops| - 1];
      BatchEndsWith(store, init, p);
      assert ops[|ops| - 1].key != ops[p].key;
    }
  }

  /** The request says something about this key. */
  ghost predicate Touches<K, V(!new)>(request: RequestKind<K, V>, k: K) {
    Writes(request, k) || (request.Batch? && BatchDelete(k) in request.ops)
  }

  lemma UntouchedStays<K, V(!new)>(store: map<K, V>, request: RequestKind<K, V>, k: K)
    requires !Touches(request, k)
    ensures Lookup(Apply(store, request), k) == Lookup(store, k)
  {
    if request.Batch? {
      BatchLookup(store, request.ops, k);
    }
  }

  /** The last request about a key decides what is found under it: the value of a write, or the last
      operation of a batch about that key. */
  lemma {:induction false} LastWriteWins<K, V(!new)>(history: seq<RequestKind<K, V>>, j: nat, p: nat, k: K)
    requires j < |history| && forall i :: j < i < |history| ==> !Touches(history[i], k)
    ensures history[j].Write? && history[j].key == k ==> Lookup(Replay(history), k) == Some(history[j].value)
    ensures history[j].Batch? && LastOp(history[j].ops, p) && history[j].ops[p].key == k ==>
              Lookup(Replay(history), k)
              == if history[j].ops[p].BatchInsert? then Some(history[j].ops[p].value) else None
  {
    hide Touches;
    var init, last := history[..|history| - 1], history[|history| - 1];
    if j < |history| - 1 {
      LastWriteWins(init, j, p, k);
      UntouchedStays(Replay(init), last, k);
    } else if last.Batch? && LastOp(last.ops, p) {
      BatchEndsWith(Replay(init), last.ops, p);
    }
  }

  /** Nothing is found under a key no request was about. */
  lemma {:induction false} NeverWrittenIsAbsent<K, V(!new)>(history: seq<RequestKind<K, V>>, k: K)
    requires forall i :: 0 <= i < |history| ==> !Touches(history[i], k)
    ensures Lookup(Replay(history), k) == None
  {
    hide Touches;
    if history != [] {
      NeverWrittenIsAbsent(history[..|history| - 1], k);
      UntouchedStays(Replay(history[..|history| - 1]), history[|history| - 1], k);
    }
  }

  lemma ReplayStep<K, V>(history: seq<RequestKind<K, V>>, n: nat)
    requires n < |history|
    ensures Replay(history[..n + 1]) == Apply(Replay(history[..n]), history[n])
  {
    assert history[..n + 1][..n] == history[..n];
  }

  // ---------------------------------------------------------------------------
  // The task

  method WriteBatch<K, V>(store: map<K, V>, ops: seq<BatchOp<K, V>>) returns (written: map<K, V>)
    ensures written == ApplyBatch(store, ops)
  {
    written := store;
    for i := 0 to |ops|
      invariant written == ApplyBatch(store, ops[..i])
    {
      assert ops[..i + 1][..i] == ops[..i];
      match ops[i] {
        case BatchInsert(k, v) => written := written[k := v];
        case BatchDelete(k) => written := written - {k};
      }
    }
    assert ops[..|ops|] == ops;
  }

  class DatabaseTask<K(==, !new), V(!new)> {
    var store: map<K, V>
    var queue: seq<DbRequest<K, V>>
    var replies: map<nat, Option<V>>
    var sent: nat

    /** Every request ever sent, in order. */
    ghost var history: seq<RequestKind<K, V>>

    ghost function Served(): int
      reads this
    {
      sent - |queue|
    }

    /** Whatever is pending, the store is the replay of what was served, and every reply already
        given is the lookup in the replay of the requests sent before it. */
    ghost predicate Valid()
      reads this
    {
      && sent == |history|
      && |queue| <= sent
      && store == Replay(history[..Served()])
      && (forall i :: 0 <= i < |queue| ==> queue[i] == DbRequest(Served() + i, history[Served() + i]))
      && (forall t :: t in replies <==> 0 <= t < Served())
      && (forall t :: t in replies ==> replies[t] == ReplyTo(Replay(history[..t]), history[t]))
    }

    /** The contents that a request sent now will find. */
    ghost function View(): map<K, V>
      reads this
    {
      Replay(history)
    }

    constructor ()
      ensures Valid() && history == [] && View() == map[]
    {
      store, queue, replies, sent := map[], [], map[], 0;
      history := [];
    }

    /** `channel.send(DbRequest::new(kind, tx))` */
    method Send(kind: RequestKind<K, V>) returns (ticket: nat)
      requires Valid()
      modifies this
      ensures Valid()
      ensures history == old(history) + [kind] && ticket == |old(history)|
      ensures View() == Apply(old(View()), kind)
      ensures replies == old(replies) && |queue| == old(|queue|) + 1
    {
      hide Replay, Apply, ReplyTo;
      ghost var before := history;
      ticket := sent;
      queue := queue + [DbRequest(sent, kind)];
      sent := sent + 1;
      history := history + [kind];
      forall t | 0 <= t <= |before|
        ensures history[..t] == before[..t]
      {
      }
      assert before[..|before|] == before && history[..|history|] == history;
      ReplayStep(history, |before|);
    }

    /** The match on the kind of request in `database_processing`. */
    method Execute(request: RequestKind<K, V>) returns (result: Option<V>)
      modifies `store
      ensures store == Apply(old(store), request)
      ensures result == ReplyTo(old(store), request)
    {
      result := None;
      match request {
        case Read(k) => result := if k in store then Some(store[k]) else None;
        case Write(k, v) => store := store[k := v];
        case Batch(ops) => store := WriteBatch(store, ops);
        case Flush =>
      }
    }

    /** One turn of `database_processing`. */
    method ServeNext()
      requires Valid() && queue != []
      modifies this
      ensures Valid() && history == old(history) && |queue| == old(|queue|) - 1
      ensures forall t :: t in old(replies) ==> t in replies && replies[t] == old(replies[t])
    {
      hide Replay, Apply, ReplyTo;
      var incoming := queue[0];
      assert incoming == DbRequest(Served(), history[Served()]);
      ReplayStep(history, Served());
      var result := Execute(incoming.request);
      queue := queue[1..];
      replies := replies[incoming.ticket := result];
      assert forall i :: 0 <= i < |queue| ==> queue[i] == old(queue[i + 1]);
    }

    /** `db_get!`: sends a read and waits for the answer, while the task works off what was sent
        before. The answer is the lookup in the contents at the time of sending. */
    method Get(k: K) returns (value: Option<V>)
      requires Valid()
      modifies this
      ensures Valid() && history == old(history) + [Read(k)] && View() == old(View())
      ensures value == Lookup(old(View()), k)
    {
      var ticket := Send(Read(k));
      while ticket !in replies
        invariant Valid() && history == old(history) + [Read(k)]
        decreases |queue|
      {
        ServeNext();
      }
      value := replies[ticket];
      assert history[..ticket] == old(history);
    }
  }
}
