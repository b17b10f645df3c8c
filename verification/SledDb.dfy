/** The sled wrapper that flushes, drops and reopens its database to release pinned memory.
    Whether an operation on the disk succeeds, and what the clock says, come from outside. */
module SledDb {
  import opened Wrappers
  import opened Text
  import opened Database

  type Bytes = seq<bv8>

  const FANOUT: nat := 256
  const USIZE_MAX: nat := U64_LIMIT - 1

  /** The clock readings of one call of `maintain`, in order, and what the disk does:
      `now` in the guard, `start` and `done` around the reopening, `end` after it. */
  datatype Io = Io(now: nat, start: nat, flushOk: bool, openOk: bool, done: nat, end: nat) {
    predicate InOrder() {
      now <= start <= done <= end
    }
  }

  /** The wrapper, the disk under it, and the number of bytes written since the last reopen. The
      handle has what was written through it; dropping it leaves only what is on disk. */
  datatype Sled = Sled(
    handle: Option<map<Bytes, Bytes>>, disk: map<Bytes, Bytes>,
    capacity: nat, pinned: nat, nextReopen: nat, written: nat)
  {
    /** What is stored. */
    function View(): map<Bytes, Bytes> {
      if handle.Some? then handle.value else disk
    }
  }

  function Capped(n: nat): nat {
    if n > USIZE_MAX then USIZE_MAX else n
  }

  /** `pin`, with saturating arithmetic. */
  function Pin(s: Sled, written: nat): Sled {
    s.(pinned := Capped(s.pinned + Capped(written * FANOUT)), written := s.written + written)
  }

  function BytesOf(ops: seq<BatchOp<Bytes, Bytes>>): nat {
    if ops == [] then 0
    else
      var last := ops[|ops| - 1];
      BytesOf(ops[..|ops| - 1])
      + match last
        case BatchInsert(k, v) => |k| + |v|
        case BatchDelete(k) => |k|
  }

  /** A call on the wrapper, with what the disk does to it. */
  datatype Call =
    | Put(k: Bytes, v: Bytes, done: bool)
    | PutBatch(ops: seq<BatchOp<Bytes, Bytes>>, done: bool)
    | Save(done: bool)
    | Maintain(io: Io)

  /** Whether `maintain` leaves everything as it is. */
  predicate NotDue(s: Sled, io: Io) {
    s.handle.Some? && (s.pinned < s.capacity || io.now < s.nextReopen)
  }

  /** Whether the call reopens the database. */
  predicate Reopens(s: Sled, c: Call) {
    c.Maintain? && !NotDue(s, c.io) && (s.handle.Some? ==> c.io.flushOk) && c.io.openOk
  }

  function Step(s: Sled, c: Call): Sled {
    match c
    case Put(k, v, done) =>
      if s.handle.Some? && done then Pin(s.(handle := Some(s.handle.value[k := v])), |k| + |v|) else s
    case PutBatch(ops, done) =>
      if s.handle.Some? && done then Pin(s.(handle := Some(ApplyBatch(s.handle.value, ops))), BytesOf(ops)) else s
    case Save(done) =>
      if s.handle.Some? && done then s.(disk := s.handle.value) else s
    case Maintain(io) =>
      if NotDue(s, io) || (s.handle.Some? && !io.flushOk) then s
      else if !io.openOk then s.(disk := s.View(), handle := None)
      else
        var elapsed := if io.done >= io.start then io.done - io.start else 0;
        s.(disk := s.View(), handle := Some(s.View()), pinned := 0, written := 0, nextReopen := io.end + 9 * elapsed)
  }

  class SledStore {
    var db: Option<map<Bytes, Bytes>>
    const capacity: nat
    var pinned: nat
    var nextReopen: nat
    /** The directory, which outlives every handle. */
    var disk: map<Bytes, Bytes>
    ghost var written: nat

    ghost function State(): Sled
      reads this
    {
      Sled(db, disk, capacity, pinned, nextReopen, written)
    }

    constructor (capacity: nat, disk: map<Bytes, Bytes>, now: nat)
      ensures State() == Sled(Some(disk), disk, capacity, 0, now, 0)
    {
      this.db, this.disk, this.capacity := Some(disk), disk, capacity;
      this.pinned, this.nextReopen, this.written := 0, now, 0;
    }

    method PinBytes(n: nat)
      modifies `pinned, `written
      ensures State() == Pin(old(State()), n)
    {
      var product := if n * FANOUT > USIZE_MAX then USIZE_MAX else n * FANOUT;
      pinned := if pinned + product > USIZE_MAX then USIZE_MAX else pinned + product;
      written := written + n;
    }

    method Read(key: Bytes) returns (r: Outcome<Option<Bytes>>)
      ensures r == if db.Some? then Ok(Lookup(State().View(), key)) else Err
    {
      if db == None {
        return Err;
      }
      return Ok(if key in db.value then Some(db.value[key]) else None);
    }

    method Write(key: Bytes, val: Bytes, done: bool) returns (r: Outcome<()>)
      modifies this
      ensures State() == Step(old(State()), Put(key, val, done))
      ensures r.Ok? <==> old(db).Some? && done
      ensures r.Ok? ==> db == Some(old(db).value[key := val])
    {
      if db == None || !done {
        return Err;
      }
      db := Some(db.value[key := val]);
      PinBytes(|key| + |val|);
      return Ok(());
    }

    method WriteAll(batch: seq<BatchOp<Bytes, Bytes>>, done: bool) returns (r: Outcome<()>)
      modifies this
      ensures State() == Step(old(State()), PutBatch(batch, done))
      ensures r.Ok? <==> old(db).Some? && done
      ensures r.Ok? ==> db == Some(ApplyBatch(old(db).value, batch))
    {
      var n := 0;
      for i := 0 to |batch|
        invariant n == BytesOf(batch[..i]) && State() == old(State())
      {
        assert batch[..i + 1][..i] == batch[..i];
        match batch[i] {
          case BatchInsert(k, v) => n := n + |k| + |v|;
          case BatchDelete(k) => n := n + |k|;
        }
      }
      assert batch[..|batch|] == batch;
      if db == None || !done {
        return Err;
      }
      var contents := WriteBatch(db.value, batch);
      db := Some(contents);
      PinBytes(n);
      return Ok(());
    }

    method Flush(done: bool) returns (r: Outcome<()>)
      modifies this
      ensures State() == Step(old(State()), Save(done))
      ensures r.Ok? <==> old(db).Some? && done
      ensures db == old(db) && pinned == old(pinned) && disk == if r.Ok? then db.value else old(disk)
    {
      if db == None || !done {
        return Err;
      }
      disk := db.value;
      return Ok(());
    }

    method MaintainDb(io: Io) returns (r: Outcome<()>)
      requires io.InOrder()
      modifies this
      ensures State() == Step(old(State()), Maintain(io))
      ensures old(db).Some? && (old(pinned) < capacity || io.now < old(nextReopen)) ==>
                r.Ok? && State() == old(State())
      ensures old(db).Some? && old(pinned) >= capacity && io.now >= old(nextReopen) && !io.flushOk ==>
                r.Err? && State() == old(State())
      ensures (old(db).Some? ==> old(pinned) >= capacity && io.now >= old(nextReopen) && io.flushOk) ==>
                && disk == (if old(db).Some? then old(db).value else old(disk))
                && (r.Ok? <==> io.openOk)
                && (r.Ok? ==> db == Some(disk) && pinned == 0 && nextReopen == io.end + 9 * (io.done - io.start))
                && (r.Err? ==> db == None && pinned == old(pinned) && nextReopen == old(nextReopen))
    {
      if db.Some? && (pinned < capacity || io.now < nextReopen) {
        return Ok(());
      }
      if db.Some? {
        var taken := db.value;
        db := None;
        if !io.flushOk {
          db := Some(taken);
          return Err;
        }
        disk := taken;
      }
      if !io.openOk {
        return Err;
      }
      db := Some(disk);
      pinned := 0;
      written := 0;
      var elapsed := io.done - io.start;
      nextReopen := io.end + elapsed * 9;
      return Ok(());
    }
  }

  // ---------------------------------------------------------------------------
  // A plain map underneath

  /** What a call does to the contents, if it gets through. */
  function Effect(s: Sled, c: Call): RequestKind<Bytes, Bytes> {
    match c
    case Put(k, v, done) => if s.handle.Some? && done then RequestKind.Write(k, v) else RequestKind.Flush
    case PutBatch(ops, done) => if s.handle.Some? && done then Batch(ops) else RequestKind.Flush
    case Save(_) => RequestKind.Flush
    case Maintain(_) => RequestKind.Flush
  }

  function Steps(s: Sled, cs: seq<Call>): Sled {
    if cs == [] then s else Step(Steps(s, cs[..|cs| - 1]), cs[|cs| - 1])
  }

  function Effects(s: Sled, cs: seq<Call>): seq<RequestKind<Bytes, Bytes>> {
    if cs == [] then [] else Effects(s, cs[..|cs| - 1]) + [Effect(Steps(s, cs[..|cs| - 1]), cs[|cs| - 1])]
  }

  lemma StepIsEffect(s: Sled, c: Call)
    ensures Step(s, c).View() == Apply(s.View(), Effect(s, c))
  {
    hide ApplyBatch;
  }

  /** Whatever fails and however often the database is reopened, the contents are those of a plain
      map that took the writes that got through: `maintain` never changes them. */
  lemma {:induction false} SledIsAMap(s: Sled, cs: seq<Call>)
    requires s.View() == map[]
    ensures Steps(s, cs).View() == Replay(Effects(s, cs))
  {
    hide Step, Effect, Apply;
    if cs != [] {
      var init := cs[..|cs| - 1];
      SledIsAMap(s, init);
      StepIsEffect(Steps(s, init), cs[|cs| - 1]);
      var effects := Effects(s, cs);
      assert effects[..|effects| - 1] == Effects(s, init);
    }
  }

  // ---------------------------------------------------------------------------
  // Exact accounting

  /** The bytes of the keys and values of a request. */
  function SizeOf(request: RequestKind<Bytes, Bytes>): nat {
    match request
    case Read(_) => 0
    case Write(k, v) => |k| + |v|
    case Batch(ops) => SizeOfOps(ops)
    case Flush => 0
  }

  function SizeOfOps(ops: seq<BatchOp<Bytes, Bytes>>): nat {
    if ops == [] then 0
    else |ops[0].key| + (if ops[0].BatchInsert? then |ops[0].value| else 0) + SizeOfOps(ops[1..])
  }

  lemma {:induction false} SizesAgree(ops: seq<BatchOp<Bytes, Bytes>>)
    ensures BytesOf(ops) == SizeOfOps(ops)
  {
    if ops != [] {
      SizesAgree(ops[..|ops| - 1]);
      SizeEndsWith(ops);
    }
  }

  lemma {:induction false} SizeEndsWith(ops: seq<BatchOp<Bytes, Bytes>>)
    requires ops != []
    ensures var last := ops[|ops| - 1];
            SizeOfOps(ops) == SizeOfOps(ops[..|ops| - 1]) + |last.key| + if last.BatchInsert? then |last.value| else 0
  {
    if |ops| > 1 {
      SizeEndsWith(ops[1..]);
      assert ops[1..][..|ops| - 2] == ops[..|ops| - 1][1..];
    } else {
      assert ops[..0] == [] && ops[1..] == [];
    }
  }

  /** The bytes of the requests that got through since the last reopening, `before` at the start. */
  function Traffic(s: Sled, cs: seq<Call>, before: nat): nat {
    if cs == [] then before
    else
      var init, last := cs[..|cs| - 1], cs[|cs| - 1];
      if Reopens(Steps(s, init), last) then 0 else Traffic(s, init, before) + SizeOf(Effect(Steps(s, init), last))
  }

  lemma StepAccounts(s: Sled, c: Call)
    ensures Step(s, c).written == if Reopens(s, c) then 0 else s.written + SizeOf(Effect(s, c))
    ensures s.pinned == Capped(FANOUT * s.written) ==> Step(s, c).pinned == Capped(FANOUT * Step(s, c).written)
  {
    if c.PutBatch? {
      SizesAgree(c.ops);
    }
    hide ApplyBatch, BytesOf, SizeOfOps;
  }

  lemma {:induction false} RunAccounts(s: Sled, cs: seq<Call>)
    requires s.pinned == Capped(FANOUT * s.written)
    ensures Steps(s, cs).written == Traffic(s, cs, s.written)
    ensures Steps(s, cs).pinned == Capped(FANOUT * Steps(s, cs).written)
  {
    hide Step, Effect, Reopens, Capped, SizeOf;
    if cs != [] {
      RunAccounts(s, cs[..|cs| - 1]);
      StepAccounts(Steps(s, cs[..|cs| - 1]), cs[|cs| - 1]);
    }
  }

  /** Across any run of calls, the estimate is 256 times the bytes of the keys and values that got
      through since the last reopening, capped once at the largest number. */
  lemma PinnedIsExact(disk: map<Bytes, Bytes>, capacity: nat, now: nat, cs: seq<Call>)
    ensures var s := Sled(Some(disk), disk, capacity, 0, now, 0);
            var bytes := 256 * Traffic(s, cs, 0);
            Steps(s, cs).pinned == if bytes < U64_LIMIT then bytes else U64_LIMIT - 1
  {
    hide Steps, Traffic;
    RunAccounts(Sled(Some(disk), disk, capacity, 0, now, 0), cs);
  }

  /** Pinned memory is given back when it may be: after a call of `maintain` for which the disk works
      and the time is reached, less than the capacity is pinned, or nothing. */
  lemma MaintainReleases(s: Sled, io: Io)
    requires s.handle.Some? ==> io.flushOk && io.now >= s.nextReopen
    requires io.openOk
    ensures var after := Step(s, Maintain(io));
            && after.handle.Some? && after.View() == s.View()
            && (after.pinned < s.capacity || after.pinned == 0)
            && (s.handle.Some? && s.pinned < s.capacity ==> after == s)
            && (s.handle.None? || s.pinned >= s.capacity ==> after.disk == s.View() && after.pinned == 0)
  {
  }

  // ---------------------------------------------------------------------------
  // A tenth of the time

  /** A run whose clock never goes back, from a time on. */
  predicate Timed(cs: seq<Call>, now: nat) {
    cs == [] ||
    if cs[0].Maintain? then now <= cs[0].io.now && cs[0].io.InOrder() && Timed(cs[1..], cs[0].io.end)
    else Timed(cs[1..], now)
  }

  datatype Reopening = Reopening(start: nat, elapsed: nat)

  /** When the run reopens the database, and for how long. */
  function ReopeningsOf(s: Sled, cs: seq<Call>): seq<Reopening>
    decreases |cs|
  {
    if cs == [] then []
    else
      (if Reopens(s, cs[0]) && cs[0].io.InOrder()
       then [Reopening(cs[0].io.start, cs[0].io.done - cs[0].io.start)] else [])
      + ReopeningsOf(Step(s, cs[0]), cs[1..])
  }

  function TotalTime(rs: seq<Reopening>): nat {
    if rs == [] then 0 else rs[0].elapsed + TotalTime(rs[1..])
  }

  /** An open database has a time before which it is not reopened; a closed one, left behind by a
      failed opening, is past it. */
  predicate PastIfClosed(s: Sled, now: nat) {
    s.handle.None? ==> s.nextReopen <= now
  }

  /** Reopenings are as far apart as ten times the earlier one took. */
  ghost predicate Spaced(rs: seq<Reopening>) {
    forall i :: 0 <= i < |rs| - 1 ==> rs[i].start + 10 * rs[i].elapsed <= rs[i + 1].start
  }

  lemma {:induction false} ReopeningsAreSpaced(s: Sled, cs: seq<Call>, now: nat)
    requires Timed(cs, now) && PastIfClosed(s, now)
    ensures Spaced(ReopeningsOf(s, cs))
    ensures ReopeningsOf(s, cs) != [] ==> s.nextReopen <= ReopeningsOf(s, cs)[0].start
    decreases |cs|
  {
    if cs != [] {
      var rest := ReopeningsOf(Step(s, cs[0]), cs[1..]);
      ReopeningsAreSpaced(Step(s, cs[0]), cs[1..], if cs[0].Maintain? then cs[0].io.end else now);
      if Reopens(s, cs[0]) {
        assert ReopeningsOf(s, cs)[1..] == rest;
      }
    }
  }

  lemma {:induction false} SpacedSum(rs: seq<Reopening>)
    requires Spaced(rs) && rs != []
    ensures rs[0].start + 10 * TotalTime(rs[..|rs| - 1]) <= rs[|rs| - 1].start
  {
    if |rs| > 1 {
      assert Spaced(rs[1..]);
      SpacedSum(rs[1..]);
      assert rs[..|rs| - 1][1..] == rs[1..][..|rs[1..]| - 1];
    } else {
      assert rs[..0] == [];
    }
  }

  /** Reopening takes at most a tenth of the time: between the starts of the first and the last
      reopening of any run, those before the last take no more than that, whatever flushes and
      openings fail in between. */
  lemma AtMostATenth(s: Sled, cs: seq<Call>, now: nat)
    requires s.handle.Some? && Timed(cs, now) && ReopeningsOf(s, cs) != []
    ensures var rs := ReopeningsOf(s, cs);
            10 * TotalTime(rs[..|rs| - 1]) <= rs[|rs| - 1].start - rs[0].start
  {
    ReopeningsAreSpaced(s, cs, now);
    SpacedSum(ReopeningsOf(s, cs));
  }
}
