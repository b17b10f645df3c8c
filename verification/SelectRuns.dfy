/** The selector over whole runs of picks and latency updates: rate limit, streak limit, and when
    the fallback stays unused. */
module SelectRuns {
  import opened Wrappers
  import opened Rpc
  import opened Select

  datatype Event =
      /** A pick at a time, with whatever latency order the sort produced. */
    | Pick(time: nat, order: seq<nat>)
      /** A request served by the node with this id took so long. */
    | Measure(id: nat, nanos: real)

  ghost predicate Possible(list: seq<Rpc>, e: Event) {
    HasWindows(list) && (e.Pick? ==> IsOrder(e.order, list) && |list| >= 2)
  }

  ghost function Step(list: seq<Rpc>, e: Event): (after: seq<Rpc>)
    requires Possible(list, e)
    ensures |after| == |list| && HasWindows(after)
    ensures forall i :: 0 <= i < |list| ==> SameLimits(list[i], after[i])
  {
    match e
    case Pick(time, order) => Picked(list, order, time)
    case Measure(id, nanos) => Charged(list, id, nanos)
  }

  predicate SameLimits(a: Rpc, b: Rpc) {
    a.maxConsecutive == b.maxConsecutive && a.minTimeDelta == b.minTimeDelta
  }

  /** A run on a fixed list, on a clock that never goes back. */
  ghost predicate Run(list: seq<Rpc>, es: seq<Event>, now: nat)
    decreases |es|
  {
    es == [] ||
    ( && Possible(list, es[0])
      && (es[0].Pick? ==> now <= es[0].time)
      && Run(Step(list, es[0]), es[1..], if es[0].Pick? then es[0].time else now))
  }

  /** The event picks node `r` because it is eligible. */
  ghost predicate Earned(list: seq<Rpc>, e: Event, r: nat)
    requires Possible(list, e)
  {
    e.Pick? && FirstEligible(list, e.order, e.time) == Some(r)
  }

  /** How often the run picks node `r`, other than as the fallback, between two times. */
  ghost function Count(list: seq<Rpc>, es: seq<Event>, now: nat, r: nat, lo: nat, hi: nat): nat
    requires Run(list, es, now)
    decreases |es|
  {
    if es == [] then 0
    else
      (if Earned(list, es[0], r) && lo <= es[0].time <= hi then 1 else 0)
      + Count(Step(list, es[0]), es[1..], if es[0].Pick? then es[0].time else now, r, lo, hi)
  }

  /** What a step does to the node the limits are about. */
  lemma StepOn(list: seq<Rpc>, e: Event, r: nat)
    requires Possible(list, e) && r < |list|
    ensures SameLimits(list[r], Step(list, e)[r])
    ensures e.Measure? ==>
              && Step(list, e)[r].lastUsed == list[r].lastUsed
              && Step(list, e)[r].consecutive == list[r].consecutive
    ensures e.Pick? ==> Step(list, e)[r].lastUsed == e.time || Step(list, e)[r].lastUsed == list[r].lastUsed
    ensures Earned(list, e, r) ==>
              && Step(list, e)[r].lastUsed == e.time
              && Step(list, e)[r].consecutive == list[r].consecutive + 1
              && Eligible(list[r], e.time)
  {
    if e.Measure? {
      ChargingNeverResetsLimits(list, e.id, e.nanos);
    }
  }

  lemma SpendOne(n: nat, gap: nat, before: nat, at: nat, hi: nat)
    requires n * gap <= (if hi >= at then hi - at else 0) && before + gap <= at <= hi
    ensures (n + 1) * gap <= hi - before
  {
    assert (n + 1) * gap == n * gap + gap;
  }

  /** From its last use on, every pick of a node costs it more than its minimal distance. */
  lemma {:induction false} PicksAreSpaced(list: seq<Rpc>, es: seq<Event>, now: nat, r: nat, lo: nat, hi: nat)
    requires Run(list, es, now) && r < |list| && list[r].lastUsed <= now
    ensures Count(list, es, now, r, lo, hi) * (list[r].minTimeDelta + 1)
         <= if hi >= list[r].lastUsed then hi - list[r].lastUsed else 0
    decreases |es|
  {
    hide Step, Earned;
    if es != [] {
      var after, time := Step(list, es[0]), if es[0].Pick? then es[0].time else now;
      StepOn(list, es[0], r);
      PicksAreSpaced(after, es[1..], time, r, lo, hi);
      if Earned(list, es[0], r) && lo <= es[0].time <= hi {
        SpendOne(Count(after, es[1..], time, r, lo, hi), list[r].minTimeDelta + 1, list[r].lastUsed, time, hi);
      }
    }
  }

  /** At most one pick more than the distances that fit into the window. */
  lemma {:induction false} RateBound(list: seq<Rpc>, es: seq<Event>, now: nat, r: nat, lo: nat, hi: nat)
    requires Run(list, es, now) && r < |list| && list[r].lastUsed <= now && lo <= hi
    ensures (Count(list, es, now, r, lo, hi) - 1) * (list[r].minTimeDelta + 1) <= hi - lo
    decreases |es|
  {
    hide Step, Earned;
    if es != [] {
      var after, time := Step(list, es[0]), if es[0].Pick? then es[0].time else now;
      StepOn(list, es[0], r);
      if Earned(list, es[0], r) && lo <= es[0].time <= hi {
        PicksAreSpaced(after, es[1..], time, r, lo, hi);
      } else {
        RateBound(after, es[1..], time, r, lo, hi);
      }
    }
  }

  lemma MulOrder(a: int, b: int, gap: nat)
    ensures a >= b ==> a * gap >= b * gap
  {
    if a >= b {
      assert a * gap == (a - b) * gap + b * gap;
    }
  }

  lemma FitInSecond(n: nat, gap: nat, m: nat)
    requires m >= 1 && gap == 1_000_000 / m + 1 && (n - 1) * gap <= 1_000_000
    ensures n <= m
  {
    assert m * gap > 1_000_000 by {
      assert 1_000_000 == m * (1_000_000 / m) + 1_000_000 % m;
      assert m * gap == m * (1_000_000 / m) + m;
    }
    MulOrder(n - 1, m, gap);
  }

  /** `max_per_second` is honoured: a node configured with `m` is picked at most `m` times in any
      closed window of a second, the fallback aside, whatever the latencies do. */
  lemma MaxPerSecond(list: seq<Rpc>, es: seq<Event>, now: nat, r: nat, lo: nat, m: nat)
    requires Run(list, es, now) && r < |list| && list[r].lastUsed <= now
    requires m >= 1 && list[r].minTimeDelta == 1_000_000 / m
    ensures Count(list, es, now, r, lo, lo + 1_000_000) <= m
  {
    hide Run, Count;
    RateBound(list, es, now, r, lo, lo + 1_000_000);
    var n, gap := Count(list, es, now, r, lo, lo + 1_000_000), list[r].minTimeDelta + 1;
    assert (n - 1) * gap <= 1_000_000;
    FitInSecond(n, gap, m);
  }

  // ---------------------------------------------------------------------------
  // Streaks

  /** Every pick of the run is an earned pick of `r`. */
  ghost predicate Streak(list: seq<Rpc>, es: seq<Event>, now: nat, r: nat)
    requires Run(list, es, now)
    decreases |es|
  {
    es == [] ||
    ( && (es[0].Pick? ==> Earned(list, es[0], r))
      && Streak(Step(list, es[0]), es[1..], if es[0].Pick? then es[0].time else now, r))
  }

  function Picks(es: seq<Event>): nat {
    if es == [] then 0 else (if es[0].Pick? then 1 else 0) + Picks(es[1..])
  }

  /** A streak is no longer than what is left of the node's limit when it starts. */
  lemma {:induction false} StreakBound(list: seq<Rpc>, es: seq<Event>, now: nat, r: nat)
    requires Run(list, es, now) && r < |list| && Streak(list, es, now, r)
    ensures Picks(es) > 0 ==> list[r].consecutive + Picks(es) <= list[r].maxConsecutive
    decreases |es|
  {
    if es != [] {
      StepOn(list, es[0], r);
      StreakBound(Step(list, es[0]), es[1..], if es[0].Pick? then es[0].time else now, r);
    }
  }

  // ---------------------------------------------------------------------------
  // The fallback

  ghost predicate WindowsElapsed(list: seq<Rpc>, time: nat) {
    forall i :: 0 <= i < |list| ==> Since(time, list[i].lastUsed) > list[i].minTimeDelta
  }

  /** Every pick comes when every rate window has elapsed. */
  ghost predicate Unhurried(list: seq<Rpc>, es: seq<Event>, now: nat)
    requires Run(list, es, now)
    decreases |es|
  {
    es == [] ||
    ( && (es[0].Pick? ==> WindowsElapsed(list, es[0].time))
      && Unhurried(Step(list, es[0]), es[1..], if es[0].Pick? then es[0].time else now))
  }

  ghost predicate NoFallback(list: seq<Rpc>, es: seq<Event>, now: nat)
    requires Run(list, es, now)
    decreases |es|
  {
    es == [] ||
    ( && (es[0].Pick? ==> exists r :: Earned(list, es[0], r))
      && NoFallback(Step(list, es[0]), es[1..], if es[0].Pick? then es[0].time else now))
  }

  /** With positive limits and elapsed windows, picks never fall back while at most one counter is
      nonzero, as it is after any pick. */
  lemma {:induction false} FallbackStaysUnused(list: seq<Rpc>, es: seq<Event>, now: nat)
    requires Run(list, es, now) && Unhurried(list, es, now) && OneCounter(list)
    requires forall i :: 0 <= i < |list| ==> list[i].maxConsecutive >= 1
    ensures NoFallback(list, es, now)
    decreases |es|
  {
    if es != [] {
      var e := es[0];
      var after := Step(list, e);
      if e.Pick? {
        SomeoneIsEligible(list, e.order, e.time);
        assert Earned(list, e, FirstEligible(list, e.order, e.time).value);
        PickLeavesOneCounter(list, e.order, e.time);
      } else {
        ChargingNeverResetsLimits(list, e.id, e.nanos);
        assert forall i :: 0 <= i < |list| ==> after[i].consecutive == list[i].consecutive;
      }
      FallbackStaysUnused(after, es[1..], if e.Pick? then e.time else now);
    }
  }

  /** Whatever the counters are before it, the first pick settles them: no later pick falls back. */
  lemma OnlyFirstPickFallsBack(list: seq<Rpc>, first: Event, es: seq<Event>, now: nat)
    requires first.Pick? && Run(list, [first] + es, now)
    requires Unhurried(Step(list, first), es, first.time)
    requires forall i :: 0 <= i < |list| ==> list[i].maxConsecutive >= 1
    ensures NoFallback(Step(list, first), es, first.time)
  {
    assert ([first] + es)[1..] == es;
    PickLeavesOneCounter(list, first.order, first.time);
    FallbackStaysUnused(Step(list, first), es, first.time);
  }
}
