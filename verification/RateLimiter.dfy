/** The two sliding-window rate limiters against one full-history specification: at most `limit`
    admitted hits of a key in any trailing window, rejected hits never counted. The spec of a key
    keeps every admitted timestamp since the last reset; the in-memory limiter keeps a pruned
    deque; the Redis limiter a sorted set that may still hold rejected hits. */
module RateLimiter {
  type Key = string
  type Time = int
  type Member = nat

  // ---- the specification ----------------------------------------------------------------------

  /** What happens to one key, with a fixed limit and window. */
  datatype Event = Attempt(at: Time) | Reset

  function CountAfter(times: seq<Time>, cutoff: Time): nat {
    if times == [] then 0
    else CountAfter(times[..|times| - 1], cutoff) + if times[|times| - 1] > cutoff then 1 else 0
  }

  /** All admitted timestamps since the last reset, and the verdict of every attempt so far. */
  datatype Full = Full(admitted: seq<Time>, verdicts: seq<bool>)

  function SpecStep(f: Full, a: Event, limit: int, window: nat): Full {
    match a
    case Reset => Full([], f.verdicts)
    case Attempt(at) =>
      if CountAfter(f.admitted, at - window) < limit
      then Full(f.admitted + [at], f.verdicts + [true])
      else Full(f.admitted, f.verdicts + [false])
  }

  function Spec(events: seq<Event>, limit: int, window: nat): Full {
    if events == [] then Full([], [])
    else SpecStep(Spec(events[..|events| - 1], limit, window), events[|events| - 1], limit, window)
  }

  function LastTime(events: seq<Event>): Time {
    if events == [] then 0
    else if events[|events| - 1].Attempt? then events[|events| - 1].at else LastTime(events[..|events| - 1])
  }

  /** The clock never runs backwards. */
  predicate Timely(events: seq<Event>) {
    events == [] || (Timely(events[..|events| - 1])
                     && (events[|events| - 1].Attempt? ==> LastTime(events[..|events| - 1]) <= events[|events| - 1].at))
  }

  // ---- the in-memory limiter ------------------------------------------------------------------

  function Prune(bucket: seq<Time>, cutoff: Time): seq<Time> {
    if bucket == [] || bucket[0] > cutoff then bucket else Prune(bucket[1..], cutoff)
  }

  function AfterHit(bucket: seq<Time>, now: Time, limit: int, window: nat): (seq<Time>, bool) {
    var kept := Prune(bucket, now - window);
    if |kept| >= limit then (kept, false) else (kept + [now], true)
  }

  class InMemoryRateLimiter {
    var hits: map<Key, seq<Time>>

    constructor ()
      ensures hits == map[]
    {
      hits := map[];
    }

    method Hit(key: Key, limit: int, window: nat, now: Time) returns (admitted: bool)
      modifies this
      ensures var bucket := if key in old(hits) then old(hits)[key] else [];
              hits == old(hits)[key := AfterHit(bucket, now, limit, window).0]
              && admitted == AfterHit(bucket, now, limit, window).1
    {
      var cutoff := now - window;
      var bucket := if key in hits then hits[key] else [];
      while bucket != [] && bucket[0] <= cutoff
        invariant Prune(bucket, cutoff) == Prune(if key in hits then hits[key] else [], cutoff)
        decreases |bucket|
      {
        bucket := bucket[1..];
      }
      if |bucket| >= limit {
        hits := hits[key := bucket];
        return false;
      }
      hits := hits[key := bucket + [now]];
      return true;
    }

    method ResetKey(key: Key)
      modifies this
      ensures hits == old(hits) - {key}
    {
      hits := hits - {key};
    }
  }

  function DequeStep(d: Full, a: Event, limit: int, window: nat): Full {
    match a
    case Reset => Full([], d.verdicts)
    case Attempt(at) =>
      var (bucket, ok) := AfterHit(d.admitted, at, limit, window);
      Full(bucket, d.verdicts + [ok])
  }

  /** The deque and the verdicts after a trace. */
  function Deque(events: seq<Event>, limit: int, window: nat): Full {
    if events == [] then Full([], [])
    else DequeStep(Deque(events[..|events| - 1], limit, window), events[|events| - 1], limit, window)
  }

  predicate Sorted(times: seq<Time>) {
    forall i, j | 0 <= i < j < |times| :: times[i] <= times[j]
  }

  lemma {:induction false} PruneMeaning(bucket: seq<Time>, cutoff: Time)
    requires Sorted(bucket)
    ensures var kept := Prune(bucket, cutoff);
            && |kept| <= |bucket| && kept == bucket[|bucket| - |kept|..] && Sorted(kept)
            && (forall i | 0 <= i < |kept| :: kept[i] > cutoff)
            && (forall i | 0 <= i < |bucket| - |kept| :: bucket[i] <= cutoff)
            && |kept| == CountAfter(bucket, cutoff)
  {
    if bucket == [] || bucket[0] > cutoff {
      CountAll(bucket, cutoff);
    } else {
      PruneMeaning(bucket[1..], cutoff);
      CountHead(bucket, cutoff);
    }
  }

  lemma {:induction false} CountAll(times: seq<Time>, cutoff: Time)
    requires forall i | 0 <= i < |times| :: times[i] > cutoff
    ensures CountAfter(times, cutoff) == |times|
  {
    if times != [] {
      CountAll(times[..|times| - 1], cutoff);
    }
  }

  lemma {:induction false} CountHead(times: seq<Time>, cutoff: Time)
    requires times != []
    ensures CountAfter(times, cutoff) == CountAfter(times[1..], cutoff) + if times[0] > cutoff then 1 else 0
  {
    if |times| > 1 {
      CountHead(times[..|times| - 1], cutoff);
      assert times[..|times| - 1][1..] == times[1..][..|times[1..]| - 1];
    }
  }

  /** What is past a later cutoff was past the earlier one. */
  lemma PruneTwice(bucket: seq<Time>, c: Time, c': Time)
    requires Sorted(bucket) && c <= c'
    ensures Prune(Prune(bucket, c), c') == Prune(bucket, c')
  {
    PruneMeaning(bucket, c);
    PruneMeaning(bucket, c');
    PruneMeaning(Prune(bucket, c), c');
  }

  lemma {:induction false} PruneSnoc(bucket: seq<Time>, c: Time, t: Time)
    requires c < t
    ensures Prune(bucket + [t], c) == Prune(bucket, c) + [t]
  {
    if bucket != [] && bucket[0] <= c {
      assert (bucket + [t])[1..] == bucket[1..] + [t];
      PruneSnoc(bucket[1..], c, t);
    }
  }

  /** Sorted hits up to `last` that agree past its cutoff. */
  ghost predicate AgreeUpTo(d: seq<Time>, f: seq<Time>, last: Time, window: nat) {
    Sorted(d) && Sorted(f) && UpTo(d, last) && UpTo(f, last) && Prune(f, last - window) == Prune(d, last - window)
  }

  /** Deque and history agree past the cutoff of the last attempt, and both are sorted. */
  ghost predicate Refines(d: Full, f: Full, last: Time, window: nat) {
    d.verdicts == f.verdicts && AgreeUpTo(d.admitted, f.admitted, last, window)
  }

  predicate UpTo(times: seq<Time>, t: Time) {
    forall i | 0 <= i < |times| :: times[i] <= t
  }

  lemma AttemptRefines(d: Full, f: Full, last: Time, at: Time, limit: int, window: nat)
    requires Refines(d, f, last, window) && last <= at
    ensures Refines(DequeStep(d, Attempt(at), limit, window), SpecStep(f, Attempt(at), limit, window), at, window)
  {
    PrunedAgree(d, f, last, at, window);
    var kept := Prune(d.admitted, at - window);
    assert UpTo(f.admitted, at);
    if |kept| < limit {
      AdmittedAgree(kept, f.admitted, at, window);
    }
  }

  lemma AdmittedAgree(kept: seq<Time>, times: seq<Time>, at: Time, window: nat)
    requires AgreeUpTo(kept, times, at, window)
    ensures AgreeUpTo(kept + [at], times + [at], at, window)
  {
    SnocAtCutoff(kept, times, at - window, at);
  }

  lemma PrunedAgree(d: Full, f: Full, last: Time, at: Time, window: nat)
    requires Refines(d, f, last, window) && last <= at
    ensures var c := at - window;
            var kept := Prune(d.admitted, c);
            kept == Prune(f.admitted, c) == Prune(kept, c) && |kept| == CountAfter(f.admitted, c) && Sorted(kept)
                && UpTo(kept, at)
  {
    PruneTwice(d.admitted, last - window, at - window);
    PruneTwice(f.admitted, last - window, at - window);
    PruneKeeps(f.admitted, at - window, at);
  }

  lemma PruneKeeps(bucket: seq<Time>, c: Time, t: Time)
    requires Sorted(bucket) && UpTo(bucket, t)
    ensures var kept := Prune(bucket, c);
            Prune(kept, c) == kept && |kept| == CountAfter(bucket, c) && Sorted(kept) && UpTo(kept, t)
  {
    PruneMeaning(bucket, c);
  }

  /** The deque refines the full history: on every timely trace each verdict is that of the
      specification, a hit being admitted exactly when fewer than `limit` hits admitted since the
      last reset lie in (now - window, now]; and the deque stays sorted. */
  lemma {:induction false} DequeRefinesSpec(events: seq<Event>, limit: int, window: nat)
    requires Timely(events)
    ensures Deque(events, limit, window).verdicts == Spec(events, limit, window).verdicts
    ensures Refines(Deque(events, limit, window), Spec(events, limit, window), LastTime(events), window)
  {
    if events != [] {
      var front, a := events[..|events| - 1], events[|events| - 1];
      DequeRefinesSpec(front, limit, window);
      if a.Attempt? {
        AttemptRefines(Deque(front, limit, window), Spec(front, limit, window), LastTime(front), a.at, limit, window);
      }
    }
  }

  lemma SnocAtCutoff(x: seq<Time>, y: seq<Time>, c: Time, t: Time)
    requires Prune(x, c) == Prune(y, c) && c <= t && Sorted(x) && Sorted(y) && UpTo(x, t) && UpTo(y, t)
    ensures Prune(x + [t], c) == Prune(y + [t], c) && Sorted(x + [t]) && Sorted(y + [t])
  {
    if c < t {
      PruneSnoc(x, c, t);
      PruneSnoc(y, c, t);
    } else {
      PruneAll(x + [t], c);
      PruneAll(y + [t], c);
    }
  }

  lemma {:induction false} PruneAll(times: seq<Time>, c: Time)
    requires UpTo(times, c)
    ensures Prune(times, c) == []
  {
    if times != [] {
      PruneAll(times[1..], c);
    }
  }

  /** The attempts of a trace that were admitted, and its resets. */
  function AdmittedOnly(events: seq<Event>, limit: int, window: nat): seq<Event> {
    if events == [] then []
    else
      var rest := AdmittedOnly(events[..|events| - 1], limit, window);
      var a := events[|events| - 1];
      if a.Attempt? && CountAfter(Spec(events[..|events| - 1], limit, window).admitted, a.at - window) >= limit
          then rest else rest + [a]
  }

  /** A rejected hit leaves no trace: with all of them deleted every remaining hit is admitted, and
      the history is the same. */
  lemma {:induction false} RejectedHitsDoNotCount(events: seq<Event>, limit: int, window: nat)
    ensures var kept := Spec(AdmittedOnly(events, limit, window), limit, window);
            kept.admitted == Spec(events, limit, window).admitted && forall v | v in kept.verdicts :: v
  {
    if events != [] {
      var front, a := events[..|events| - 1], events[|events| - 1];
      RejectedHitsDoNotCount(front, limit, window);
      var rest := AdmittedOnly(front, limit, window);
      SpecSnoc(rest, a, limit, window);
    }
  }

  lemma {:induction false} AdmittedOnlyIsTimely(events: seq<Event>, limit: int, window: nat)
    requires Timely(events)
    ensures Timely(AdmittedOnly(events, limit, window))
              && LastTime(AdmittedOnly(events, limit, window)) <= LastTime(events)
  {
    if events != [] {
      var front, a := events[..|events| - 1], events[|events| - 1];
      AdmittedOnlyIsTimely(front, limit, window);
      var rest := AdmittedOnly(front, limit, window);
      assert (rest + [a])[..|rest + [a]| - 1] == rest;
    }
  }

  /** The same of the deque: replaying only the hits it admitted admits them all again. */
  lemma DequeIgnoresRejectedHits(events: seq<Event>, limit: int, window: nat)
    requires Timely(events)
    ensures forall v | v in Deque(AdmittedOnly(events, limit, window), limit, window).verdicts :: v
  {
    AdmittedOnlyIsTimely(events, limit, window);
    RejectedHitsDoNotCount(events, limit, window);
    DequeRefinesSpec(AdmittedOnly(events, limit, window), limit, window);
  }

  lemma SpecSnoc(events: seq<Event>, a: Event, limit: int, window: nat)
    ensures Spec(events + [a], limit, window) == SpecStep(Spec(events, limit, window), a, limit, window)
  {
    assert (events + [a])[..|events + [a]| - 1] == events;
  }

  // ---- the Redis limiter ----------------------------------------------------------------------

  /** A key's sorted set and the time Redis expires it. */
  datatype ZSet = ZSet(scores: map<Member, Time>, until: Time)

  const NO_KEY := ZSet(map[], 0)

  /** The members scored after `cutoff`. */
  function Above(scores: map<Member, Time>, cutoff: Time): set<Member> {
    set m | m in scores && scores[m] > cutoff
  }

  function Pruned(z: ZSet, now: Time, window: nat): map<Member, Time> {
    if now >= z.until then map[] else map m | m in z.scores && z.scores[m] > now - window :: z.scores[m]
  }

  /** The pipeline: prune, add, count, expire. */
  function AfterPipeline(z: ZSet, m: Member, now: Time, window: nat): ZSet {
    ZSet(Pruned(z, now, window)[m := now], now + window)
  }

  class RedisRateLimiter {
    var sets: map<Key, ZSet>

    constructor ()
      ensures sets == map[]
    {
      sets := map[];
    }

    method Pipeline(key: Key, m: Member, window: nat, now: Time) returns (count: nat)
      modifies this
      ensures sets ==
                old(sets)[key := AfterPipeline(if key in old(sets) then old(sets)[key] else NO_KEY, m, now, window)]
      ensures count == |sets[key].scores|
    {
      var z := if key in sets then sets[key] else NO_KEY;
      var scores := if now >= z.until then map[] else z.scores;
      scores := scores - (set x | x in scores && scores[x] <= now - window);
      assert scores == Pruned(z, now, window);
      scores := scores[m := now];
      sets := sets[key := ZSet(scores, now + window)];
      return |scores|;
    }

    method Remove(key: Key, m: Member)
      modifies this
      ensures sets == if key !in old(sets) then old(sets)
                      else old(sets)[key := old(sets)[key].(scores := old(sets)[key].scores - {m})]
    {
      if key in sets {
        sets := sets[key := sets[key].(scores := sets[key].scores - {m})];
      }
    }

    /** `hit` without anything between its two round trips. */
    method Hit(key: Key, m: Member, limit: int, window: nat, now: Time) returns (admitted: bool)
      modifies this
      ensures var z := AfterPipeline(if key in old(sets) then old(sets)[key] else NO_KEY, m, now, window);
              && admitted == (|z.scores| <= limit)
              && sets == old(sets)[key := if admitted then z else z.(scores := z.scores - {m})]
    {
      var count := Pipeline(key, m, window, now);
      if count > limit {
        Remove(key, m);
        return false;
      }
      return true;
    }

    method ResetKey(key: Key)
      modifies this
      ensures sets == old(sets) - {key}
    {
      sets := sets - {key};
    }
  }

  // ---- interleaved hits on one key ------------------------------------------------------------

  /** `admitted` is history: the admitted hits since the last reset. `rejected` holds the members
      whose clean-up is still under way. */
  datatype Shared = Shared(z: ZSet, next: Member, last: Time, rejected: set<Member>, admitted: map<Member, Time>)

  datatype Step =
    | Pipe(at: Time)     // some client's pipeline; pipelines run in timestamp order
    | Zrem(m: Member)    // the late clean-up of a rejected hit
    | ResetKey

  ghost predicate Enabled(g: Shared, a: Step) {
    match a
    case Pipe(at) => g.last <= at
    case Zrem(m) => m in g.rejected
    case ResetKey => true
  }

  function After(g: Shared, a: Step, limit: int, window: nat): Shared {
    match a
    case Pipe(at) =>
      var z := AfterPipeline(g.z, g.next, at, window);
      var g' := g.(z := z, next := g.next + 1, last := at);
      if |z.scores| > limit then g'.(rejected := g.rejected + {g.next}) else g'.(admitted := g.admitted[g.next := at])
    case Zrem(m) => g.(z := g.z.(scores := g.z.scores - {m}), rejected := g.rejected - {m})
    case ResetKey => g.(z := NO_KEY, admitted := map[])
  }

  ghost predicate Runs(run: seq<Step>, limit: int, window: nat)
    decreases |run|
  {
    run == [] || (Runs(run[..|run| - 1], limit, window)
        && Enabled(Exec(run[..|run| - 1], limit, window), run[|run| - 1]))
  }

  function Exec(run: seq<Step>, limit: int, window: nat): Shared {
    if run == [] then Shared(NO_KEY, 0, 0, {}, map[])
    else After(Exec(run[..|run| - 1], limit, window), run[|run| - 1], limit, window)
  }

  /** The admitted hits with timestamps in (t - window, t]. */
  function InWindow(admitted: map<Member, Time>, t: Time, window: nat): set<Member> {
    set m | m in admitted && t - window < admitted[m] <= t
  }

  ghost predicate Inv(g: Shared, limit: int, window: nat) {
    && (forall m | m in g.admitted :: m < g.next && m !in g.rejected && g.admitted[m] <= g.last)
    && (forall m | m in g.z.scores :: m < g.next)
    && (forall m | m in g.rejected :: m < g.next)
    && (forall m | m in g.admitted && g.last - window < g.admitted[m] ::
          m in g.z.scores && g.z.scores[m] == g.admitted[m])
    && (g.admitted != map[] ==> g.z.until == g.last + window)
    && (forall t :: |InWindow(g.admitted, t, window)| <= if limit < 0 then 0 else limit)
  }

  lemma SubsetSize<T>(a: set<T>, b: set<T>)
    requires a <= b
    ensures |a| <= |b|
  {
    if a != b {
      assert b == a + (b - a) && a !! (b - a);
      assert |b| == |a| + |b - a|;
    }
  }

  lemma PipeKeepsInv(g: Shared, at: Time, limit: int, window: nat)
    requires Inv(g, limit, window) && g.last <= at
    ensures Inv(After(g, Pipe(at), limit, window), limit, window)
  {
    var g' := After(g, Pipe(at), limit, window);
    forall m | m in g.admitted && at - window < g.admitted[m]
        ensures m in g'.z.scores && g'.z.scores[m] == g.admitted[m] {
      assert g.last - window < g.admitted[m];
    }
    forall t ensures |InWindow(g'.admitted, t, window)| <= if limit < 0 then 0 else limit {
      if g'.admitted == g.admitted {
        assert |InWindow(g.admitted, t, window)| <= if limit < 0 then 0 else limit;
      } else if t < at {
        assert InWindow(g'.admitted, t, window) == InWindow(g.admitted, t, window);
      } else {
        assert InWindow(g'.admitted, t, window) <= g'.z.scores.Keys;
        SubsetSize(InWindow(g'.admitted, t, window), g'.z.scores.Keys);
        assert |g'.z.scores.Keys| == |g'.z.scores|;
      }
    }
  }

  lemma {:induction false} RunKeepsInv(run: seq<Step>, limit: int, window: nat)
    requires Runs(run, limit, window)
    ensures Inv(Exec(run, limit, window), limit, window)
  {
    if run == [] {
      forall t ensures InWindow(map[], t, window) == {} {}
    } else {
      RunKeepsInv(run[..|run| - 1], limit, window);
      var g := Exec(run[..|run| - 1], limit, window);
      match run[|run| - 1] {
        case Pipe(at) => PipeKeepsInv(g, at, limit, window);
        case Zrem(_) =>
        case ResetKey => forall t ensures InWindow(map[], t, window) == {} {}
      }
    }
  }

  /** However pipelines and late clean-ups interleave, between resets at most `limit` hits are
      admitted in any trailing window. */
  lemma AtMostLimitInAnyWindow(run: seq<Step>, limit: nat, window: nat, t: Time)
    requires Runs(run, limit, window)
    ensures |InWindow(Exec(run, limit, window).admitted, t, window)| <= limit
  {
    RunKeepsInv(run, limit, window);
  }

  // ---- what a late clean-up costs -------------------------------------------------------------

  /** The set holds admitted hits, with their times, and rejected ones on their way out. */
  ghost predicate Accounted(g: Shared) {
    forall m | m in g.z.scores :: m in g.rejected || (m in g.admitted && g.z.scores[m] == g.admitted[m])
  }

  lemma {:induction false} RunKeepsAccounted(run: seq<Step>, limit: int, window: nat)
    requires Runs(run, limit, window)
    ensures Accounted(Exec(run, limit, window))
  {
    if run != [] {
      RunKeepsAccounted(run[..|run| - 1], limit, window);
      RunKeepsInv(run[..|run| - 1], limit, window);
    }
  }

  /** The rejected hits still in the set when a pipeline at `at` has pruned it. */
  function Lingering(g: Shared, at: Time, window: nat): set<Member> {
    set m | m in Pruned(g.z, at, window) && m in g.rejected
  }

  predicate Admits(g: Shared, at: Time, limit: int, window: nat) {
    |AfterPipeline(g.z, g.next, at, window).scores| <= limit
  }

  lemma PrunedIsAdmittedAndLingering(g: Shared, at: Time, limit: int, window: nat)
    requires Inv(g, limit, window) && Accounted(g) && g.last <= at
    ensures Pruned(g.z, at, window).Keys == InWindow(g.admitted, at, window) + Lingering(g, at, window)
    ensures InWindow(g.admitted, at, window) !! Lingering(g, at, window)
  {
    forall m | m in InWindow(g.admitted, at, window) ensures m in Pruned(g.z, at, window) {
      assert g.last - window < g.admitted[m];
    }
  }

  /** However hits and clean-ups interleave, a hit is admitted exactly when the admitted hits of its
      window and the rejected ones not yet cleaned up are together fewer than the limit. */
  lemma AdmittedIffRoomBesideRejected(run: seq<Step>, limit: int, window: nat, at: Time)
    requires Runs(run, limit, window) && Exec(run, limit, window).last <= at
    ensures var g := Exec(run, limit, window);
            Admits(g, at, limit, window) <==> |InWindow(g.admitted, at, window)| + |Lingering(g, at, window)| < limit
  {
    var g := Exec(run, limit, window);
    RunKeepsInv(run, limit, window);
    RunKeepsAccounted(run, limit, window);
    PrunedIsAdmittedAndLingering(g, at, limit, window);
    var kept := Pruned(g.z, at, window);
    assert g.next !in kept && kept[g.next := at].Keys == kept.Keys + {g.next};
    assert |kept[g.next := at].Keys| == |kept.Keys| + 1;
    assert |kept.Keys| == |InWindow(g.admitted, at, window)| + |Lingering(g, at, window)|;
  }

  /** A rejected hit can extend the window while its clean-up is late: with room for one hit in ten
      seconds, the hit at 12 is turned away with no admitted hit in its window. */
  lemma RejectedHitMayExtendTheWindow()
    ensures var run := [Pipe(0), Pipe(5)];
            && Runs(run, 1, 10) && Exec(run, 1, 10).last <= 12
            && InWindow(Exec(run, 1, 10).admitted, 12, 10) == {} && !Admits(Exec(run, 1, 10), 12, 1, 10)
  {
    var one, run := [Pipe(0)], [Pipe(0), Pipe(5)];
    assert one[..0] == [] && run[..1] == one;
    assert Exec([], 1, 10) == Shared(NO_KEY, 0, 0, {}, map[]);
    assert Exec(one, 1, 10) == Shared(ZSet(map[0 := 0], 10), 1, 0, {}, map[0 := 0]);
    assert Pruned(ZSet(map[0 := 0], 10), 5, 10) == map[0 := 0];
    assert |map[0 := 0, 1 := 5].Keys| == |{0, 1}|;
    var g := Exec(run, 1, 10);
    assert g == Shared(ZSet(map[0 := 0, 1 := 5], 15), 2, 5, {1}, map[0 := 0]);
    assert Lingering(g, 12, 10) == {1};
    AdmittedIffRoomBesideRejected(run, 1, 10, 12);
  }

  // ---- the two limiters agree when the clean-up follows at once --------------------------------

  /** The Redis limiter over a trace; history as in `Shared`. */
  datatype Prompt = Prompt(z: ZSet, next: Member, verdicts: seq<bool>, admitted: map<Member, Time>)

  function RedisStep(p: Prompt, a: Event, limit: int, window: nat): Prompt {
    match a
    case Reset => Prompt(NO_KEY, p.next, p.verdicts, map[])
    case Attempt(at) =>
      var z := AfterPipeline(p.z, p.next, at, window);
      if |z.scores| > limit then Prompt(z.(scores := z.scores - {p.next}), p.next + 1, p.verdicts + [false], p.admitted)
      else Prompt(z, p.next + 1, p.verdicts + [true], p.admitted[p.next := at])
  }

  function Redis(events: seq<Event>, limit: int, window: nat): Prompt {
    if events == [] then Prompt(NO_KEY, 0, [], map[])
    else RedisStep(Redis(events[..|events| - 1], limit, window), events[|events| - 1], limit, window)
  }

  /** Scores are admitted hits; those still in the window are all there, and the key outlives them. */
  ghost predicate StoreMatches(z: ZSet, next: Member, admitted: map<Member, Time>, last: Time, window: nat) {
    && (forall m | m in admitted :: m < next && admitted[m] <= last)
    && (forall m | m in z.scores :: m < next && m in admitted && z.scores[m] == admitted[m])
    && (forall m | m in admitted && last - window < admitted[m] :: m in z.scores)
    && (admitted != map[] ==> z.until == last + window)
  }

  ghost predicate Counted(admitted: map<Member, Time>, times: seq<Time>) {
    forall c :: |Above(admitted, c)| == CountAfter(times, c)
  }

  ghost predicate Matched(p: Prompt, f: Full, last: Time, window: nat) {
    p.verdicts == f.verdicts && StoreMatches(p.z, p.next, p.admitted, last, window) && Counted(p.admitted, f.admitted)
  }

  lemma PipelineCounts(p: Prompt, f: Full, last: Time, at: Time, window: nat)
    requires Matched(p, f, last, window) && last <= at
    ensures |AfterPipeline(p.z, p.next, at, window).scores| == CountAfter(f.admitted, at - window) + 1
    ensures Pruned(p.z, at, window).Keys == Above(p.admitted, at - window)
  {
    var kept := Pruned(p.z, at, window);
    assert kept.Keys == Above(p.admitted, at - window);
    assert p.next !in kept && kept[p.next := at].Keys == kept.Keys + {p.next};
    assert |kept[p.next := at].Keys| == |kept.Keys| + 1;
    assert |Above(p.admitted, at - window)| == CountAfter(f.admitted, at - window);
  }

  lemma AdmittingCounts(p: Prompt, f: Full, last: Time, at: Time, window: nat, c: Time)
    requires Matched(p, f, last, window)
    ensures |Above(p.admitted[p.next := at], c)| == CountAfter(f.admitted + [at], c)
  {
    assert (f.admitted + [at])[..|f.admitted + [at]| - 1] == f.admitted;
    assert Above(p.admitted[p.next := at], c) == Above(p.admitted, c) + if at > c then {p.next} else {};
    assert |Above(p.admitted, c)| == CountAfter(f.admitted, c);
  }

  lemma AttemptKeepsMatched(p: Prompt, f: Full, last: Time, at: Time, limit: int, window: nat)
    requires Matched(p, f, last, window) && last <= at
    ensures Matched(RedisStep(p, Attempt(at), limit, window), SpecStep(f, Attempt(at), limit, window), at, window)
  {
    PipelineCounts(p, f, last, at, window);
    PipelineMatches(p.z, p.next, p.admitted, last, at, window);
    if CountAfter(f.admitted, at - window) < limit {
      forall c ensures |Above(p.admitted[p.next := at], c)| == CountAfter(f.admitted + [at], c) {
        AdmittingCounts(p, f, last, at, window, c);
      }
      assert Counted(p.admitted[p.next := at], f.admitted + [at]);
    } else {
      RejectionLeavesPruned(p, at, limit, window);
    }
  }

  /** After a pipeline the set matches the history with its hit, and without the member without it. */
  lemma PipelineMatches(z: ZSet, next: Member, admitted: map<Member, Time>, last: Time, at: Time, window: nat)
    requires StoreMatches(z, next, admitted, last, window) && last <= at
    ensures StoreMatches(AfterPipeline(z, next, at, window), next + 1, admitted[next := at], at, window)
    ensures StoreMatches(ZSet(Pruned(z, at, window), at + window), next + 1, admitted, at, window)
  {
  }

  lemma RejectionLeavesPruned(p: Prompt, at: Time, limit: int, window: nat)
    requires |AfterPipeline(p.z, p.next, at, window).scores| > limit && p.next !in p.z.scores
    ensures RedisStep(p, Attempt(at), limit, window)
         == Prompt(ZSet(Pruned(p.z, at, window), at + window), p.next + 1, p.verdicts + [false], p.admitted)
  {
    var kept := Pruned(p.z, at, window);
    assert kept[p.next := at] - {p.next} == kept;
  }

  /** When each clean-up follows its pipeline at once, the Redis limiter's verdicts on any timely
      trace are the specification's, and so the in-memory limiter's. */
  lemma {:induction false} PromptRedisAgreesWithMemory(events: seq<Event>, limit: int, window: nat)
    requires Timely(events)
    ensures Matched(Redis(events, limit, window), Spec(events, limit, window), LastTime(events), window)
    ensures Redis(events, limit, window).verdicts == Deque(events, limit, window).verdicts
  {
    DequeRefinesSpec(events, limit, window);
    if events == [] {
      forall c ensures Above(map[], c) == {} {}
    } else {
      var front, a := events[..|events| - 1], events[|events| - 1];
      PromptRedisAgreesWithMemory(front, limit, window);
      if a.Attempt? {
        AttemptKeepsMatched(Redis(front, limit, window), Spec(front, limit, window), LastTime(front), a.at, limit,
            window);
      } else {
        forall c ensures Above(map[], c) == {} {}
      }
    }
  }
}
