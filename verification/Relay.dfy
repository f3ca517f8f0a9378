/** The supervised relay subscription: the listener with its idle ping, and the supervisor that
    resubscribes with backoff and reports the gap. Times are milliseconds. The environment (what
    each poll and each subscribe attempt yields) is an input; the log records what was done. */
module Relay {
  import opened Options

  const RESUBSCRIBE_INITIAL := 500
  const RESUBSCRIBE_MAX := 5000
  const RESUBSCRIBE_STABLE := 30000
  const POLL := 1000
  const IDLE_PING := 15000
  const PING_TIMEOUT := 5000

  /** What a poll returns: nothing, traffic that is no message, a message whose JSON decodes (or
      does not), or an error of the connection. */
  datatype Result = Nothing | Ack | Message(payload: Option<string>) | Broken

  /** `at` is the clock after the poll returned; `pingOk` says whether a ping sent then succeeds. */
  datatype Poll = Poll(at: nat, result: Result, pingOk: bool)

  /** One life of the subscription, and the outcomes of the subscribe attempts after its end. */
  datatype Round = Round(start: nat, polls: seq<Poll>, attempts: seq<bool>)

  datatype Event =
    | Handled(payload: string)
    | Dropped(lasted: nat)
    | Slept(delay: nat)
    | Resubscribed
    | GapCalled

  function Min(a: nat, b: nat): nat {
    if a < b then a else b
  }

  // ---- the order of events the supervisor must produce ----------------------------------------

  datatype Stage = Streaming | Down | Back

  function Advance(before: Option<(Stage, nat)>, e: Event): Option<(Stage, nat)> {
    if before.None? then None
    else
      var (stage, due) := before.value;
      match e
      case Handled(_) => if stage == Streaming then before else None
      case Dropped(lasted) =>
        if stage != Streaming then None
        else Some((Down, if lasted >= RESUBSCRIBE_STABLE then RESUBSCRIBE_INITIAL else due))
      case Slept(d) => if stage == Down && d == due then Some((Down, Min(2 * due, RESUBSCRIBE_MAX))) else None
      case Resubscribed => if stage == Down then Some((Back, due)) else None
      case GapCalled => if stage == Back then Some((Streaming, due)) else None
  }

  /** Where a log leaves the subscription and the delay the next retry must sleep, or None if the
      log is out of order: payloads only while streaming; after a drop sleeps, each with the due
      delay, which doubles up to the cap and falls back to the initial one only when the stream
      had held; then one resubscription, one gap call, and streaming again. */
  function Track(log: seq<Event>): (r: Option<(Stage, nat)>)
    ensures r.Some? ==> RESUBSCRIBE_INITIAL <= r.value.1 <= RESUBSCRIBE_MAX
  {
    if log == [] then Some((Streaming, RESUBSCRIBE_INITIAL)) else Advance(Track(log[..|log| - 1]), log[|log| - 1])
  }

  predicate InOrder(log: seq<Event>, stage: Stage) {
    Track(log).Some? && Track(log).value.0 == stage
  }

  function Count(log: seq<Event>, counted: Event -> bool): nat {
    if log == [] then 0 else Count(log[..|log| - 1], counted) + if counted(log[|log| - 1]) then 1 else 0
  }

  /** In an ordered log drops, resubscriptions and gap calls alternate one for one. */
  lemma {:induction false} OneGapPerDrop(log: seq<Event>)
    requires Track(log).Some?
    ensures Count(log, (e: Event) => e.Dropped?) ==
              Count(log, (e: Event) => e.Resubscribed?) + (if Track(log).value.0 == Down then 1 else 0)
    ensures Count(log, (e: Event) => e.Resubscribed?) ==
              Count(log, (e: Event) => e.GapCalled?) + (if Track(log).value.0 == Back then 1 else 0)
  {
    if log != [] {
      OneGapPerDrop(log[..|log| - 1]);
    }
  }

  lemma {:induction false} PrefixInOrder(log: seq<Event>, n: nat)
    requires Track(log).Some? && n <= |log|
    ensures Track(log[..n]).Some?
  {
    if n < |log| {
      PrefixInOrder(log[..|log| - 1], n);
      assert log[..|log| - 1][..n] == log[..n];
    } else {
      assert log[..n] == log;
    }
  }

  /** No payload is handled after a drop until the gap handler has been called for it. */
  lemma {:induction false} GapBeforeNextPayload(log: seq<Event>, i: nat, j: nat)
    requires Track(log).Some? && i < j < |log| && log[i].Dropped? && log[j].Handled?
    ensures exists k :: i < k < j && log[k] == GapCalled
  {
    PrefixInOrder(log, j + 1);
    PrefixInOrder(log, i + 1);
    assert log[..j + 1][..j] == log[..j];
    assert log[..i + 1][..i] == log[..i];
    if forall k | i < k < j :: log[k] != GapCalled {
      NoGapStaysDown(log, i, j);
    }
  }

  lemma {:induction false} NoGapStaysDown(log: seq<Event>, i: nat, j: nat)
    requires i < j <= |log| && log[i].Dropped? && Track(log[..j]).Some?
    requires forall k | i < k < j :: log[k] != GapCalled
    ensures Track(log[..j]).value.0 != Streaming
  {
    assert log[..j][..j - 1] == log[..j - 1];
    if i + 1 < j {
      NoGapStaysDown(log, i, j - 1);
    }
  }

  lemma TrackSnoc(log: seq<Event>, e: Event)
    ensures Track(log + [e]) == Advance(Track(log), e)
  {
    assert (log + [e])[..|log + [e]| - 1] == log;
  }

  /** What the listener hands to its handler: the decodable messages, in order. */
  function Payloads(polls: seq<Poll>): seq<Event> {
    if polls == [] then []
    else
      var r := polls[|polls| - 1].result;
      Payloads(polls[..|polls| - 1]) + if r.Message? && r.payload.Some? then [Handled(r.payload.value)] else []
  }

  // ---- the listener's clock -------------------------------------------------------------------

  /** Handing over payloads leaves the subscription streaming. */
  lemma {:induction false} PayloadsKeepStage(log: seq<Event>, polls: seq<Poll>)
    requires InOrder(log, Streaming)
    ensures Track(log + Payloads(polls)) == Track(log)
  {
    if polls == [] {
      assert log + [] == log;
    } else {
      var front, r := Payloads(polls[..|polls| - 1]), polls[|polls| - 1].result;
      PayloadsKeepStage(log, polls[..|polls| - 1]);
      if r.Message? && r.payload.Some? {
        assert log + Payloads(polls) == (log + front) + [Handled(r.payload.value)];
        HandledKeepsStage(log + front, r.payload.value);
      } else {
        assert Payloads(polls) == front;
      }
    }
  }

  lemma HandledKeepsStage(log: seq<Event>, payload: string)
    requires InOrder(log, Streaming)
    ensures Track(log + [Handled(payload)]) == Track(log)
  {
    TrackSnoc(log, Handled(payload));
  }

  /** The listener's two clocks at time `now` of a steady stream: no ping before 15 s of silence,
      one by 16 s, and an unanswered one is at most 5 s old. */
  predicate Watching(lastSeen: nat, pingSentAt: Option<nat>, now: nat) {
    && lastSeen <= now
    && (pingSentAt.None? ==> now < lastSeen + IDLE_PING)
    && (pingSentAt.Some? ==> pingSentAt.value <= now < pingSentAt.value + PING_TIMEOUT
                             && pingSentAt.value < lastSeen + IDLE_PING + POLL)
  }

  /** The listener's variables after some polls. */
  datatype Clock = Clock(lastSeen: nat, pingSentAt: Option<nat>, dead: bool)

  /** One poll: traffic resets both clocks; silence sends a ping when it has lasted, and ends the
      stream when a ping goes unanswered for too long or cannot be sent; so does an error. */
  function Heed(c: Clock, p: Poll): Clock {
    match p.result
    case Broken => c.(dead := true)
    case Nothing =>
      if c.pingSentAt.Some? then c.(dead := p.at >= c.pingSentAt.value + PING_TIMEOUT)
      else if p.at >= c.lastSeen + IDLE_PING then c.(pingSentAt := Some(p.at), dead := !p.pingOk)
      else c
    case _ => Clock(p.at, None, c.dead)
  }

  function Heeding(polls: seq<Poll>, start: nat): Clock {
    if polls == [] then Clock(start, None, false) else Heed(Heeding(polls[..|polls| - 1], start), polls[|polls| - 1])
  }

  /** How many polls it takes until the stream is given up, if it is. */
  function DropAt(polls: seq<Poll>, start: nat): (n: Option<nat>)
    ensures n.Some? ==> 0 < n.value <= |polls|
  {
    if polls == [] then None
    else
      var earlier := DropAt(polls[..|polls| - 1], start);
      if earlier.Some? then earlier else if Heeding(polls, start).dead then Some(|polls|) else None
  }

  /** When the last traffic was seen, counting the start of the stream. */
  function LastTraffic(polls: seq<Poll>, start: nat): nat {
    if polls == [] then start
    else if polls[|polls| - 1].result.Nothing? then LastTraffic(polls[..|polls| - 1], start)
    else polls[|polls| - 1].at
  }

  /** Polls are at most a poll interval apart: no handler stalls the listener. */
  predicate Steady(polls: seq<Poll>, start: nat) {
    forall k | 0 <= k < |polls| :: PromptAt(polls, start, k)
  }

  predicate PromptAt(polls: seq<Poll>, start: nat, k: nat)
    requires k < |polls|
  {
    var before := if k == 0 then start else polls[k - 1].at;
    before <= polls[k].at <= before + POLL
  }

  lemma SteadyPrefix(polls: seq<Poll>, start: nat, n: nat)
    requires Steady(polls, start) && n <= |polls|
    ensures Steady(polls[..n], start)
  {
    forall k | 0 <= k < n ensures PromptAt(polls[..n], start, k) {
      assert PromptAt(polls, start, k);
    }
  }

  /** None of the first `used` polls came 22 s or more after the last traffic before it. */
  predicate NoticedInTime(polls: seq<Poll>, used: nat, start: nat)
    requires used <= |polls|
  {
    forall k | 0 <= k < used :: polls[k].at < LastTraffic(polls[..k], start) + 22_000
  }

  /** How long the stream held when poll `used - 1` ended it. */
  function Lasted(polls: seq<Poll>, used: nat, start: nat): nat
    requires 0 < used <= |polls|
  {
    if polls[used - 1].at <= start then 0 else polls[used - 1].at - start
  }

  /** What the two clocks of a listener that has not given up say. */
  lemma {:induction false} ClockMeaning(polls: seq<Poll>, start: nat)
    requires DropAt(polls, start).None?
    ensures var c := Heeding(polls, start);
            && !c.dead && c.lastSeen == LastTraffic(polls, start)
            && (c.pingSentAt.Some? ==> c.pingSentAt.value >= c.lastSeen + IDLE_PING)
            && (Steady(polls, start) ==>
                Watching(c.lastSeen, c.pingSentAt, if polls == [] then start else polls[|polls| - 1].at))
  {
    if polls != [] {
      var front := polls[..|polls| - 1];
      ClockMeaning(front, start);
      if Steady(polls, start) {
        SteadyPrefix(polls, start, |polls| - 1);
        assert PromptAt(polls, start, |polls| - 1);
      }
    }
  }

  lemma {:induction false} NoEarlierDrop(polls: seq<Poll>, start: nat, n: nat, k: nat)
    requires k < n <= |polls| && (DropAt(polls[..n], start).None? || DropAt(polls[..n], start) == Some(n))
    ensures DropAt(polls[..k], start).None?
  {
    assert polls[..n][..n - 1] == polls[..n - 1];
    if k < n - 1 {
      NoEarlierDrop(polls, start, n - 1, k);
    }
  }

  /** No poll a listener takes comes 22 s or more after the last traffic. */
  lemma SilenceIsNoticed(polls: seq<Poll>, start: nat, used: nat)
    requires used <= |polls| && (DropAt(polls[..used], start).None? || DropAt(polls[..used], start) == Some(used))
    ensures Steady(polls, start) ==> NoticedInTime(polls, used, start)
  {
    if Steady(polls, start) {
      forall k | 0 <= k < used
          ensures polls[k].at < LastTraffic(polls[..k], start) + 22_000
      {
        NoEarlierDrop(polls, start, used, k);
        ClockMeaning(polls[..k], start);
        SteadyPrefix(polls, start, k);
        assert PromptAt(polls, start, k);
      }
    }
  }

  /** A stream given up in silence, with its ping sent, has been silent for 20 s. */
  lemma SilenceIsReal(polls: seq<Poll>, start: nat, used: nat)
    requires 0 < used <= |polls| && DropAt(polls[..used], start) == Some(used)
    ensures polls[used - 1].result.Nothing? && polls[used - 1].pingOk ==>
              polls[used - 1].at >= LastTraffic(polls[..used - 1], start) + 20_000
  {
    NoEarlierDrop(polls, start, used, used - 1);
    ClockMeaning(polls[..used - 1], start);
    assert polls[..used][..used - 1] == polls[..used - 1];
  }

  // ---- what a supervisor's life leaves in the log ----------------------------------------------

  /** A log with one stream added: the payloads heard, and its end if it ends. */
  function Streamed(log: seq<Event>, polls: seq<Poll>, start: nat): seq<Event> {
    match DropAt(polls, start)
    case None => log + Payloads(polls)
    case Some(n) => log + Payloads(polls[..n]) + [Dropped(Lasted(polls, n, start))]
  }

  /** The delay the first retry after the stream's end sleeps. */
  function DueAfter(polls: seq<Poll>, start: nat, delay: nat): nat {
    match DropAt(polls, start)
    case None => delay
    case Some(n) => if Lasted(polls, n, start) >= RESUBSCRIBE_STABLE then RESUBSCRIBE_INITIAL else delay
  }

  /** A log with some subscribe attempts added, the delay they leave, and whether one succeeded. */
  datatype Recovery = Recovery(log: seq<Event>, delay: nat, up: bool)

  function Retries(log: seq<Event>, attempts: seq<bool>, delay: nat): (r: Recovery)
    ensures r.up <==> true in attempts
    ensures RESUBSCRIBE_INITIAL <= delay <= RESUBSCRIBE_MAX ==> RESUBSCRIBE_INITIAL <= r.delay <= RESUBSCRIBE_MAX
    decreases |attempts|
  {
    if attempts == [] then Recovery(log, delay, false)
    else
      var doubled := Min(delay * 2, RESUBSCRIBE_MAX);
      if attempts[0] then Recovery(log + [Slept(delay)] + [Resubscribed], doubled, true)
      else Retries(log + [Slept(delay)], attempts[1..], doubled)
  }

  /** A log with everything added that happens over the rounds: a stream, its end, the retries, the
      gap call, and again, until the script runs out in a stream or among the retries. */
  function Life(log: seq<Event>, rounds: seq<Round>, delay: nat): seq<Event>
    decreases |rounds|
  {
    if rounds == [] then log
    else
      var r := rounds[0];
      var streamed := Streamed(log, r.polls, r.start);
      if DropAt(r.polls, r.start).None? then streamed
      else
        var retries := Retries(streamed, r.attempts, DueAfter(r.polls, r.start, delay));
        if retries.up then Life(retries.log + [GapCalled], rounds[1..], retries.delay) else retries.log
  }

  lemma {:induction false} RetriesInOrder(log: seq<Event>, attempts: seq<bool>, delay: nat)
    requires Track(log) == Some((Down, delay))
    ensures var r := Retries(log, attempts, delay); Track(r.log) == Some((if r.up then Back else Down, r.delay))
    decreases |attempts|
  {
    if attempts != [] {
      TrackSnoc(log, Slept(delay));
      if attempts[0] {
        TrackSnoc(log + [Slept(delay)], Resubscribed);
      } else {
        RetriesInOrder(log + [Slept(delay)], attempts[1..], Min(delay * 2, RESUBSCRIBE_MAX));
      }
    }
  }

  lemma StreamInOrder(log: seq<Event>, polls: seq<Poll>, start: nat, delay: nat)
    requires Track(log) == Some((Streaming, delay))
    ensures Track(Streamed(log, polls, start)) ==
              Some((if DropAt(polls, start).Some? then Down else Streaming, DueAfter(polls, start, delay)))
  {
    var drop := DropAt(polls, start);
    if drop.None? {
      PayloadsKeepStage(log, polls);
    } else {
      PayloadsKeepStage(log, polls[..drop.value]);
      TrackSnoc(log + Payloads(polls[..drop.value]), Dropped(Lasted(polls, drop.value, start)));
    }
  }

  /** Whatever the connection does, a life is in order, and it never ends between a resubscription
      and its gap call. */
  lemma {:induction false} LifeInOrder(log: seq<Event>, rounds: seq<Round>, delay: nat)
    requires Track(log) == Some((Streaming, delay))
    ensures Track(Life(log, rounds, delay)).Some? && Track(Life(log, rounds, delay)).value.0 != Back
    decreases |rounds|
  {
    if rounds != [] {
      var r := rounds[0];
      var streamed := Streamed(log, r.polls, r.start);
      StreamInOrder(log, r.polls, r.start, delay);
      if DropAt(r.polls, r.start).Some? {
        var due := DueAfter(r.polls, r.start, delay);
        var retries := Retries(streamed, r.attempts, due);
        RetriesInOrder(streamed, r.attempts, due);
        if retries.up {
          TrackSnoc(retries.log, GapCalled);
          LifeInOrder(retries.log + [GapCalled], rounds[1..], retries.delay);
        }
      }
    }
  }

  class RedisRelay {
    var log: seq<Event>
    var delay: nat

    constructor ()
      ensures log == [] && delay == RESUBSCRIBE_INITIAL
    {
      log, delay := [], RESUBSCRIBE_INITIAL;
    }

    /** Deliver messages until the stream drops. Gives how many polls it consumed; `dropped` is
        false when the given polls run out first. A steady listener never outlives 22 s of silence,
        and gives up on a silent stream only after 20 s of it. */
    method Listen(polls: seq<Poll>, start: nat) returns (used: nat, dropped: bool)
      modifies this`log
      ensures DropAt(polls, start) == (if dropped then Some(used) else None)
      ensures used <= |polls| && (if dropped then 0 < used else used == |polls|)
      ensures log == Streamed(old(log), polls, start)
      ensures Steady(polls, start) ==> NoticedInTime(polls, used, start)
      ensures dropped && polls[used - 1].result.Nothing? && polls[used - 1].pingOk ==>
                polls[used - 1].at >= LastTraffic(polls[..used - 1], start) + 20_000
    {
      var lastSeen: nat, pingSentAt: Option<nat> := start, None;
      used := 0;
      while used < |polls|
        invariant used <= |polls|
        invariant log == old(log) + Payloads(polls[..used])
        invariant Clock(lastSeen, pingSentAt, false) == Heeding(polls[..used], start)
                  && DropAt(polls[..used], start).None?
      {
        var p := polls[used];
        assert polls[..used + 1][..used] == polls[..used];
        used := used + 1;
        assert polls[..used][|polls[..used]| - 1] == p;
        var dead := p.result.Broken?;
        if p.result.Nothing? {
          if pingSentAt.Some? {
            dead := p.at >= pingSentAt.value + PING_TIMEOUT;
          } else if p.at >= lastSeen + IDLE_PING {
            dead, pingSentAt := !p.pingOk, Some(p.at);
          }
        } else if !p.result.Broken? {
          lastSeen, pingSentAt := p.at, None;
          if p.result.Message? && p.result.payload.Some? {
            log := log + [Handled(p.result.payload.value)];
          }
        }
        assert log == old(log) + Payloads(polls[..used]);
        if dead {
          DropStays(polls, start, used);
          SilenceIsNoticed(polls, start, used);
          SilenceIsReal(polls, start, used);
          log := log + [Dropped(Lasted(polls, used, start))];
          return used, true;
        }
      }
      assert polls[..|polls|] == polls;
      SilenceIsNoticed(polls, start, used);
      return used, false;
    }

    /** Subscribe attempts with growing delay until one succeeds; false when they run out. */
    method Retry(attempts: seq<bool>) returns (up: bool)
      modifies this
      ensures Recovery(log, delay, up) == Retries(old(log), attempts, old(delay))
      ensures up <==> true in attempts
    {
      for i := 0 to |attempts|
        invariant Retries(log, attempts[i..], delay) == Retries(old(log), attempts, old(delay))
      {
        assert attempts[i..][0] == attempts[i] && attempts[i..][1..] == attempts[i + 1..];
        log := log + [Slept(delay)];
        delay := Min(delay * 2, RESUBSCRIBE_MAX);
        if attempts[i] {
          log := log + [Resubscribed];
          return true;
        }
      }
      return false;
    }

    /** The supervisor's whole life over any sequence of rounds. */
    method Supervise(rounds: seq<Round>)
      requires log == [] && delay == RESUBSCRIBE_INITIAL
      modifies this
      ensures log == Life([], rounds, RESUBSCRIBE_INITIAL)
      ensures Track(log).Some? && Track(log).value.0 != Back
      ensures 500 <= delay <= 5000
    {
      LifeInOrder([], rounds, RESUBSCRIBE_INITIAL);
      for i := 0 to |rounds|
        invariant Life(log, rounds[i..], delay) == Life([], rounds, RESUBSCRIBE_INITIAL)
        invariant RESUBSCRIBE_INITIAL <= delay <= RESUBSCRIBE_MAX
      {
        var r := rounds[i];
        assert rounds[i..][0] == r && rounds[i..][1..] == rounds[i + 1..];
        var used, dropped := Listen(r.polls, r.start);
        if !dropped {
          return;
        }
        if Lasted(r.polls, used, r.start) >= RESUBSCRIBE_STABLE {
          delay := RESUBSCRIBE_INITIAL;
        }
        var up := Retry(r.attempts);
        if !up {
          return;
        }
        log := log + [GapCalled];
      }
    }
  }

  lemma {:induction false} DropStays(polls: seq<Poll>, start: nat, n: nat)
    requires n <= |polls| && DropAt(polls[..n], start).Some?
    ensures DropAt(polls, start) == DropAt(polls[..n], start)
  {
    if n < |polls| {
      assert polls[..|polls| - 1][..n] == polls[..n];
      DropStays(polls[..|polls| - 1], start, n);
    } else {
      assert polls[..n] == polls;
    }
  }

  /** The payloads of a stream are those of its decodable messages, one each, in order. */
  lemma {:induction false} PayloadsMeaning(polls: seq<Poll>, more: seq<Poll>, p: Poll)
    ensures Payloads(polls + more) == Payloads(polls) + Payloads(more)
    ensures Payloads([p]) == match p.result
                             case Message(Some(payload)) => [Handled(payload)]
                             case _ => []
    decreases |more|
  {
    assert Payloads([p][..0]) == [];
    if more == [] {
      assert polls + more == polls;
    } else {
      PayloadsMeaning(polls, more[..|more| - 1], p);
      assert (polls + more)[..|polls + more| - 1] == polls + more[..|more| - 1];
    }
  }
}
