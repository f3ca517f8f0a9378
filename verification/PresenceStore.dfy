/** The cross-worker presence store: per room a payload hash and a liveness sorted set in Redis,
    each key with its own expiry, and the workers that add, refresh, remove and crash.
    Each store call is one atomic step; the local lists and the awaits before the calls are in
    `PresenceCluster`. */
module PresenceStore {
  import opened Options
  import opened PresenceLocal

  type Payload = string
  type WorkerId = nat
  /** The "{user}|{worker}" member of a liveness set. */
  datatype Tag = Tag(user: UserId, worker: WorkerId)

  /** The two keys of a room; a key past its `until` is gone. */
  datatype RoomKeys = RoomKeys(payloads: map<UserId, Payload>, live: map<Tag, Time>, payloadsUntil: Time,
      liveUntil: Time)

  type Store = map<Room, RoomKeys>

  function Raw(st: Store, room: Room): RoomKeys {
    if room in st then st[room] else RoomKeys(map[], map[], 0, 0)
  }

  /** A room's keys as a command at time `now` finds them. */
  function Fetch(st: Store, room: Room, now: Time): RoomKeys {
    var k := Raw(st, room);
    k.(payloads := if now < k.payloadsUntil then k.payloads else map[],
       live := if now < k.liveUntil then k.live else map[])
  }

  function Prune(live: map<Tag, Time>, now: Time): map<Tag, Time> {
    map t | t in live && now < live[t] :: live[t]
  }

  function LiveUsers(live: map<Tag, Time>): set<UserId> {
    set t | t in live :: t.user
  }

  function AfterAdd(st: Store, key: Key, w: WorkerId, member: Payload, now: Time, ttl: Time): Store {
    var k := Fetch(st, key.room, now);
    st[key.room := RoomKeys(k.payloads[key.user := member], k.live[Tag(key.user, w) := now + ttl], now + 4 * ttl,
        now + 4 * ttl)]
  }

  function AfterTouch(st: Store, key: Key, w: WorkerId, now: Time, ttl: Time): Store {
    var k := Fetch(st, key.room, now);
    st[key.room := RoomKeys(k.payloads, k.live[Tag(key.user, w) := now + ttl], now + 4 * ttl, now + 4 * ttl)]
  }

  /** One pipeline: entries in any order, the expiries set once per touched room or once per entry
      come to the same. */
  function AfterRefresh(st: Store, entries: seq<Key>, w: WorkerId, now: Time, ttl: Time): Store {
    if entries == [] then st
    else AfterTouch(AfterRefresh(st, entries[..|entries| - 1], w, now, ttl), entries[|entries| - 1], w, now, ttl)
  }

  function AfterRemove(st: Store, key: Key, w: WorkerId, now: Time): Store {
    var k := Fetch(st, key.room, now);
    var live := Prune(k.live - {Tag(key.user, w)}, now);
    st[key.room := k.(live := live,
                      payloads := if key.user in LiveUsers(live) then k.payloads else k.payloads - {key.user})]
  }

  /** The list a room's members call computes. */
  function Members(st: Store, room: Room, now: Time): map<UserId, Payload> {
    var k := Fetch(st, room, now);
    map u | u in k.payloads && u in LiveUsers(Prune(k.live, now)) :: k.payloads[u]
  }

  function AfterMembers(st: Store, room: Room, now: Time): Store {
    var k := Fetch(st, room, now);
    st[room := k.(live := Prune(k.live, now), payloads := Members(st, room, now))]
  }

  /** The Redis server all workers share. */
  class Redis {
    var keys: Store

    constructor ()
      ensures keys == map[]
    {
      keys := map[];
    }
  }

  class RedisPresenceStore {
    const redis: Redis
    const worker: WorkerId
    const ttl: Time

    constructor (redis: Redis, worker: WorkerId, ttl: Time)
      ensures this.redis == redis && this.worker == worker && this.ttl == ttl
    {
      this.redis, this.worker, this.ttl := redis, worker, ttl;
    }

    method Add(key: Key, member: Payload, now: Time)
      modifies redis
      ensures redis.keys == AfterAdd(old(redis.keys), key, worker, member, now, ttl)
    {
      var k := Fetch(redis.keys, key.room, now);
      k := k.(payloads := k.payloads[key.user := member]);
      k := k.(live := k.live[Tag(key.user, worker) := now + ttl]);
      k := k.(payloadsUntil := now + 4 * ttl, liveUntil := now + 4 * ttl);
      redis.keys := redis.keys[key.room := k];
    }

    method RefreshMany(entries: seq<Key>, now: Time)
      modifies redis
      ensures redis.keys == AfterRefresh(old(redis.keys), entries, worker, now, ttl)
    {
      for i := 0 to |entries|
        invariant redis.keys == AfterRefresh(old(redis.keys), entries[..i], worker, now, ttl)
      {
        assert entries[..i + 1][..i] == entries[..i];
        var k := Fetch(redis.keys, entries[i].room, now);
        k := k.(live := k.live[Tag(entries[i].user, worker) := now + ttl]);
        k := k.(payloadsUntil := now + 4 * ttl, liveUntil := now + 4 * ttl);
        redis.keys := redis.keys[entries[i].room := k];
      }
      assert entries[..|entries|] == entries;
    }

    method Remove(key: Key, now: Time)
      modifies redis
      ensures redis.keys == AfterRemove(old(redis.keys), key, worker, now)
    {
      var k := Fetch(redis.keys, key.room, now);
      k := k.(live := Prune(k.live - {Tag(key.user, worker)}, now));
      var stillPresent := exists t | t in k.live :: t.user == key.user;
      if !stillPresent {
        k := k.(payloads := k.payloads - {key.user});
      }
      redis.keys := redis.keys[key.room := k];
    }

    method List(room: Room, now: Time) returns (out: map<UserId, Payload>)
      modifies redis
      ensures out == Members(old(redis.keys), room, now)
      ensures redis.keys == AfterMembers(old(redis.keys), room, now)
    {
      var k := Fetch(redis.keys, room, now);
      k := k.(live := Prune(k.live, now));
      var liveUids := LiveUsers(k.live);
      out := map[];
      var orphans: set<UserId> := {};
      var todo := k.payloads.Keys;
      while todo != {}
        invariant todo <= k.payloads.Keys
        invariant out == map u | u in k.payloads && u in liveUids && u !in todo :: k.payloads[u]
        invariant orphans == set u | u in k.payloads && u !in liveUids && u !in todo
        decreases todo
      {
        var u :| u in todo;
        todo := todo - {u};
        if u in liveUids {
          out := out[u := k.payloads[u]];
        } else {
          orphans := orphans + {u};
        }
      }
      k := k.(payloads := k.payloads - orphans);
      assert k.payloads == out;
      redis.keys := redis.keys[room := k];
    }
  }

  // ---- workers over the store -----------------------------------------------------------------

  /** `held` is what the worker has told the store it lists, each with its last refresh. */
  datatype Worker = Worker(alive: bool, held: map<Key, Time>)

  /** `shown` is history: the payload last added for a room and user. */
  datatype System = System(now: Time, workers: seq<Worker>, st: Store, shown: map<Key, Payload>)

  datatype Step =
    | Enter(w: nat, key: Key, member: Payload)  // presence_join
    | Expire(w: nat, key: Key)                  // the end of the grace period
    | Heartbeat(w: nat, entries: seq<Key>)
    | Query(room: Room)                         // any worker computing the list
    | Crash(w: nat)
    | Pass(to: Time)                            // a running worker refreshes within the ttl

  ghost predicate Enabled(g: System, a: Step, ttl: Time) {
    match a
    case Enter(w, _, _) => w < |g.workers| && g.workers[w].alive
    case Expire(w, key) => w < |g.workers| && g.workers[w].alive && key in g.workers[w].held
    case Heartbeat(w, entries) =>
      w < |g.workers| && g.workers[w].alive && forall k | k in entries :: k in g.workers[w].held
    case Query(_) => true
    case Crash(w) => w < |g.workers|
    case Pass(to) =>
      g.now < to && forall w, k | 0 <= w < |g.workers| && g.workers[w].alive && k in g.workers[w].held ::
          to < g.workers[w].held[k] + ttl
  }

  ghost function After(g: System, a: Step, ttl: Time): System
    requires Enabled(g, a, ttl)
  {
    match a
    case Enter(w, key, member) =>
      g.(workers := g.workers[w := g.workers[w].(held := g.workers[w].held[key := g.now])],
         st := AfterAdd(g.st, key, w, member, g.now, ttl), shown := g.shown[key := member])
    case Expire(w, key) =>
      g.(workers := g.workers[w := g.workers[w].(held := g.workers[w].held - {key})],
          st := AfterRemove(g.st, key, w, g.now))
    case Heartbeat(w, entries) =>
      var held := g.workers[w].held;
      g.(workers := g.workers[w := g.workers[w].(held := map k | k in held :: if k in entries then g.now else held[k])],
         st := AfterRefresh(g.st, entries, w, g.now, ttl))
    case Query(room) => g.(st := AfterMembers(g.st, room, g.now))
    case Crash(w) => g.(workers := g.workers[w := g.workers[w].(alive := false)])
    case Pass(to) => g.(now := to)
  }

  ghost function Exec(n: nat, run: seq<Step>, ttl: Time): Option<System> {
    if run == [] then Some(System(0, seq(n, _ => Worker(true, map[])), map[], map[]))
    else
      var mid := Exec(n, run[..|run| - 1], ttl);
      var a := run[|run| - 1];
      if mid.Some? && Enabled(mid.value, a, ttl) then Some(After(mid.value, a, ttl)) else None
  }

  // ---- the invariant --------------------------------------------------------------------------

  /** Held and refreshed under one ttl ago, by worker `w`. */
  ghost predicate Current(ws: seq<Worker>, now: Time, ttl: Time, w: nat, key: Key) {
    w < |ws| && key in ws[w].held && now < ws[w].held[key] + ttl
  }

  /** A current holding is live in the store, with its payload, and neither key is about to go. */
  ghost predicate Stored(st: Store, shown: map<Key, Payload>, ttl: Time, w: nat, key: Key, at: Time) {
    var k := Raw(st, key.room);
    && Tag(key.user, w) in k.live && k.live[Tag(key.user, w)] == at + ttl
    && key.user in k.payloads && key in shown && k.payloads[key.user] == shown[key]
    && at + 4 * ttl <= k.liveUntil && at + 4 * ttl <= k.payloadsUntil
  }

  /** An unexpired tag in a living key stands for a current holding. */
  ghost predicate Backed(st: Store, ws: seq<Worker>, now: Time, ttl: Time, room: Room, t: Tag) {
    var k := Raw(st, room);
    t in k.live && now < k.live[t] && now < k.liveUntil ==>
      && t.worker < |ws| && Key(room, t.user) in ws[t.worker].held
      && k.live[t] == ws[t.worker].held[Key(room, t.user)] + ttl
  }

  ghost predicate Inv(g: System, ttl: Time) {
    && (forall w: nat, key | Current(g.workers, g.now, ttl, w, key) ::
        Stored(g.st, g.shown, ttl, w, key, g.workers[w].held[key]))
    && (forall room, t :: Backed(g.st, g.workers, g.now, ttl, room, t))
    && (forall w, key | 0 <= w < |g.workers| && key in g.workers[w].held ::
          g.workers[w].held[key] <= g.now && (g.workers[w].alive ==> g.now < g.workers[w].held[key] + ttl))
  }

  lemma EnterKeepsInv(g: System, a: Step, ttl: Time)
    requires Inv(g, ttl) && ttl > 0 && a.Enter? && Enabled(g, a, ttl)
    ensures Inv(After(g, a, ttl), ttl)
  {
    var g' := After(g, a, ttl);
    forall w: nat, key | Current(g'.workers, g'.now, ttl, w, key)
        ensures Stored(g'.st, g'.shown, ttl, w, key, g'.workers[w].held[key]) {
      if w != a.w || key != a.key {
        assert Current(g.workers, g.now, ttl, w, key);
      }
    }
    forall room, t ensures Backed(g'.st, g'.workers, g'.now, ttl, room, t) {
      assert Backed(g.st, g.workers, g.now, ttl, room, t);
    }
  }

  lemma ExpireKeepsInv(g: System, a: Step, ttl: Time)
    requires Inv(g, ttl) && ttl > 0 && a.Expire? && Enabled(g, a, ttl)
    ensures Inv(After(g, a, ttl), ttl)
  {
    var g' := After(g, a, ttl);
    var k' := Raw(g'.st, a.key.room);
    forall w: nat, key | Current(g'.workers, g'.now, ttl, w, key)
        ensures Stored(g'.st, g'.shown, ttl, w, key, g'.workers[w].held[key]) {
      assert Current(g.workers, g.now, ttl, w, key);
      assert Stored(g.st, g.shown, ttl, w, key, g.workers[w].held[key]);
      if key.room == a.key.room {
        assert Tag(key.user, w) in k'.live;
      }
    }
    forall room, t ensures Backed(g'.st, g'.workers, g'.now, ttl, room, t) {
      assert Backed(g.st, g.workers, g.now, ttl, room, t);
    }
  }

  lemma QueryKeepsInv(g: System, a: Step, ttl: Time)
    requires Inv(g, ttl) && ttl > 0 && a.Query?
    ensures Inv(After(g, a, ttl), ttl)
  {
    var g' := After(g, a, ttl);
    var k' := Raw(g'.st, a.room);
    forall w: nat, key | Current(g'.workers, g'.now, ttl, w, key)
        ensures Stored(g'.st, g'.shown, ttl, w, key, g'.workers[w].held[key]) {
      assert Stored(g.st, g.shown, ttl, w, key, g.workers[w].held[key]);
      if key.room == a.room {
        assert Tag(key.user, w) in k'.live;
      }
    }
    forall room, t ensures Backed(g'.st, g'.workers, g'.now, ttl, room, t) {
      assert Backed(g.st, g.workers, g.now, ttl, room, t);
    }
  }

  /** One entry of a refresh. */
  ghost function Touched(g: System, key: Key, w: nat, ttl: Time): System
    requires w < |g.workers|
  {
    g.(st := AfterTouch(g.st, key, w, g.now, ttl),
       workers := g.workers[w := g.workers[w].(held := g.workers[w].held[key := g.now])])
  }

  lemma TouchKeepsInv(g: System, key: Key, w: nat, ttl: Time)
    requires Inv(g, ttl) && ttl > 0 && w < |g.workers| && g.workers[w].alive && key in g.workers[w].held
    ensures Inv(Touched(g, key, w, ttl), ttl)
  {
    var g' := Touched(g, key, w, ttl);
    assert Current(g.workers, g.now, ttl, w, key);
    forall v: nat, k | Current(g'.workers, g'.now, ttl, v, k)
        ensures Stored(g'.st, g'.shown, ttl, v, k, g'.workers[v].held[k]) {
      assert Current(g.workers, g.now, ttl, v, k);
      assert Stored(g.st, g.shown, ttl, v, k, g.workers[v].held[k]);
    }
    forall room, t ensures Backed(g'.st, g'.workers, g'.now, ttl, room, t) {
      assert Backed(g.st, g.workers, g.now, ttl, room, t);
    }
  }

  /** A refresh of some of what a worker holds, entry by entry. */
  ghost function TouchedAll(g: System, entries: seq<Key>, w: nat, ttl: Time): (g': System)
    requires w < |g.workers|
    ensures |g'.workers| == |g.workers|
  {
    if entries == [] then g
    else Touched(TouchedAll(g, entries[..|entries| - 1], w, ttl), entries[|entries| - 1], w, ttl)
  }

  lemma {:induction false} TouchedAllMeaning(g: System, entries: seq<Key>, w: nat, ttl: Time)
    requires w < |g.workers| && forall k | k in entries :: k in g.workers[w].held
    ensures var g' := TouchedAll(g, entries, w, ttl);
            && g'.st == AfterRefresh(g.st, entries, w, g.now, ttl) && g'.now == g.now && g'.shown == g.shown
            && g'.workers == g.workers[w := g'.workers[w]] && g'.workers[w].alive == g.workers[w].alive
            && g'.workers[w].held ==
                 map k | k in g.workers[w].held :: if k in entries then g.now else g.workers[w].held[k]
  {
    if entries != [] {
      var front, last := entries[..|entries| - 1], entries[|entries| - 1];
      assert forall k :: k in entries <==> k in front || k == last by { assert entries == front + [last]; }
      TouchedAllMeaning(g, front, w, ttl);
    }
  }

  lemma {:induction false} RefreshKeepsInv(g: System, entries: seq<Key>, w: nat, ttl: Time)
    requires Inv(g, ttl) && ttl > 0 && w < |g.workers| && g.workers[w].alive
    requires forall k | k in entries :: k in g.workers[w].held
    ensures Inv(TouchedAll(g, entries, w, ttl), ttl)
  {
    if entries != [] {
      RefreshKeepsInv(g, entries[..|entries| - 1], w, ttl);
      TouchedAllMeaning(g, entries[..|entries| - 1], w, ttl);
      TouchKeepsInv(TouchedAll(g, entries[..|entries| - 1], w, ttl), entries[|entries| - 1], w, ttl);
    }
  }

  lemma StepKeepsInv(g: System, a: Step, ttl: Time)
    requires Inv(g, ttl) && ttl > 0 && Enabled(g, a, ttl)
    ensures Inv(After(g, a, ttl), ttl)
  {
    match a {
      case Enter(_, _, _) => EnterKeepsInv(g, a, ttl);
      case Expire(_, _) => ExpireKeepsInv(g, a, ttl);
      case Query(_) => QueryKeepsInv(g, a, ttl);
      case Heartbeat(w, entries) =>
        RefreshKeepsInv(g, entries, w, ttl);
        TouchedAllMeaning(g, entries, w, ttl);
        assert TouchedAll(g, entries, w, ttl).workers[w].held == After(g, a, ttl).workers[w].held;
        assert TouchedAll(g, entries, w, ttl) == After(g, a, ttl);
      case Crash(w) => WaitKeepsInv(g, After(g, a, ttl), ttl);
      case Pass(_) => WaitKeepsInv(g, After(g, a, ttl), ttl);
    }
  }

  /** Time passing and crashes change no holding. */
  lemma WaitKeepsInv(g: System, g': System, ttl: Time)
    requires Inv(g, ttl) && g.now <= g'.now && g'.st == g.st && g'.shown == g.shown && |g'.workers| == |g.workers|
    requires forall w | 0 <= w < |g.workers| :: g'.workers[w].held == g.workers[w].held
    requires forall w, key | 0 <= w < |g'.workers| && g'.workers[w].alive && key in g'.workers[w].held ::
               g'.now < g'.workers[w].held[key] + ttl
    ensures Inv(g', ttl)
  {
    forall w: nat, key | Current(g'.workers, g'.now, ttl, w, key)
        ensures Stored(g'.st, g'.shown, ttl, w, key, g'.workers[w].held[key]) {
      assert Current(g.workers, g.now, ttl, w, key);
    }
    forall room, t ensures Backed(g'.st, g'.workers, g'.now, ttl, room, t) {
      assert Backed(g.st, g.workers, g.now, ttl, room, t);
    }
  }

  lemma {:induction false} RunKeepsInv(n: nat, run: seq<Step>, ttl: Time)
    requires Exec(n, run, ttl).Some? && ttl > 0
    ensures Inv(Exec(n, run, ttl).value, ttl)
  {
    if run != [] {
      RunKeepsInv(n, run[..|run| - 1], ttl);
      StepKeepsInv(Exec(n, run[..|run| - 1], ttl).value, run[|run| - 1], ttl);
    }
  }

  /** The computed list of a room is exactly the users some running worker holds there, plus those a
      crashed worker last refreshed under one ttl ago, each with the payload last added. */
  lemma MembersByInv(g: System, ttl: Time, room: Room, user: UserId)
    requires Inv(g, ttl)
    ensures user in Members(g.st, room, g.now) <==>
              exists w :: 0 <= w < |g.workers| && Key(room, user) in g.workers[w].held
                          && (g.workers[w].alive || g.now < g.workers[w].held[Key(room, user)] + ttl)
    ensures user in Members(g.st, room, g.now) ==>
              Key(room, user) in g.shown && Members(g.st, room, g.now)[user] == g.shown[Key(room, user)]
  {
    var live := Prune(Fetch(g.st, room, g.now).live, g.now);
    if user in Members(g.st, room, g.now) {
      var t :| t in live && t.user == user;
      assert Backed(g.st, g.workers, g.now, ttl, room, t);
      assert Current(g.workers, g.now, ttl, t.worker, Key(room, user));
    }
    if w :| 0 <= w < |g.workers| && Key(room, user) in g.workers[w].held
            && (g.workers[w].alive || g.now < g.workers[w].held[Key(room, user)] + ttl) {
      assert Current(g.workers, g.now, ttl, w, Key(room, user));
      assert Stored(g.st, g.shown, ttl, w, Key(room, user), g.workers[w].held[Key(room, user)]);
      assert Tag(user, w) in live;
    }
  }

  /** So it is in every run. */
  lemma MembersAreTheHeldUsers(n: nat, run: seq<Step>, ttl: Time, room: Room, user: UserId)
    requires Exec(n, run, ttl).Some? && ttl > 0
    ensures var g := Exec(n, run, ttl).value;
            && (user in Members(g.st, room, g.now) <==>
                exists w :: 0 <= w < |g.workers| && Key(room, user) in g.workers[w].held
                            && (g.workers[w].alive || g.now < g.workers[w].held[Key(room, user)] + ttl))
            && (user in Members(g.st, room, g.now) ==>
                Key(room, user) in g.shown && Members(g.st, room, g.now)[user] == g.shown[Key(room, user)])
  {
    RunKeepsInv(n, run, ttl);
    MembersByInv(Exec(n, run, ttl).value, ttl, room, user);
  }

  /** A crashed worker's users leave every list within one ttl of its last refresh, unless some
      other worker holds them. */
  lemma CrashedWorkersUsersVanish(n: nat, run: seq<Step>, ttl: Time, room: Room, user: UserId)
    requires Exec(n, run, ttl).Some? && ttl > 0
    requires var g := Exec(n, run, ttl).value;
             forall w | 0 <= w < |g.workers| && Key(room, user) in g.workers[w].held ::
               !g.workers[w].alive && g.workers[w].held[Key(room, user)] + ttl <= g.now
    ensures var g := Exec(n, run, ttl).value; user !in Members(g.st, room, g.now)
  {
    MembersAreTheHeldUsers(n, run, ttl, room, user);
  }

  /** Computing a list heals its room: the payloads left are exactly those listed, and the next list,
      at the same moment, is the same. */
  lemma QueryHeals(st: Store, room: Room, now: Time)
    ensures var k := Fetch(AfterMembers(st, room, now), room, now);
            && k.payloads == Members(st, room, now)
            && LiveUsers(k.live) >= k.payloads.Keys
            && Members(AfterMembers(st, room, now), room, now) == Members(st, room, now)
  {
    var k := Fetch(st, room, now);
    assert now >= k.payloadsUntil ==> Members(st, room, now) == map[];
    assert Prune(Prune(k.live, now), now) == Prune(k.live, now);
  }
}
