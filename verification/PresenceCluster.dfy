/** The workers' local presence over the shared store, with an await between a local update and its
    store call: calls are issued at once and reach the store later, in any order between workers,
    rooms and users, but for one worker, room and user in the order they were issued. */
module PresenceCluster {
  import opened Options
  import L = PresenceLocal
  import S = PresenceStore

  type Key = L.Key
  type Time = nat

  datatype Call =
    | Add(key: Key, member: S.Payload)
    | Refresh(entries: seq<Key>)  // the heartbeat's snapshot of what is listed
    | Remove(key: Key)

  datatype Node = Node(local: L.State, pending: seq<Call>)

  /** `shared` is the store, the clock, and what each worker has told the store. */
  datatype Cluster = Cluster(shared: S.System, nodes: seq<Node>)

  datatype Step =
    | Join(w: nat, key: Key, s: L.Socket, member: S.Payload)
    | Leave(w: nat, key: Key, s: L.Socket)
    | Fire(w: nat, key: Key)                // a due removal
    | Beat(w: nat, entries: seq<Key>)       // the heartbeat collects its entries
    | Reach(w: nat, n: nat)                 // a pending call reaches the store
    | Query(room: L.Room)
    | Crash(w: nat)                         // pending calls are lost
    | Pass(to: Time)

  function Touches(c: Call): set<Key> {
    match c
    case Add(key, _) => {key}
    case Refresh(entries) => set k | k in entries
    case Remove(key) => {key}
  }

  /** No earlier call of this worker is about a key the `n`th is about. */
  predicate InOrder(pending: seq<Call>, n: nat)
    requires n < |pending|
  {
    forall m | 0 <= m < n :: Touches(pending[m]) !! Touches(pending[n])
  }

  ghost predicate Up(g: Cluster, w: nat) {
    w < |g.nodes| && w < |g.shared.workers| && g.shared.workers[w].alive
  }

  /** `ordered` says whether a worker's calls about one key reach the store in order. */
  ghost predicate Enabled(g: Cluster, a: Step, ttl: Time, ordered: bool) {
    match a
    case Join(w, _, _, _) => Up(g, w)
    case Leave(w, key, s) => Up(g, w) && L.Enabled(g.nodes[w].local, L.Leave(key, s))
    case Fire(w, key) => Up(g, w) && L.Enabled(g.nodes[w].local, L.Fire(key))
    case Beat(w, entries) => Up(g, w) && forall k :: k in entries <==> L.Listed(g.nodes[w].local.l, k)
    case Reach(w, n) => Up(g, w) && n < |g.nodes[w].pending| && (ordered ==> InOrder(g.nodes[w].pending, n))
    case Query(_) => true
    case Crash(w) => w < |g.nodes| && w < |g.shared.workers|
    case Pass(to) => S.Enabled(g.shared, S.Pass(to), ttl) && forall w: nat | Up(g, w) ::
        L.Enabled(g.nodes[w].local, L.Tick(to))
  }

  /** What a call does when it reaches the store. */
  ghost function Told(g: S.System, w: nat, c: Call, ttl: Time): S.System
    requires w < |g.workers|
  {
    var held := g.workers[w].held;
    match c
    case Add(key, member) =>
      g.(workers := g.workers[w := g.workers[w].(held := held[key := g.now])],
         st := S.AfterAdd(g.st, key, w, member, g.now, ttl), shown := g.shown[key := member])
    case Refresh(entries) =>
      g.(workers := g.workers[w := g.workers[w].(held := map k | k in held :: if k in entries then g.now else held[k])],
         st := S.AfterRefresh(g.st, entries, w, g.now, ttl))
    case Remove(key) =>
      g.(workers := g.workers[w := g.workers[w].(held := held - {key})], st := S.AfterRemove(g.st, key, w, g.now))
  }

  ghost function Local(g: Cluster, w: nat, a: L.Step, grace: Time, calls: seq<Call>): Cluster
    requires w < |g.nodes|
  {
    g.(nodes := g.nodes[w := Node(L.After(g.nodes[w].local, a, grace), g.nodes[w].pending + calls)])
  }

  function Without(pending: seq<Call>, n: nat): seq<Call>
    requires n < |pending|
  {
    pending[..n] + pending[n + 1..]
  }

  ghost function After(g: Cluster, a: Step, ttl: Time, grace: Time): Cluster
    requires Enabled(g, a, ttl, false)
  {
    match a
    case Join(w, key, s, member) => Local(g, w, L.Join(key, s), grace, [Add(key, member)])
    case Leave(w, key, s) => Local(g, w, L.Leave(key, s), grace, [])
    case Fire(w, key) =>
      var l := g.nodes[w].local.l;
      Local(g, w, L.Fire(key), grace, if L.Listed(l, key) && L.Sockets(l, key) == {} then [Remove(key)] else [])
    case Beat(w, entries) => g.(nodes := g.nodes[w := g.nodes[w].(pending := g.nodes[w].pending + [Refresh(entries)])])
    case Reach(w, n) =>
      Cluster(Told(g.shared, w, g.nodes[w].pending[n], ttl),
          g.nodes[w := g.nodes[w].(pending := Without(g.nodes[w].pending, n))])
    case Query(room) => g.(shared := S.After(g.shared, S.Query(room), ttl))
    case Crash(w) => Cluster(S.After(g.shared, S.Crash(w), ttl), g.nodes[w := g.nodes[w].(pending := [])])
    case Pass(to) =>
      Cluster(S.After(g.shared, S.Pass(to), ttl),
              seq(|g.nodes|, w requires 0 <= w < |g.nodes| =>
                if Up(g, w) then g.nodes[w].(local := L.After(g.nodes[w].local, L.Tick(to), grace)) else g.nodes[w]))
  }

  const START := L.State(L.Local(map[], map[]), 0, {}, map[])

  ghost function Fresh(n: nat): Cluster {
    Cluster(S.System(0, seq(n, _ => S.Worker(true, map[])), map[], map[]), seq(n, _ => Node(START, [])))
  }

  ghost function ExecFrom(g: Cluster, run: seq<Step>, ttl: Time, grace: Time, ordered: bool): Option<Cluster> {
    if run == [] then Some(g)
    else
      var mid := ExecFrom(g, run[..|run| - 1], ttl, grace, ordered);
      var a := run[|run| - 1];
      if mid.Some? && Enabled(mid.value, a, ttl, ordered) then Some(After(mid.value, a, ttl, grace)) else None
  }

  ghost function Exec(n: nat, run: seq<Step>, ttl: Time, grace: Time, ordered: bool): Option<Cluster> {
    ExecFrom(Fresh(n), run, ttl, grace, ordered)
  }

  // ---- what is pending ------------------------------------------------------------------------

  /** What a call leaves of the store's belief that the worker lists the key; None is a call that
      presumes it and comes when the store does not believe it. */
  function Effect(told: Option<bool>, c: Call, k: Key): Option<bool> {
    if told.None? || k !in Touches(c) then told
    else match c
         case Add(_, _) => Some(true)
         case Refresh(_) => if told.value then told else None
         case Remove(_) => if told.value then Some(false) else None
  }

  /** The belief once all pending calls have come, in order. */
  function Belief(told: bool, pending: seq<Call>, k: Key): Option<bool> {
    if pending == [] then Some(told) else Effect(Belief(told, pending[..|pending| - 1], k), pending[|pending| - 1], k)
  }

  lemma BeliefSnoc(told: bool, pending: seq<Call>, c: Call, k: Key)
    ensures Belief(told, pending + [c], k) == Effect(Belief(told, pending, k), c, k)
  {
    assert (pending + [c])[..|pending + [c]| - 1] == pending;
  }

  lemma {:induction false} UntouchedBelief(told: bool, pending: seq<Call>, k: Key)
    requires forall m | 0 <= m < |pending| :: k !in Touches(pending[m])
    ensures Belief(told, pending, k) == Some(told)
  {
    if pending != [] {
      UntouchedBelief(told, pending[..|pending| - 1], k);
    }
  }

  /** Taking the `n`th call out of turn is the same to a key no earlier call is about. */
  lemma {:induction false} BeliefWithout(told: bool, pending: seq<Call>, n: nat, k: Key)
    requires n < |pending| && (k in Touches(pending[n]) ==> forall m | 0 <= m < n :: k !in Touches(pending[m]))
    ensures var after := Effect(Some(told), pending[n], k);
            Belief(told, pending, k) == if after.None? then None else Belief(after.value, Without(pending, n), k)
  {
    var front, last := pending[..|pending| - 1], pending[|pending| - 1];
    if n == |pending| - 1 {
      assert Without(pending, n) == front;
      if k in Touches(last) {
        UntouchedBelief(told, front, k);
        var after := Effect(Some(told), last, k);
        if after.Some? {
          UntouchedBelief(after.value, front, k);
        }
      }
    } else {
      BeliefWithout(told, front, n, k);
      assert Without(pending, n) == Without(front, n) + [last];
      var after := Effect(Some(told), pending[n], k);
      if after.Some? {
        BeliefSnoc(after.value, Without(front, n), last, k);
      }
    }
  }

  // ---- the invariant --------------------------------------------------------------------------

  ghost predicate Believed(told: map<Key, Time>, pending: seq<Call>, l: L.Local, k: Key) {
    Belief(k in told, pending, k) == Some(L.Listed(l, k))
  }

  ghost predicate NodeOk(x: Node, told: map<Key, Time>, now: Time, grace: Time) {
    L.Inv(x.local, grace) && x.local.now == now && forall k :: Believed(told, x.pending, x.local.l, k)
  }

  ghost predicate Inv(g: Cluster, ttl: Time, grace: Time) {
    S.Inv(g.shared, ttl) && |g.nodes| == |g.shared.workers|
    && forall w | 0 <= w < |g.nodes| && g.shared.workers[w].alive ::
         NodeOk(g.nodes[w], g.shared.workers[w].held, g.shared.now, grace)
  }

  lemma JoinKeepsNode(x: Node, told: map<Key, Time>, now: Time, grace: Time, key: Key, s: L.Socket, member: S.Payload)
    requires NodeOk(x, told, now, grace)
    ensures NodeOk(Node(L.After(x.local, L.Join(key, s), grace), x.pending + [Add(key, member)]), told, now, grace)
  {
    L.StepKeepsInv(x.local, L.Join(key, s), grace);
    L.JoinKeepsTidy(x.local.l, key, s);
    forall k ensures Believed(told, x.pending + [Add(key, member)], L.AfterJoin(x.local.l, key, s), k) {
      assert Believed(told, x.pending, x.local.l, k);
      BeliefSnoc(k in told, x.pending, Add(key, member), k);
    }
  }

  lemma LeaveKeepsNode(x: Node, told: map<Key, Time>, now: Time, grace: Time, key: Key, s: L.Socket)
    requires NodeOk(x, told, now, grace) && L.Enabled(x.local, L.Leave(key, s))
    ensures NodeOk(Node(L.After(x.local, L.Leave(key, s), grace), x.pending + []), told, now, grace)
  {
    L.StepKeepsInv(x.local, L.Leave(key, s), grace);
    L.LeaveKeepsTidy(x.local.l, key, s, x.local.now, grace);
    assert x.pending + [] == x.pending;
    forall k ensures Believed(told, x.pending, L.AfterLeave(x.local.l, key, s, x.local.now, grace), k) {
      assert Believed(told, x.pending, x.local.l, k);
    }
  }

  lemma FireFindsNoSocket(x: Node, told: map<Key, Time>, now: Time, grace: Time, key: Key)
    requires NodeOk(x, told, now, grace) && L.Enabled(x.local, L.Fire(key))
    ensures L.Listed(x.local.l, key) && L.Sockets(x.local.l, key) == {}
  {
  }

  lemma FireKeepsNode(x: Node, told: map<Key, Time>, now: Time, grace: Time, key: Key)
    requires NodeOk(x, told, now, grace) && L.Enabled(x.local, L.Fire(key)) && L.Listed(x.local.l, key)
    ensures NodeOk(Node(L.After(x.local, L.Fire(key), grace), x.pending + [Remove(key)]), told, now, grace)
  {
    var local := L.After(x.local, L.Fire(key), grace);
    L.StepKeepsInv(x.local, L.Fire(key), grace);
    L.ExpireKeepsTidy(x.local.l, key);
    forall k ensures Believed(told, x.pending + [Remove(key)], local.l, k) {
      assert Believed(told, x.pending, x.local.l, k);
      ExpiredBelief(told, x.pending, x.local.l, key, local.l, k);
    }
  }

  lemma ExpiredBelief(told: map<Key, Time>, pending: seq<Call>, l: L.Local, key: Key, l': L.Local, k: Key)
    requires Believed(told, pending, l, k) && L.Listed(l, key) && (L.Listed(l', k) <==> L.Listed(l, k) && k != key)
    ensures Believed(told, pending + [Remove(key)], l', k)
  {
    BeliefSnoc(k in told, pending, Remove(key), k);
  }

  lemma BeatKeepsNode(x: Node, told: map<Key, Time>, now: Time, grace: Time, entries: seq<Key>)
    requires NodeOk(x, told, now, grace) && forall k :: k in entries <==> L.Listed(x.local.l, k)
    ensures NodeOk(x.(pending := x.pending + [Refresh(entries)]), told, now, grace)
  {
    forall k ensures Believed(told, x.pending + [Refresh(entries)], x.local.l, k) {
      assert Believed(told, x.pending, x.local.l, k);
      BeliefSnoc(k in told, x.pending, Refresh(entries), k);
    }
  }

  function StepOf(w: nat, c: Call): S.Step {
    match c
    case Add(key, member) => S.Enter(w, key, member)
    case Refresh(entries) => S.Heartbeat(w, entries)
    case Remove(key) => S.Expire(w, key)
  }

  /** A call that comes in order is a step of the store's machine. */
  lemma ReachIsAStep(g: S.System, w: nat, x: Node, n: nat, ttl: Time, grace: Time)
    requires w < |g.workers| && g.workers[w].alive && NodeOk(x, g.workers[w].held, g.now, grace)
    requires n < |x.pending| && InOrder(x.pending, n)
    ensures S.Enabled(g, StepOf(w, x.pending[n]), ttl)
              && Told(g, w, x.pending[n], ttl) == S.After(g, StepOf(w, x.pending[n]), ttl)
  {
    var c := x.pending[n];
    forall k | k in Touches(c) && !c.Add? ensures k in g.workers[w].held {
      assert Believed(g.workers[w].held, x.pending, x.local.l, k);
      BeliefWithout(k in g.workers[w].held, x.pending, n, k);
    }
    if c.Refresh? {
      forall k | k in c.entries ensures k in g.workers[w].held {
        assert k in Touches(c);
      }
    }
  }

  lemma ReachKeepsNode(g: S.System, w: nat, x: Node, n: nat, ttl: Time, grace: Time)
    requires w < |g.workers| && g.workers[w].alive && NodeOk(x, g.workers[w].held, g.now, grace)
    requires n < |x.pending| && InOrder(x.pending, n)
    ensures NodeOk(x.(pending := Without(x.pending, n)), Told(g, w, x.pending[n], ttl).workers[w].held, g.now, grace)
  {
    var held, held' := g.workers[w].held, Told(g, w, x.pending[n], ttl).workers[w].held;
    forall k ensures Believed(held', Without(x.pending, n), x.local.l, k) {
      assert Believed(held, x.pending, x.local.l, k);
      BeliefWithout(k in held, x.pending, n, k);
    }
  }

  lemma ReachKeepsInv(g: Cluster, a: Step, ttl: Time, grace: Time)
    requires Inv(g, ttl, grace) && ttl > 0 && a.Reach? && Enabled(g, a, ttl, true)
    ensures Inv(After(g, a, ttl, grace), ttl, grace)
  {
    ReachIsAStep(g.shared, a.w, g.nodes[a.w], a.n, ttl, grace);
    ReachKeepsNode(g.shared, a.w, g.nodes[a.w], a.n, ttl, grace);
    S.StepKeepsInv(g.shared, StepOf(a.w, g.nodes[a.w].pending[a.n]), ttl);
  }

  lemma PassKeepsInv(g: Cluster, a: Step, ttl: Time, grace: Time)
    requires Inv(g, ttl, grace) && ttl > 0 && a.Pass? && Enabled(g, a, ttl, true)
    ensures Inv(After(g, a, ttl, grace), ttl, grace)
  {
    S.StepKeepsInv(g.shared, S.Pass(a.to), ttl);
    forall w | 0 <= w < |g.nodes| && g.shared.workers[w].alive
      ensures NodeOk(After(g, a, ttl, grace).nodes[w], g.shared.workers[w].held, a.to, grace)
    {
      var x := g.nodes[w];
      assert Up(g, w);
      L.StepKeepsInv(x.local, L.Tick(a.to), grace);
      forall k ensures Believed(g.shared.workers[w].held, x.pending, x.local.l, k) {}
    }
  }

  lemma StepKeepsInv(g: Cluster, a: Step, ttl: Time, grace: Time)
    requires Inv(g, ttl, grace) && ttl > 0 && Enabled(g, a, ttl, true)
    ensures Inv(After(g, a, ttl, grace), ttl, grace)
  {
    match a {
      case Join(w, key, s, member) =>
          JoinKeepsNode(g.nodes[w], g.shared.workers[w].held, g.shared.now, grace, key, s, member);
      case Leave(w, key, s) => LeaveKeepsNode(g.nodes[w], g.shared.workers[w].held, g.shared.now, grace, key, s);
      case Fire(w, key) =>
        FireFindsNoSocket(g.nodes[w], g.shared.workers[w].held, g.shared.now, grace, key);
        FireKeepsNode(g.nodes[w], g.shared.workers[w].held, g.shared.now, grace, key);
      case Beat(w, entries) => BeatKeepsNode(g.nodes[w], g.shared.workers[w].held, g.shared.now, grace, entries);
      case Reach(_, _) => ReachKeepsInv(g, a, ttl, grace);
      case Query(room) => S.StepKeepsInv(g.shared, S.Query(room), ttl);
      case Crash(w) => S.StepKeepsInv(g.shared, S.Crash(w), ttl);
      case Pass(_) => PassKeepsInv(g, a, ttl, grace);
    }
  }

  lemma FreshOk(n: nat, ttl: Time, grace: Time)
    ensures Inv(Fresh(n), ttl, grace)
  {
    assert forall k :: Believed(map[], [], START.l, k);
  }

  lemma {:induction false} RunKeepsInv(n: nat, run: seq<Step>, ttl: Time, grace: Time)
    requires Exec(n, run, ttl, grace, true).Some? && ttl > 0
    ensures Inv(Exec(n, run, ttl, grace, true).value, ttl, grace)
  {
    if run == [] {
      FreshOk(n, ttl, grace);
    } else {
      RunKeepsInv(n, run[..|run| - 1], ttl, grace);
      StepKeepsInv(Exec(n, run[..|run| - 1], ttl, grace, true).value, run[|run| - 1], ttl, grace);
    }
  }

  // ---- who is shown ---------------------------------------------------------------------------

  /** Nothing about the key is on its way or due on a running worker. */
  ghost predicate Settled(g: Cluster, k: Key) {
    forall w: nat | Up(g, w) ::
      (forall m | 0 <= m < |g.nodes[w].pending| :: k !in Touches(g.nodes[w].pending[m]))
      && !(k in g.nodes[w].local.l.timers && g.nodes[w].local.l.timers[k] <= g.shared.now)
  }

  /** The user has a presence socket open on the worker, or closed the last one under `grace` ago. */
  ghost predicate Present(x: L.State, k: Key, grace: Time) {
    L.Holds(x.held, k) || (k in x.leftAt && x.now < x.leftAt[k] + grace)
  }

  /** A crashed worker reported the user to the store under one ttl ago. */
  ghost predicate Lingers(g: Cluster, k: Key, w: nat, ttl: Time) {
    w < |g.shared.workers| && !g.shared.workers[w].alive && k in g.shared.workers[w].held
    && g.shared.now < g.shared.workers[w].held[k] + ttl
  }

  /** In every run, when nothing about a room and user is under way: the user is in the list exactly
      when they have a presence socket there on a running worker, or closed their last one on it
      less than the grace period ago, or a crashed worker reported them under one ttl ago. */
  lemma ShownIffPresent(n: nat, run: seq<Step>, ttl: Time, grace: Time, room: L.Room, user: L.UserId)
    requires Exec(n, run, ttl, grace, true).Some? && ttl > 0
    requires Settled(Exec(n, run, ttl, grace, true).value, L.Key(room, user))
    ensures var g := Exec(n, run, ttl, grace, true).value;
            var k := L.Key(room, user);
            user in S.Members(g.shared.st, room, g.shared.now) <==>
              (exists w: nat :: Up(g, w) && Present(g.nodes[w].local, k, grace))
              || exists w: nat :: Lingers(g, k, w, ttl)
  {
    RunKeepsInv(n, run, ttl, grace);
    ShownByInv(Exec(n, run, ttl, grace, true).value, ttl, grace, room, user);
  }

  lemma ToldIffPresent(g: Cluster, ttl: Time, grace: Time, k: Key, w: nat)
    requires Inv(g, ttl, grace) && Settled(g, k) && Up(g, w)
    ensures k in g.shared.workers[w].held <==> Present(g.nodes[w].local, k, grace)
  {
    var x := g.nodes[w];
    assert Believed(g.shared.workers[w].held, x.pending, x.local.l, k);
    UntouchedBelief(k in g.shared.workers[w].held, x.pending, k);
    L.ListedByInv(x.local, grace, k);
  }

  lemma ShownByInv(g: Cluster, ttl: Time, grace: Time, room: L.Room, user: L.UserId)
    requires Inv(g, ttl, grace) && Settled(g, L.Key(room, user))
    ensures user in S.Members(g.shared.st, room, g.shared.now) <==>
              (exists w: nat :: Up(g, w) && Present(g.nodes[w].local, L.Key(room, user), grace))
              || exists w: nat :: Lingers(g, L.Key(room, user), w, ttl)
  {
    var k := L.Key(room, user);
    S.MembersByInv(g.shared, ttl, room, user);
    forall w: nat | Up(g, w) ensures k in g.shared.workers[w].held <==> Present(g.nodes[w].local, k, grace) {
      ToldIffPresent(g, ttl, grace, k, w);
    }
    if w :| 0 <= w < |g.shared.workers| && k in g.shared.workers[w].held
            && (g.shared.workers[w].alive || g.shared.now < g.shared.workers[w].held[k] + ttl) {
      assert Up(g, w) || Lingers(g, k, w, ttl);
    }
    if w: nat :| Lingers(g, k, w, ttl) {
      assert k in g.shared.workers[w].held;
    }
  }

  // ---- why the order matters ------------------------------------------------------------------

  /** A removal that reaches the store after the rejoin issued behind it: nothing is pending any
      more, and the user, who is listed on the worker, is hidden from everyone. */
  lemma OvertakenRemoveHides(g: Cluster, w: nat, k: Key, member: S.Payload, ttl: Time, grace: Time)
    requires Up(g, w) && g.nodes[w].pending == [Remove(k), Add(k, member)]
    requires forall t | t in S.Raw(g.shared.st, k.room).live && t.user == k.user :: t.worker == w
    ensures Enabled(g, Reach(w, 1), ttl, false) && Enabled(After(g, Reach(w, 1), ttl, grace), Reach(w, 0), ttl, false)
    ensures var g' := After(After(g, Reach(w, 1), ttl, grace), Reach(w, 0), ttl, grace);
            && g'.nodes[w] == g.nodes[w].(pending := []) && Up(g', w)
            && Hidden(g', k) && k.user !in S.Members(g'.shared.st, k.room, g'.shared.now)
  {
    var g1 := After(g, Reach(w, 1), ttl, grace);
    assert g1.nodes[w].pending == [Remove(k)];
    var g2 := After(g1, Reach(w, 0), ttl, grace);
    assert g2.nodes[w].pending == [];
    var live := S.Fetch(g2.shared.st, k.room, g2.shared.now).live;
    assert S.Tag(k.user, w) !in live;
    assert forall t | t in live && t.user == k.user :: t == S.Tag(k.user, w);
  }

  /** A new cluster of one worker comes to this state when calls may overtake each other. */
  ghost predicate Reachable(g: Cluster, ttl: Time, grace: Time) {
    exists run :: Exec(1, run, ttl, grace, false) == Some(g)
  }

  lemma ReachableStep(g: Cluster, a: Step, ttl: Time, grace: Time)
    requires Reachable(g, ttl, grace) && Enabled(g, a, ttl, false)
    ensures Reachable(After(g, a, ttl, grace), ttl, grace)
  {
    var run :| Exec(1, run, ttl, grace, false) == Some(g);
    assert (run + [a])[..|run + [a]| - 1] == run;
    assert Exec(1, run + [a], ttl, grace, false) == Some(After(g, a, ttl, grace));
  }

  const K := L.Key(L.Room("note", "n"), "u")

  /** No payload of the user is to be found in the room, now or by any later command. */
  ghost predicate Hidden(g: Cluster, k: Key) {
    k.user !in S.Fetch(g.shared.st, k.room, g.shared.now).payloads
  }

  /** A join of the user to the room reaches the store. */
  ghost predicate Shows(g: Cluster, a: Step, k: Key) {
    a.Reach? && Up(g, a.w) && a.n < |g.nodes[a.w].pending|
    && var c := g.nodes[a.w].pending[a.n]; c.Add? && c.key == k
  }

  /** Some step of the run from `g` is such an arrival. */
  ghost predicate ShownAgain(g: Cluster, run: seq<Step>, k: Key, ttl: Time, grace: Time, ordered: bool) {
    run != [] &&
    var front := run[..|run| - 1];
    || ShownAgain(g, front, k, ttl, grace, ordered)
    || (ExecFrom(g, front, ttl, grace, ordered).Some?
        && Shows(ExecFrom(g, front, ttl, grace, ordered).value, run[|run| - 1], k))
  }

  lemma {:induction false} RefreshKeepsHidden(st: S.Store, entries: seq<Key>, w: nat, k: Key, now: Time, ttl: Time)
    requires k.user !in S.Fetch(st, k.room, now).payloads
    ensures k.user !in S.Fetch(S.AfterRefresh(st, entries, w, now, ttl), k.room, now).payloads
  {
    if entries != [] {
      RefreshKeepsHidden(st, entries[..|entries| - 1], w, k, now, ttl);
    }
  }

  lemma ToldKeepsHidden(g: S.System, w: nat, c: Call, k: Key, ttl: Time)
    requires w < |g.workers| && k.user !in S.Fetch(g.st, k.room, g.now).payloads && !(c.Add? && c.key == k)
    ensures k.user !in S.Fetch(Told(g, w, c, ttl).st, k.room, g.now).payloads
  {
    if c.Refresh? {
      RefreshKeepsHidden(g.st, c.entries, w, k, g.now, ttl);
    }
  }

  lemma StepKeepsHidden(g: Cluster, a: Step, k: Key, ttl: Time, grace: Time)
    requires Enabled(g, a, ttl, false) && Hidden(g, k) && !Shows(g, a, k)
    ensures Hidden(After(g, a, ttl, grace), k)
  {
    if a.Reach? {
      ToldKeepsHidden(g.shared, a.w, g.nodes[a.w].pending[a.n], k, ttl);
    }
  }

  /** A hidden user is in no list until a join of theirs to the room reaches the store: neither
      heartbeats nor anything else bring them back, in order or not. */
  lemma {:induction false} HiddenUntilJoin(g: Cluster, run: seq<Step>, k: Key, ttl: Time, grace: Time, ordered: bool)
    requires Hidden(g, k) && ExecFrom(g, run, ttl, grace, ordered).Some? && !ShownAgain(g, run, k, ttl, grace, ordered)
    ensures var g' := ExecFrom(g, run, ttl, grace, ordered).value;
            Hidden(g', k) && k.user !in S.Members(g'.shared.st, k.room, g'.shared.now)
  {
    if run != [] {
      HiddenUntilJoin(g, run[..|run| - 1], k, ttl, grace, ordered);
      StepKeepsHidden(ExecFrom(g, run[..|run| - 1], ttl, grace, ordered).value, run[|run| - 1], k, ttl, grace);
    }
  }

  /** What the run below comes to: the user has rejoined behind a removal that has not come yet. */
  ghost predicate Rejoined(g: Cluster, ttl: Time, grace: Time) {
    && Reachable(g, ttl, grace) && Up(g, 0) && g.nodes[0].pending == [Remove(K), Add(K, "m")]
    && (forall t | t in S.Raw(g.shared.st, K.room).live :: t.worker == 0) && L.Holds(g.nodes[0].local.held, K)
  }

  /** The user joins and is stored, leaves, is removed at the end of the grace period, and rejoins
      before that removal has reached the store. */
  lemma RejoinIsReachable(ttl: Time, grace: Time)
    requires grace < ttl
    ensures exists g :: Rejoined(g, ttl, grace)
  {
    var g0 := Fresh(1);
    assert Exec(1, [], ttl, grace, false) == Some(g0);
    ReachableStep(g0, Join(0, K, 1, "m"), ttl, grace);
    var g1 := After(g0, Join(0, K, 1, "m"), ttl, grace);
    assert g1.nodes[0].pending == [Add(K, "m")] && g1.nodes[0].local == L.After(START, L.Join(K, 1), grace);
    ReachableStep(g1, Reach(0, 0), ttl, grace);
    var g2 := After(g1, Reach(0, 0), ttl, grace);
    assert g2.nodes[0].pending == [] && forall t | t in S.Raw(g2.shared.st, K.room).live :: t.worker == 0;
    assert g2.shared.workers == [S.Worker(true, map[K := 0])] && |g2.nodes| == 1;
    LeaveFrom(g2, ttl, grace);
  }

  lemma LeaveFrom(g: Cluster, ttl: Time, grace: Time)
    requires Reachable(g, ttl, grace) && g.nodes == [Node(L.After(START, L.Join(K, 1), grace), [])]
    requires g.shared.workers == [S.Worker(true, map[K := 0])] && g.shared.now == 0 && grace < ttl
    requires forall t | t in S.Raw(g.shared.st, K.room).live :: t.worker == 0
    ensures exists g :: Rejoined(g, ttl, grace)
  {
    LeaveThenFire(grace);
    ReachableStep(g, Leave(0, K, 1), ttl, grace);
    var g1 := After(g, Leave(0, K, 1), ttl, grace);
    var left := L.After(g.nodes[0].local, L.Leave(K, 1), grace);
    assert g.nodes[0].pending + [] == [];
    assert g.nodes[0 := Node(left, [])] == [Node(left, [])];
    WaitFrom(g1, left, ttl, grace);
  }

  lemma WaitFrom(g: Cluster, left: L.State, ttl: Time, grace: Time)
    requires Reachable(g, ttl, grace) && g.nodes == [Node(left, [])] && grace < ttl
    requires g.shared.workers == [S.Worker(true, map[K := 0])] && g.shared.now == 0
    requires left.now == 0 && left.l.timers == map[K := grace] && L.Listed(left.l, K) && L.Sockets(left.l, K) == {}
    requires forall t | t in S.Raw(g.shared.st, K.room).live :: t.worker == 0
    ensures exists g :: Rejoined(g, ttl, grace)
  {
    if grace == 0 {
      RejoinFrom(g, ttl, grace);
    } else {
      assert Enabled(g, Pass(grace), ttl, false);
      ReachableStep(g, Pass(grace), ttl, grace);
      assert Up(g, 0) && After(g, Pass(grace), ttl, grace).nodes[0] == Node(left.(now := grace), []);
      RejoinFrom(After(g, Pass(grace), ttl, grace), ttl, grace);
    }
  }

  lemma LeaveThenFire(grace: Time)
    ensures var x := L.After(START, L.Join(K, 1), grace);
            var y := L.After(x, L.Leave(K, 1), grace);
            && L.Enabled(x, L.Leave(K, 1)) && y.now == 0 && y.l.timers == map[K := grace]
            && L.Listed(y.l, K) && L.Sockets(y.l, K) == {}
  {
    var x := L.After(START, L.Join(K, 1), grace);
    assert L.Sockets(x.l, K) == {1};
  }

  lemma RejoinFrom(g: Cluster, ttl: Time, grace: Time)
    requires Reachable(g, ttl, grace) && Up(g, 0) && g.nodes[0].pending == []
    requires var x := g.nodes[0].local; L.Enabled(x, L.Fire(K)) && L.Listed(x.l, K) && L.Sockets(x.l, K) == {}
    requires forall t | t in S.Raw(g.shared.st, K.room).live :: t.worker == 0
    ensures exists g :: Rejoined(g, ttl, grace)
  {
    ReachableStep(g, Fire(0, K), ttl, grace);
    var g1 := After(g, Fire(0, K), ttl, grace);
    assert g1.nodes[0].pending == [Remove(K)];
    ReachableStep(g1, Join(0, K, 2, "m"), ttl, grace);
    var g2 := After(g1, Join(0, K, 2, "m"), ttl, grace);
    assert g2.nodes[0].pending == [Remove(K), Add(K, "m")] && (K, 2) in g2.nodes[0].local.held;
    assert g2.shared == g.shared && Rejoined(g2, ttl, grace);
  }

  /** Without the order the theorem fails, whatever the grace period: a user with an open socket on a
      running worker, nothing about them on its way, and in no list until they join again. */
  lemma OvertakingHidesAUser(ttl: Time, grace: Time)
    requires grace < ttl
    ensures exists g :: Reachable(g, ttl, grace) && Up(g, 0) && g.nodes[0].pending == []
              && L.Holds(g.nodes[0].local.held, K) && Hidden(g, K)
              && K.user !in S.Members(g.shared.st, K.room, g.shared.now)
  {
    RejoinIsReachable(ttl, grace);
    var g :| Rejoined(g, ttl, grace);
    OvertakenRemoveHides(g, 0, K, "m", ttl, grace);
    ReachableStep(g, Reach(0, 1), ttl, grace);
    var g1 := After(g, Reach(0, 1), ttl, grace);
    ReachableStep(g1, Reach(0, 0), ttl, grace);
    var g2 := After(g1, Reach(0, 0), ttl, grace);
    assert Reachable(g2, ttl, grace) && g2.nodes[0].pending == [] && Hidden(g2, K);
  }
}
