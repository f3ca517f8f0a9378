/** The local presence view of one worker: per room and user the presence sockets, and the pending
    debounced removals. A pending `_expire_member` task is modelled by the time it is due. */
module PresenceLocal {
  import opened Options

  type Socket = nat
  type UserId = string
  type Time = nat
  datatype Room = Room(kind: string, id: string)
  datatype Key = Key(room: Room, user: UserId)

  datatype Local = Local(members: map<Room, map<UserId, set<Socket>>>, timers: map<Key, Time>)

  predicate Listed(l: Local, k: Key) {
    k.room in l.members && k.user in l.members[k.room]
  }

  function Sockets(l: Local, k: Key): set<Socket> {
    if Listed(l, k) then l.members[k.room][k.user] else {}
  }

  function Put(l: Local, k: Key, sockets: set<Socket>): Local {
    var room := if k.room in l.members then l.members[k.room] else map[];
    l.(members := l.members[k.room := room[k.user := sockets]])
  }

  function AfterJoin(l: Local, k: Key, s: Socket): Local {
    Put(l, k, Sockets(l, k) + {s}).(timers := l.timers - {k})
  }

  /** Dropping a socket; when none is left the removal is (re)scheduled `grace` from now. */
  function AfterLeave(l: Local, k: Key, s: Socket, now: Time, grace: Time): Local {
    if !Listed(l, k) then l
    else
      var rest := Sockets(l, k) - {s};
      Put(l, k, rest).(timers := if rest == {} then l.timers[k := now + grace] else l.timers)
  }

  /** The removal task past its sleep. */
  function AfterExpire(l: Local, k: Key): Local {
    var l' := l.(timers := l.timers - {k});
    if !Listed(l, k) || Sockets(l, k) != {} then l'
    else
      var room := l.members[k.room] - {k.user};
      l'.(members := if room == map[] then l.members - {k.room} else l.members[k.room := room])
  }

  /** The pending timers are exactly the listed users without sockets, and no empty room is kept. */
  ghost predicate Tidy(l: Local) {
    && (forall k :: k in l.timers <==> Listed(l, k) && Sockets(l, k) == {})
    && (forall r | r in l.members :: l.members[r] != map[])
  }

  lemma JoinKeepsTidy(l: Local, k: Key, s: Socket)
    requires Tidy(l)
    ensures Tidy(AfterJoin(l, k, s))
    ensures forall k' :: Listed(AfterJoin(l, k, s), k') <==> Listed(l, k') || k' == k
    ensures forall k' :: Sockets(AfterJoin(l, k, s), k') == Sockets(l, k') + if k' == k then {s} else {}
  {
    var l' := AfterJoin(l, k, s);
    assert l'.members[k.room][k.user] == Sockets(l, k) + {s};
    forall k' | k' != k ensures Listed(l', k') == Listed(l, k') && Sockets(l', k') == Sockets(l, k') {}
  }

  lemma LeaveKeepsTidy(l: Local, k: Key, s: Socket, now: Time, grace: Time)
    requires Tidy(l)
    ensures Tidy(AfterLeave(l, k, s, now, grace))
    ensures forall k' :: Listed(AfterLeave(l, k, s, now, grace), k') <==> Listed(l, k')
    ensures forall k' :: Sockets(AfterLeave(l, k, s, now, grace), k') == Sockets(l, k') - if k' == k then {s} else {}
  {
    var l' := AfterLeave(l, k, s, now, grace);
    forall k' | k' != k ensures Listed(l', k') == Listed(l, k') && Sockets(l', k') == Sockets(l, k') {}
  }

  lemma ExpireKeepsTidy(l: Local, k: Key)
    requires Tidy(l) && k in l.timers
    ensures Tidy(AfterExpire(l, k))
    ensures forall k' :: Listed(AfterExpire(l, k), k') <==> Listed(l, k') && k' != k
    ensures forall k' :: Sockets(AfterExpire(l, k), k') == Sockets(l, k')
  {
    var l' := AfterExpire(l, k);
    assert k !in l'.timers;
    forall k' | k' != k ensures Listed(l', k') == Listed(l, k') && Sockets(l', k') == Sockets(l, k') {
      if k'.room == k.room && Listed(l, k') {
        assert k'.user in l.members[k.room] - {k.user};
      }
    }
  }

  class Presence {
    var members: map<Room, map<UserId, set<Socket>>>
    var expiries: map<Key, Time>

    ghost function View(): Local
      reads this
    {
      Local(members, expiries)
    }

    constructor ()
      ensures View() == Local(map[], map[])
    {
      members, expiries := map[], map[];
    }

    method Join(k: Key, s: Socket)
      modifies this
      ensures View() == AfterJoin(old(View()), k, s)
    {
      expiries := expiries - {k};
      var room := if k.room in members then members[k.room] else map[];
      var sockets := if k.user in room then room[k.user] else {};
      members := members[k.room := room[k.user := sockets + {s}]];
    }

    method Leave(k: Key, s: Socket, now: Time, grace: Time)
      modifies this
      ensures View() == AfterLeave(old(View()), k, s, now, grace)
    {
      if k.room !in members || k.user !in members[k.room] {
        return;
      }
      var rest := members[k.room][k.user] - {s};
      members := members[k.room := members[k.room][k.user := rest]];
      if rest != {} {
        return;
      }
      expiries := expiries[k := now + grace];
    }

    /** `removed` says that the user is dropped here, so the shared store must hear of it. */
    method ExpireMember(k: Key) returns (removed: bool)
      modifies this
      ensures View() == AfterExpire(old(View()), k)
      ensures removed <==> Listed(old(View()), k) && Sockets(old(View()), k) == {}
    {
      expiries := expiries - {k};
      if k.room !in members || k.user !in members[k.room] || members[k.room][k.user] != {} {
        return false;
      }
      var room := members[k.room] - {k.user};
      members := if room == map[] then members - {k.room} else members[k.room := room];
      return true;
    }

    /** What the heartbeat refreshes: every listed (room, user). */
    method Entries() returns (entries: set<Key>)
      ensures forall k :: k in entries <==> Listed(View(), k)
    {
      entries := set r, u | r in members && u in members[r] :: Key(r, u);
      assert forall k | Listed(View(), k) :: k == Key(k.room, k.user) && k in entries;
    }
  }

  // ---- runs -----------------------------------------------------------------------------------

  datatype Step =
    | Join(k: Key, s: Socket)
    | Leave(k: Key, s: Socket)  // the router's clean-up, once per joined presence socket
    | Fire(k: Key)              // a due removal task
    | Tick(to: Time)            // time passes, never past a due timer

  /** `held` and `leftAt` are history kept from the joins and leaves alone: the presence sockets
      open now, and when a user's last one in a room last left. */
  datatype State = State(l: Local, now: Time, held: set<(Key, Socket)>, leftAt: map<Key, Time>)

  ghost predicate Holds(held: set<(Key, Socket)>, k: Key) {
    exists s :: (k, s) in held
  }

  ghost predicate Enabled(g: State, a: Step) {
    match a
    case Join(_, _) => true
    case Leave(k, s) => (k, s) in g.held
    case Fire(k) => k in g.l.timers && g.l.timers[k] <= g.now
    case Tick(to) => g.now < to && forall k | k in g.l.timers :: to <= g.l.timers[k]
  }

  ghost function After(g: State, a: Step, grace: Time): State {
    match a
    case Join(k, s) => g.(l := AfterJoin(g.l, k, s), held := g.held + {(k, s)})
    case Leave(k, s) =>
      var held := g.held - {(k, s)};
      g.(l := AfterLeave(g.l, k, s, g.now, grace), held := held,
         leftAt := if Holds(held, k) then g.leftAt else g.leftAt[k := g.now])
    case Fire(k) => g.(l := AfterExpire(g.l, k))
    case Tick(to) => g.(now := to)
  }

  ghost function Exec(run: seq<Step>, grace: Time): Option<State> {
    if run == [] then Some(State(Local(map[], map[]), 0, {}, map[]))
    else
      var mid := Exec(run[..|run| - 1], grace);
      var a := run[|run| - 1];
      if mid.Some? && Enabled(mid.value, a) then Some(After(mid.value, a, grace)) else None
  }

  ghost predicate Inv(g: State, grace: Time) {
    && Tidy(g.l)
    && (forall k, s :: s in Sockets(g.l, k) <==> (k, s) in g.held)
    && (forall k | k in g.l.timers :: k in g.leftAt && g.l.timers[k] == g.leftAt[k] + grace && g.now <= g.l.timers[k])
    && (forall k | k in g.leftAt && !Holds(g.held, k) && k !in g.l.timers :: g.leftAt[k] + grace <= g.now)
    && (forall k | k in g.leftAt :: g.leftAt[k] <= g.now)
  }

  lemma HoldsFrame(held: set<(Key, Socket)>, k: Key, s: Socket)
    ensures forall k' | k' != k :: Holds(held + {(k, s)}, k') == Holds(held, k') == Holds(held - {(k, s)}, k')
    ensures Holds(held + {(k, s)}, k)
  {
    assert (k, s) in held + {(k, s)};
    forall k' | k' != k && Holds(held, k') ensures Holds(held + {(k, s)}, k') && Holds(held - {(k, s)}, k') {
      var t :| (k', t) in held;
      assert (k', t) in held + {(k, s)} && (k', t) in held - {(k, s)};
    }
  }

  lemma JoinKeepsInv(g: State, k: Key, s: Socket, grace: Time)
    requires Inv(g, grace)
    ensures Inv(After(g, Join(k, s), grace), grace)
  {
    JoinKeepsTidy(g.l, k, s);
    HoldsFrame(g.held, k, s);
  }

  lemma LeaveKeepsInv(g: State, k: Key, s: Socket, grace: Time)
    requires Inv(g, grace) && (k, s) in g.held
    ensures Inv(After(g, Leave(k, s), grace), grace)
  {
    LeaveKeepsTidy(g.l, k, s, g.now, grace);
    HoldsFrame(g.held, k, s);
    var g' := After(g, Leave(k, s), grace);
    assert s in Sockets(g.l, k);
    if Sockets(g'.l, k) != {} {
      var t :| t in Sockets(g'.l, k);
      assert (k, t) in g'.held;
    }
  }

  lemma StepKeepsInv(g: State, a: Step, grace: Time)
    requires Inv(g, grace) && Enabled(g, a)
    ensures Inv(After(g, a, grace), grace)
  {
    match a {
      case Join(k, s) => JoinKeepsInv(g, k, s, grace);
      case Leave(k, s) => LeaveKeepsInv(g, k, s, grace);
      case Fire(k) => ExpireKeepsTidy(g.l, k);
      case Tick(_) =>
    }
  }

  lemma {:induction false} RunKeepsInv(run: seq<Step>, grace: Time)
    requires Exec(run, grace).Some?
    ensures Inv(Exec(run, grace).value, grace)
  {
    if run != [] {
      RunKeepsInv(run[..|run| - 1], grace);
      StepKeepsInv(Exec(run[..|run| - 1], grace).value, run[|run| - 1], grace);
    }
  }

  /** No ghosts and no stray timers: in every run the pending removals are exactly the listed users
      without a presence socket. */
  lemma TimersAreTheSocketlessMembers(run: seq<Step>, grace: Time, k: Key)
    requires Exec(run, grace).Some?
    ensures var l := Exec(run, grace).value.l; k in l.timers <==> Listed(l, k) && Sockets(l, k) == {}
  {
    RunKeepsInv(run, grace);
  }

  /** When a user's removal is not due, they are listed exactly when they hold a presence socket in
      the room or their last one left less than the grace period ago. */
  lemma ListedByInv(g: State, grace: Time, k: Key)
    requires Inv(g, grace) && !(k in g.l.timers && g.l.timers[k] <= g.now)
    ensures Listed(g.l, k) <==> Holds(g.held, k) || (k in g.leftAt && g.now < g.leftAt[k] + grace)
  {
    if Listed(g.l, k) && Sockets(g.l, k) != {} {
      var s :| s in Sockets(g.l, k);
      assert (k, s) in g.held;
    }
    if Holds(g.held, k) {
      var s :| (k, s) in g.held;
      assert s in Sockets(g.l, k);
    }
  }

  /** So it is in every run, at any moment at which no removal is due. */
  lemma ListedIffHeldOrWithinGrace(run: seq<Step>, grace: Time, k: Key)
    requires Exec(run, grace).Some?
    requires var g := Exec(run, grace).value; !(k in g.l.timers && g.l.timers[k] <= g.now)
    ensures var g := Exec(run, grace).value;
            Listed(g.l, k) <==> Holds(g.held, k) || (k in g.leftAt && g.now < g.leftAt[k] + grace)
  {
    RunKeepsInv(run, grace);
    ListedByInv(Exec(run, grace).value, grace, k);
  }
}
