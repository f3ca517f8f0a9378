/** The socket indexes of one worker's `ConnectionManager`.

    `Indexes` is the value of the fields that decide who is tracked, who is revoked and which
    epoch a handshake sees; the functions on it say what each manager operation does to them.
    The class below keeps the fields as mutable maps, as the source does, and each of its methods
    is proved to be the function of the same meaning. */
module ConnectionIndexes {
  import opened Options

  type Socket = nat
  type UserId = string
  datatype Room = Room(kind: string, id: string)
  datatype Meta = Meta(user: UserId, room: Room)

  /** The optional `room_type` and `room_id_prefix` of an eviction. */
  datatype Filter = Filter(kind: Option<string>, idPrefix: Option<string>)

  /** What crosses the relay. `users` is None when the payload's `user_ids` is not a list. */
  datatype Payload =
    | EvictPayload(origin: nat, users: Option<seq<UserId>>, filter: Filter)
    | FramePayload(origin: nat, room: Room, message: string)

  datatype Indexes = Indexes(
    rooms: map<Room, set<Socket>>,
    userSockets: map<UserId, set<Socket>>,
    meta: map<Socket, Meta>,
    revoked: set<Socket>,
    epochs: map<UserId, nat>,
    gapEpoch: nat)

  const EMPTY := Indexes(map[], map[], map[], {}, map[], 0)

  function Bucket<K>(m: map<K, set<Socket>>, k: K): set<Socket> {
    if k in m then m[k] else {}
  }

  function Epoch(x: Indexes, user: UserId): nat {
    if user in x.epochs then x.epochs[user] else 0
  }

  /** The pair a handshake snapshots and compares. */
  function EpochPair(x: Indexes, user: UserId): (nat, nat) {
    (Epoch(x, user), x.gapEpoch)
  }

  predicate MayServe(x: Indexes, s: Socket) {
    s in x.meta && s !in x.revoked
  }

  predicate Matches(f: Filter, room: Room) {
    && (f.kind.Some? ==> room.kind == f.kind.value)
    && (f.idPrefix.Some? ==> f.idPrefix.value <= room.id)
  }

  /** The three indexes agree: a socket is tracked with metadata (u, room) exactly when it is in
      u's set and in room's set, no empty set is kept, and only tracked sockets are revoked. */
  ghost predicate Agree(x: Indexes) {
    && (forall r :: Bucket(x.rooms, r) == set s | s in x.meta && x.meta[s].room == r)
    && (forall u :: Bucket(x.userSockets, u) == set s | s in x.meta && x.meta[s].user == u)
    && (forall r | r in x.rooms :: x.rooms[r] != {})
    && (forall u | u in x.userSockets :: x.userSockets[u] != {})
    && x.revoked <= x.meta.Keys
  }

  // ---- what each operation does -------------------------------------------------------------

  function AfterJoin(x: Indexes, room: Room, s: Socket, user: UserId): Indexes {
    x.(rooms := x.rooms[room := Bucket(x.rooms, room) + {s}],
       userSockets := x.userSockets[user := Bucket(x.userSockets, user) + {s}],
       meta := x.meta[s := Meta(user, room)])
  }

  /** Discard `s` from the set at `k`, deleting the key when the set becomes empty. */
  function Discard<K>(m: map<K, set<Socket>>, k: K, s: Socket): map<K, set<Socket>> {
    if k !in m then m
    else if m[k] - {s} == {} then m - {k}
    else m[k := m[k] - {s}]
  }

  function AfterLeave(x: Indexes, room: Room, s: Socket): Indexes {
    x.(rooms := Discard(x.rooms, room, s),
       userSockets := if s in x.meta then Discard(x.userSockets, x.meta[s].user, s) else x.userSockets,
       meta := x.meta - {s},
       revoked := x.revoked - {s})
  }

  /** Leaving one after the other, as the clean-up of a broadcast's dead sockets does. */
  function AfterDrop(x: Indexes, room: Room, dead: seq<Socket>): Indexes {
    if dead == [] then x
    else AfterLeave(AfterDrop(x, room, dead[..|dead| - 1]), room, dead[|dead| - 1])
  }

  /** The sockets an eviction of one user under `f` marks. */
  function MarkedOne(x: Indexes, user: UserId, f: Filter): set<Socket> {
    set s | s in Bucket(x.userSockets, user) && s in x.meta && Matches(f, x.meta[s].room)
  }

  function AfterMarkOne(x: Indexes, user: UserId, f: Filter): Indexes {
    x.(revoked := x.revoked + MarkedOne(x, user, f), epochs := x.epochs[user := Epoch(x, user) + 1])
  }

  /** Marking one user after the other. */
  function AfterMark(x: Indexes, users: seq<UserId>, f: Filter): Indexes {
    if users == [] then x
    else AfterMarkOne(AfterMark(x, users[..|users| - 1], f), users[|users| - 1], f)
  }

  /** The sockets an eviction of `users` under `f` marks. */
  function Marked(x: Indexes, users: seq<UserId>, f: Filter): set<Socket> {
    if users == [] then {}
    else Marked(x, users[..|users| - 1], f) + MarkedOne(x, users[|users| - 1], f)
  }

  function AfterGap(x: Indexes): Indexes {
    x.(gapEpoch := x.gapEpoch + 1, revoked := x.revoked + x.meta.Keys)
  }

  /** The sockets one local delivery addresses. */
  function Targets(x: Indexes, room: Room, exclude: Option<Socket>): set<Socket> {
    set s | s in Bucket(x.rooms, room) && Some(s) != exclude && s !in x.revoked
  }

  /** The distinct non-empty ids, in order of first appearance. */
  function Distinct(users: seq<UserId>): seq<UserId> {
    if users == [] then []
    else
      var front := Distinct(users[..|users| - 1]);
      var u := users[|users| - 1];
      if u == "" || u in front then front else front + [u]
  }

  lemma {:induction false} DistinctMembers(users: seq<UserId>)
    ensures forall u :: u in Distinct(users) <==> u in users && u != ""
    ensures forall i, j | 0 <= i < j < |Distinct(users)| :: Distinct(users)[i] != Distinct(users)[j]
  {
    if users != [] {
      DistinctMembers(users[..|users| - 1]);
      assert users == users[..|users| - 1] + [users[|users| - 1]];
    }
  }

  // ---- the operations keep the indexes in agreement -----------------------------------------

  lemma JoinKeepsAgreement(x: Indexes, room: Room, s: Socket, user: UserId)
    requires Agree(x) && s !in x.meta
    ensures Agree(AfterJoin(x, room, s, user))
    ensures MayServe(AfterJoin(x, room, s, user), s)
    ensures forall t | t != s :: MayServe(AfterJoin(x, room, s, user), t) == MayServe(x, t)
  {
    var y := AfterJoin(x, room, s, user);
    forall r ensures Bucket(y.rooms, r) == set t | t in y.meta && y.meta[t].room == r {
      assert Bucket(x.rooms, r) == set t | t in x.meta && x.meta[t].room == r;
    }
    forall u ensures Bucket(y.userSockets, u) == set t | t in y.meta && y.meta[t].user == u {
      assert Bucket(x.userSockets, u) == set t | t in x.meta && x.meta[t].user == u;
    }
  }

  lemma DiscardFromBucket<K>(m: map<K, set<Socket>>, k: K, s: Socket)
    ensures forall j :: Bucket(Discard(m, k, s), j) == if j == k then Bucket(m, j) - {s} else Bucket(m, j)
    ensures (forall j | j in m :: m[j] != {}) ==> forall j | j in Discard(m, k, s) :: Discard(m, k, s)[j] != {}
  {
  }

  lemma LeaveKeepsAgreement(x: Indexes, room: Room, s: Socket)
    requires Agree(x) && (s in x.meta ==> x.meta[s].room == room)
    ensures Agree(AfterLeave(x, room, s))
    ensures !MayServe(AfterLeave(x, room, s), s)
    ensures forall t | t != s :: MayServe(AfterLeave(x, room, s), t) == MayServe(x, t)
  {
    var y := AfterLeave(x, room, s);
    DiscardFromBucket(x.rooms, room, s);
    forall r ensures Bucket(y.rooms, r) == set t | t in y.meta && y.meta[t].room == r {
      assert Bucket(x.rooms, r) == set t | t in x.meta && x.meta[t].room == r;
    }
    if s in x.meta {
      DiscardFromBucket(x.userSockets, x.meta[s].user, s);
    }
    forall u ensures Bucket(y.userSockets, u) == set t | t in y.meta && y.meta[t].user == u {
      assert Bucket(x.userSockets, u) == set t | t in x.meta && x.meta[t].user == u;
    }
  }

  lemma {:induction false} DropKeepsAgreement(x: Indexes, room: Room, dead: seq<Socket>)
    requires Agree(x) && forall s | s in dead && s in x.meta :: x.meta[s].room == room
    ensures Agree(AfterDrop(x, room, dead))
    ensures AfterDrop(x, room, dead).meta == x.meta - (set s | s in dead)
    ensures AfterDrop(x, room, dead).revoked == x.revoked - (set s | s in dead)
    ensures AfterDrop(x, room, dead).epochs == x.epochs && AfterDrop(x, room, dead).gapEpoch == x.gapEpoch
  {
    if dead != [] {
      var front, s := dead[..|dead| - 1], dead[|dead| - 1];
      assert forall t :: t in dead <==> t in front || t == s by { assert dead == front + [s]; }
      DropKeepsAgreement(x, room, front);
      LeaveKeepsAgreement(AfterDrop(x, room, front), room, s);
    }
  }

  /** Marking touches nothing but the revoked set and the epochs. */
  lemma {:induction false} MarkFrame(x: Indexes, users: seq<UserId>, f: Filter)
    ensures AfterMark(x, users, f) ==
              x.(revoked := x.revoked + Marked(x, users, f), epochs := AfterMark(x, users, f).epochs)
  {
    if users != [] {
      MarkFrame(x, users[..|users| - 1], f);
    }
  }

  /** With the indexes in agreement an eviction marks exactly the tracked sockets of the named
      users whose room passes the filter, and bumps a user's epoch once per mention. */
  lemma {:induction false} MarkMeaning(x: Indexes, users: seq<UserId>, f: Filter)
    requires Agree(x)
    ensures Agree(AfterMark(x, users, f))
    ensures forall s :: s in Marked(x, users, f) <==>
              s in x.meta && x.meta[s].user in users && Matches(f, x.meta[s].room)
    ensures forall u :: Epoch(AfterMark(x, users, f), u) == Epoch(x, u) + multiset(users)[u]
  {
    MarkFrame(x, users, f);
    if users != [] {
      var front, last := users[..|users| - 1], users[|users| - 1];
      MarkMeaning(x, front, f);
      MarkFrame(x, front, f);
      assert users == front + [last];
      assert Bucket(x.userSockets, last) == set s | s in x.meta && x.meta[s].user == last;
    }
    AgreeFrame(x, AfterMark(x, users, f));
  }

  lemma AgreeFrame(x: Indexes, y: Indexes)
    requires Agree(x)
    requires y.meta == x.meta && y.rooms == x.rooms && y.userSockets == x.userSockets && y.revoked <= x.meta.Keys
    ensures Agree(y)
  {
    forall r ensures Bucket(y.rooms, r) == set s | s in y.meta && y.meta[s].room == r {
      assert Bucket(x.rooms, r) == set s | s in x.meta && x.meta[s].room == r;
    }
    forall u ensures Bucket(y.userSockets, u) == set s | s in y.meta && y.meta[s].user == u {
      assert Bucket(x.userSockets, u) == set s | s in x.meta && x.meta[s].user == u;
    }
  }

  lemma GapMeaning(x: Indexes)
    requires Agree(x)
    ensures Agree(AfterGap(x))
    ensures forall s :: !MayServe(AfterGap(x), s)
  {
    AgreeFrame(x, AfterGap(x));
  }

  /** A delivery addresses exactly the room's servable sockets other than the excluded one. */
  lemma TargetsMeaning(x: Indexes, room: Room, exclude: Option<Socket>)
    requires Agree(x)
    ensures forall s :: s in Targets(x, room, exclude) <==>
                          MayServe(x, s) && x.meta[s].room == room && Some(s) != exclude
  {
    assert Bucket(x.rooms, room) == set s | s in x.meta && x.meta[s].room == room;
  }

  predicate StartsWith(s: string, prefix: string) {
    |prefix| <= |s| && forall i | 0 <= i < |prefix| :: s[i] == prefix[i]
  }

  /** A filter lets a room through when the room is of its kind, if it names one, and the room's id
      begins with its prefix, if it has one. */
  lemma MatchesMeaning(f: Filter, room: Room)
    ensures Matches(f, room) <==>
              (f.kind.None? || f.kind == Some(room.kind)) && (f.idPrefix.None? || StartsWith(room.id, f.idPrefix.value))
    ensures f.idPrefix.Some? ==>
              (StartsWith(room.id, f.idPrefix.value) <==> exists rest :: room.id == f.idPrefix.value + rest)
  {
    if f.idPrefix.Some? {
      var prefix := f.idPrefix.value;
      if StartsWith(room.id, prefix) {
        assert room.id == prefix + room.id[|prefix|..];
      }
    }
  }

  /** So an eviction marks a tracked socket exactly when its user is named, its room is of the kind
      asked for, if any, and its room's id begins with the prefix asked for, if any. */
  lemma MarkedByFilter(x: Indexes, users: seq<UserId>, f: Filter, s: Socket)
    requires Agree(x) && s in x.meta
    ensures var room := x.meta[s].room;
            s in Marked(x, users, f) <==>
              x.meta[s].user in users && (f.kind.None? || f.kind == Some(room.kind))
              && (f.idPrefix.None? || exists rest :: room.id == f.idPrefix.value + rest)
  {
    MarkMeaning(x, users, f);
    MatchesMeaning(f, x.meta[s].room);
  }

  // ---- the manager itself -------------------------------------------------------------------

  class ConnectionManager {
    var rooms: map<Room, set<Socket>>
    var userSockets: map<UserId, set<Socket>>
    var socketMeta: map<Socket, Meta>
    var revoked: set<Socket>
    var revocationEpoch: map<UserId, nat>
    var gapEpoch: nat
    const workerId: nat

    ghost function View(): Indexes
      reads this
    {
      Indexes(rooms, userSockets, socketMeta, revoked, revocationEpoch, gapEpoch)
    }

    constructor (id: nat)
      ensures View() == EMPTY && workerId == id
    {
      rooms, userSockets, socketMeta, revoked, revocationEpoch, gapEpoch := map[], map[], map[], {}, map[], 0;
      workerId := id;
    }

    method Join(room: Room, s: Socket, user: UserId)
      modifies this
      ensures View() == AfterJoin(old(View()), room, s, user)
    {
      rooms := rooms[room := Bucket(rooms, room) + {s}];
      userSockets := userSockets[user := Bucket(userSockets, user) + {s}];
      socketMeta := socketMeta[s := Meta(user, room)];
    }

    method Leave(room: Room, s: Socket)
      modifies this
      ensures View() == AfterLeave(old(View()), room, s)
    {
      if room in rooms {
        var rest := rooms[room] - {s};
        rooms := if rest == {} then rooms - {room} else rooms[room := rest];
      }
      if s in socketMeta {
        var user := socketMeta[s].user;
        socketMeta := socketMeta - {s};
        if user in userSockets {
          var rest := userSockets[user] - {s};
          userSockets := if rest == {} then userSockets - {user} else userSockets[user := rest];
        }
      } else {
        assert socketMeta - {s} == socketMeta;
      }
      revoked := revoked - {s};
    }

    /** One user's share of an eviction: bump the epoch, then mark the matching sockets. */
    method MarkUser(user: UserId, f: Filter) returns (targets: set<Socket>)
      modifies this
      ensures View() == AfterMarkOne(old(View()), user, f)
      ensures targets == MarkedOne(old(View()), user, f)
    {
      var bumped := if user in revocationEpoch then revocationEpoch[user] + 1 else 1;
      revocationEpoch := revocationEpoch[user := bumped];
      targets := {};
      var todo := Bucket(userSockets, user);
      while todo != {}
        modifies this`revoked
        invariant todo <= Bucket(userSockets, user)
        invariant targets == set s | s in Bucket(userSockets, user) - todo && s in socketMeta
                  && Matches(f, socketMeta[s].room)
        invariant revoked == old(revoked) + targets
        decreases todo
      {
        var s :| s in todo;
        todo := todo - {s};
        if s in socketMeta && Matches(f, socketMeta[s].room) {
          revoked, targets := revoked + {s}, targets + {s};
        }
      }
    }

    method MarkRevoked(users: seq<UserId>, f: Filter) returns (targets: set<Socket>)
      modifies this
      ensures View() == AfterMark(old(View()), users, f)
      ensures targets == Marked(old(View()), users, f)
    {
      targets := {};
      for i := 0 to |users|
        invariant View() == AfterMark(old(View()), users[..i], f)
        invariant targets == Marked(old(View()), users[..i], f)
      {
        MarkFrame(old(View()), users[..i], f);
        assert users[..i + 1][..i] == users[..i];
        var more := MarkUser(users[i], f);
        targets := targets + more;
      }
      assert users[..|users|] == users;
    }

    /** The synchronous half of `evict_users`: drop empty ids, deduplicate, mark; the payload is
        what goes to the relay and the count is the number of sockets revoked here. */
    method EvictUsers(users: seq<UserId>, f: Filter) returns (count: nat, payload: Option<Payload>)
      modifies this
      ensures View() == if Distinct(users) == [] then old(View()) else AfterMark(old(View()), Distinct(users), f)
      ensures payload == if Distinct(users) == [] then None else Some(EvictPayload(workerId, Some(Distinct(users)), f))
      ensures count == |Marked(old(View()), Distinct(users), f)|
    {
      var ids: seq<UserId> := [];
      for i := 0 to |users|
        invariant ids == Distinct(users[..i])
      {
        assert users[..i + 1][..i] == users[..i];
        if users[i] != "" && users[i] !in ids {
          ids := ids + [users[i]];
        }
      }
      assert users[..|users|] == users;
      if ids == [] {
        return 0, None;
      }
      var targets := MarkRevoked(ids, f);
      return |targets|, Some(EvictPayload(workerId, Some(ids), f));
    }

    /** A payload from the relay: this worker's own copies are skipped, an eviction marks, a frame
        is addressed to the local sockets of its room. */
    method OnRelayed(p: Payload) returns (addressed: set<Socket>)
      modifies this
      ensures View() == if p.EvictPayload? && p.origin != workerId && p.users.Some?
                        then AfterMark(old(View()), p.users.value, p.filter) else old(View())
      ensures addressed == if p.FramePayload? && p.origin != workerId
                           then Targets(old(View()), p.room, None) else {}
    {
      addressed := {};
      if p.origin == workerId {
        return;
      }
      match p {
        case EvictPayload(_, users, filter) =>
          if users.Some? {
            var _ := MarkRevoked(users.value, filter);
          }
        case FramePayload(_, room, _) =>
          addressed := Address(room, None);
      }
    }

    method OnRelayGap() returns (targets: set<Socket>)
      modifies this
      ensures View() == AfterGap(old(View())) && targets == old(View()).meta.Keys
    {
      gapEpoch := gapEpoch + 1;
      targets := socketMeta.Keys;
      revoked := revoked + targets;
    }

    /** Whom one local delivery is sent to: with the indexes in agreement, every socket that joined
        this room and may still be served, except the excluded one. */
    method Address(room: Room, exclude: Option<Socket>) returns (targets: set<Socket>)
      ensures targets == Targets(View(), room, exclude)
      ensures Agree(View()) ==> forall s :: s in targets <==>
                MayServe(View(), s) && socketMeta[s].room == room && Some(s) != exclude
    {
      if Agree(View()) {
        TargetsMeaning(View(), room, exclude);
      }
      targets := set s | s in Bucket(rooms, room) && Some(s) != exclude && s !in revoked;
    }

    /** The clean-up after a fan-out: every socket whose send failed leaves the room. */
    method DropDead(room: Room, dead: seq<Socket>)
      modifies this
      ensures View() == AfterDrop(old(View()), room, dead)
    {
      ghost var before := View();
      for i := 0 to |dead|
        invariant View() == AfterDrop(before, room, dead[..i])
      {
        assert dead[..i + 1][..i] == dead[..i];
        Leave(room, dead[i]);
      }
      assert dead[..|dead|] == dead;
    }
  }
}
