/** Local delivery over the revocation protocol: a fan-out lists its sockets at once, then starts a
    send to each of them as slots come free, without looking at the revoked set again. */
module Delivery {
  import opened Options
  import opened ConnectionIndexes
  import R = Revocation

  /** A send not started yet. History: the revocations its worker had acted on when the fan-out
      listed the socket, and whether the socket was being refused then. */
  datatype Send = Send(fanout: nat, s: Socket, processed: set<nat>, refused: bool)

  datatype System = System(base: R.System, sends: seq<set<Send>>, fanouts: nat)

  datatype Step =
    | Base(a: R.Step)
    | List(w: nat, room: Room, exclude: Option<Socket>)  // the targets of one local delivery
    | Start(w: nat, x: Send)                             // a slot is free for this one

  function SendTo(g: System, w: nat, s: Socket): Send
    requires w < |g.base.workers|
  {
    var k := g.base.workers[w];
    Send(g.fanouts, s, k.processed, s in k.sockets && k.sockets[s].phase.Refused?)
  }

  function Listed(g: System, w: nat, room: Room, exclude: Option<Socket>): set<Send>
    requires w < |g.base.workers|
  {
    set s | s in Targets(g.base.workers[w].idx, room, exclude) :: SendTo(g, w, s)
  }

  ghost predicate Enabled(g: System, a: Step) {
    match a
    case Base(a) => R.Enabled(g.base, a)
    case List(w, _, _) => w < |g.base.workers| && w < |g.sends|
    case Start(w, x) => w < |g.sends| && x in g.sends[w]
  }

  ghost function After(g: System, a: Step): System
    requires Enabled(g, a)
  {
    match a
    case Base(a) => g.(base := R.After(g.base, a))
    case List(w, room, exclude) =>
      g.(sends := g.sends[w := g.sends[w] + Listed(g, w, room, exclude)], fanouts := g.fanouts + 1)
    case Start(w, x) => g.(sends := g.sends[w := g.sends[w] - {x}])
  }

  ghost function Exec(g: System, run: seq<Step>): Option<System> {
    if run == [] then Some(g)
    else
      var mid := Exec(g, run[..|run| - 1]);
      var a := run[|run| - 1];
      if mid.Some? && Enabled(mid.value, a) then Some(After(mid.value, a)) else None
  }

  ghost predicate Initial(g: System) {
    R.Initial(g.base) && g.sends == seq(|g.base.workers|, _ => {}) && g.fanouts == 0
  }

  ghost predicate Reachable(g: System) {
    exists start, run :: Initial(start) && Exec(start, run) == Some(g)
  }

  // ---- what stays of a handshake --------------------------------------------------------------

  /** The socket's handshake in `b'` is the one in `b`, later: same user, same room, and the same
      authorize read unless it is over; nothing committed or acted on is forgotten. */
  ghost predicate Follows(b: R.System, b': R.System, w: nat, s: Socket) {
    && R.Joined(b, w, s) && R.Joined(b', w, s)
    && b.commits <= b'.commits && b.workers[w].processed <= b'.workers[w].processed
    && b'.workers[w].sockets[s].user == b.workers[w].sockets[s].user
    && b'.workers[w].sockets[s].room == b.workers[w].sockets[s].room
    && SameRead(b.workers[w].sockets[s].phase, b'.workers[w].sockets[s].phase)
  }

  predicate SameRead(p: R.Phase, p': R.Phase) {
    p'.Gone? || (!p.Gone? && !p.Snapshotted? && !p'.Snapshotted? && p'.seen == p.seen)
  }

  lemma StepFollows(b: R.System, a: R.Step, w: nat, s: Socket)
    requires R.Enabled(b, a) && R.Joined(b, w, s)
    ensures Follows(b, R.After(b, a), w, s)
  {
    if !a.Commit? && !a.Publish? && a.w == w {
      assert R.After(b, a).workers[w] == R.Local(b, a);
      R.JoinedStaysJoined(b, a, s);
    }
  }

  /** A socket stale now was stale before, to a revocation acted on before. */
  lemma StaleBefore(b: R.System, b': R.System, w: nat, s: Socket, i: nat)
    requires Follows(b, b', w, s) && R.Stale(b', w, s, i) && i < |b.commits|
    ensures R.Stale(b, w, s, i)
  {
    assert b'.commits[i] == b.commits[i];
  }

  // ---- the invariant --------------------------------------------------------------------------

  /** A listed socket that was not being refused is stale to nothing its worker had acted on. */
  ghost predicate SendOk(b: R.System, w: nat, x: Send) {
    && R.Joined(b, w, x.s) && x.processed <= b.workers[w].processed
    && (!x.refused ==> forall i | i in x.processed :: !R.Stale(b, w, x.s, i))
  }

  ghost predicate Inv(g: System) {
    && R.Inv(g.base) && |g.sends| == |g.base.workers|
    && forall w, x | 0 <= w < |g.sends| && x in g.sends[w] :: SendOk(g.base, w, x) && x.fanout < g.fanouts
  }

  /** A stale socket of a revocation acted on may be served a delivery only while being refused. */
  lemma StaleTargetIsRefused(b: R.System, w: nat, s: Socket, i: nat)
    requires R.Inv(b) && R.Stale(b, w, s, i) && i in b.workers[w].processed && MayServe(b.workers[w].idx, s)
    ensures b.workers[w].sockets[s].phase.Refused?
  {
    var k := b.workers[w];
    assert R.WorkerInv(k, b.commits, b.published, w);
    assert R.SocketInv(k.idx, k.processed, b.commits, s, k.sockets[s]);
  }

  lemma TargetIsJoined(b: R.System, w: nat, s: Socket, room: Room, exclude: Option<Socket>)
    requires R.Inv(b) && w < |b.workers|
    ensures s in Targets(b.workers[w].idx, room, exclude) <==>
              R.Joined(b, w, s) && MayServe(b.workers[w].idx, s) && b.workers[w].sockets[s].room == room
              && exclude != Some(s)
  {
    var k := b.workers[w];
    assert R.WorkerInv(k, b.commits, b.published, w);
    TargetsMeaning(k.idx, room, exclude);
    if s in k.sockets {
      assert R.SocketInv(k.idx, k.processed, b.commits, s, k.sockets[s]);
    }
  }

  lemma ListKeepsInv(g: System, a: Step)
    requires Inv(g) && Enabled(g, a) && a.List?
    ensures Inv(After(g, a))
  {
    var k := g.base.workers[a.w];
    forall s | s in Targets(k.idx, a.room, a.exclude) ensures SendOk(g.base, a.w, SendTo(g, a.w, s)) {
      TargetIsJoined(g.base, a.w, s, a.room, a.exclude);
      forall i | i in k.processed && R.Stale(g.base, a.w, s, i) ensures k.sockets[s].phase.Refused? {
        StaleTargetIsRefused(g.base, a.w, s, i);
      }
    }
  }

  lemma SendStaysOk(b: R.System, a: R.Step, w: nat, x: Send)
    requires R.Inv(b) && R.Enabled(b, a) && SendOk(b, w, x)
    ensures SendOk(R.After(b, a), w, x)
  {
    StepFollows(b, a, w, x.s);
    assert R.WorkerInv(b.workers[w], b.commits, b.published, w);
    forall i | i in x.processed && R.Stale(R.After(b, a), w, x.s, i) ensures R.Stale(b, w, x.s, i) {
      StaleBefore(b, R.After(b, a), w, x.s, i);
    }
  }

  lemma StepKeepsInv(g: System, a: Step)
    requires Inv(g) && Enabled(g, a)
    ensures Inv(After(g, a))
  {
    match a {
      case Base(b) =>
        R.StepKeepsInv(g.base, b);
        forall w, x | 0 <= w < |g.sends| && x in g.sends[w] ensures SendOk(R.After(g.base, b), w, x) {
          SendStaysOk(g.base, b, w, x);
        }
      case List(_, _, _) => ListKeepsInv(g, a);
      case Start(_, _) =>
    }
  }

  lemma {:induction false} RunKeepsInv(g: System, run: seq<Step>)
    requires Inv(g) && Exec(g, run).Some?
    ensures Inv(Exec(g, run).value)
  {
    if run != [] {
      RunKeepsInv(g, run[..|run| - 1]);
      StepKeepsInv(Exec(g, run[..|run| - 1]).value, run[|run| - 1]);
    }
  }

  lemma ReachableInv(g: System)
    requires Reachable(g)
    ensures Inv(g)
  {
    var start, run :| Initial(start) && Exec(start, run) == Some(g);
    assert R.Exec(start.base, []) == Some(start.base);
    R.RunKeepsInv(start.base, []);
    RunKeepsInv(start, run);
  }

  // ---- whom a send can still reach ------------------------------------------------------------

  /** Whenever a send starts to a socket that is stale to a revocation its worker has acted on, the
      fan-out had listed the socket before the worker acted on it, or while it was being refused. */
  lemma StaleSendWasListedBefore(g: System, w: nat, x: Send, i: nat)
    requires Reachable(g) && Enabled(g, Start(w, x)) && R.Stale(g.base, w, x.s, i) && i in g.base.workers[w].processed
    ensures i !in x.processed || x.refused
  {
    ReachableInv(g);
  }

  lemma {:induction false} RunFollows(g: System, run: seq<Step>, w: nat, s: Socket)
    requires Exec(g, run).Some? && R.Joined(g.base, w, s)
    ensures Follows(g.base, Exec(g, run).value.base, w, s)
  {
    if run != [] {
      var mid, a := Exec(g, run[..|run| - 1]).value, run[|run| - 1];
      RunFollows(g, run[..|run| - 1], w, s);
      if a.Base? {
        StepFollows(mid.base, a.a, w, s);
      }
    }
  }

  /** A send stays pending until it starts, and no later fan-out makes it again. */
  lemma {:induction false} SendWaits(g: System, run: seq<Step>, w: nat, x: Send)
    requires Inv(g) && Exec(g, run).Some? && w < |g.sends| && x.fanout < g.fanouts && Start(w, x) !in run
    ensures var g' := Exec(g, run).value;
            g.fanouts <= g'.fanouts && |g'.sends| == |g.sends| && (x in g'.sends[w] <==> x in g.sends[w])
  {
    if run != [] {
      var front, a := run[..|run| - 1], run[|run| - 1];
      assert run == front + [a];
      SendWaits(g, front, w, x);
    }
  }

  /** A fan-out to the room begins; later its worker has acted on a revocation the socket is stale
      to. If it has not started yet, a send of that fan-out to the socket can still start exactly when
      the socket could be served when it was listed, and the worker had not acted on the revocation
      by then or the socket was being refused. */
  lemma StaleSocketIsSentToIff(g: System, w: nat, room: Room, exclude: Option<Socket>, run: seq<Step>, s: Socket,
                               i: nat)
    requires Inv(g) && Enabled(g, List(w, room, exclude)) && Exec(After(g, List(w, room, exclude)), run).Some?
    requires R.Joined(g.base, w, s) && g.base.workers[w].sockets[s].room == room && exclude != Some(s)
    requires Start(w, SendTo(g, w, s)) !in run
    requires var b' := Exec(After(g, List(w, room, exclude)), run).value.base;
             R.Stale(b', w, s, i) && i in b'.workers[w].processed
    ensures Enabled(Exec(After(g, List(w, room, exclude)), run).value, Start(w, SendTo(g, w, s))) <==>
              MayServe(g.base.workers[w].idx, s)
              && (i !in g.base.workers[w].processed || g.base.workers[w].sockets[s].phase.Refused?)
  {
    var listed := After(g, List(w, room, exclude));
    StepKeepsInv(g, List(w, room, exclude));
    SendWaits(listed, run, w, SendTo(g, w, s));
    RunFollows(listed, run, w, s);
    TargetIsJoined(g.base, w, s, room, exclude);
    SendIsListedIff(g, w, room, exclude, s);
    if i in g.base.workers[w].processed && MayServe(g.base.workers[w].idx, s) {
      assert R.WorkerInv(g.base.workers[w], g.base.commits, g.base.published, w);
      StaleBefore(g.base, Exec(listed, run).value.base, w, s, i);
      StaleTargetIsRefused(g.base, w, s, i);
    }
  }

  lemma SendIsListedIff(g: System, w: nat, room: Room, exclude: Option<Socket>, s: Socket)
    requires Inv(g) && Enabled(g, List(w, room, exclude))
    ensures SendTo(g, w, s) in After(g, List(w, room, exclude)).sends[w] <==>
              s in Targets(g.base.workers[w].idx, room, exclude)
  {
    assert SendTo(g, w, s) !in g.sends[w];
    if SendTo(g, w, s) in Listed(g, w, room, exclude) {
      var t :| t in Targets(g.base.workers[w].idx, room, exclude) && SendTo(g, w, t) == SendTo(g, w, s);
      assert t == s;
    }
  }

  // ---- it happens -----------------------------------------------------------------------------

  lemma ReachableStep(g: System, a: Step)
    requires Reachable(g) && Enabled(g, a)
    ensures Reachable(After(g, a))
  {
    var start, run :| Initial(start) && Exec(start, run) == Some(g);
    assert (run + [a])[..|run + [a]| - 1] == run;
    assert Exec(start, run + [a]) == Some(After(g, a));
  }

  function Quiet(b: R.System): System {
    System(b, seq(|b.workers|, _ => {}), 0)
  }

  lemma {:induction false} QuietRun(start: R.System, run: seq<R.Step>)
    requires R.Initial(start) && R.Exec(start, run).Some?
    ensures Reachable(Quiet(R.Exec(start, run).value))
  {
    if run == [] {
      assert Exec(Quiet(start), []) == Some(Quiet(start));
    } else {
      var mid, a := R.Exec(start, run[..|run| - 1]).value, run[|run| - 1];
      QuietRun(start, run[..|run| - 1]);
      QuietStep(mid, a);
    }
  }

  lemma QuietStep(b: R.System, a: R.Step)
    requires Reachable(Quiet(b)) && R.Enabled(b, a)
    ensures Reachable(Quiet(R.After(b, a)))
  {
    ReachableStep(Quiet(b), Base(a));
    assert After(Quiet(b), Base(a)) == Quiet(R.After(b, a));
  }

  const JOINED := R.WAITING.(
    idx := AfterJoin(EMPTY, R.ROOM, 7, "u"),
    sockets := map[7 := R.Handshake("u", R.ROOM, (0, 0), R.Serving(0))])

  const PENDING := Send(0, 7, {}, false)

  const ROOM_OF_ONE := System(R.System([], {}, [JOINED]), [{}], 0)

  lemma WaitingJoins()
    ensures var b := R.System([], {}, [R.WAITING]);
            R.Enabled(b, R.Join(0, 7)) && R.After(b, R.Join(0, 7)) == R.System([], {}, [JOINED])
  {
    var b := R.System([], {}, [R.WAITING]);
    assert EpochPair(R.WAITING.idx, "u") == (0, 0);
    assert R.WAITING.sockets[7 := R.Handshake("u", R.ROOM, (0, 0), R.Serving(0))] == JOINED.sockets;
    assert R.Local(b, R.Join(0, 7)) == JOINED;
    assert b.workers[0 := JOINED] == [JOINED];
  }

  lemma RoomOfOneIsReachable()
    ensures Reachable(ROOM_OF_ONE)
  {
    R.AuthorizedHandshakeIsReachable();
    var b := R.System([], {}, [R.WAITING]);
    var start, run :| R.Initial(start) && R.Exec(start, run) == Some(b);
    QuietRun(start, run);
    WaitingJoins();
    QuietStep(b, R.Join(0, 7));
    assert Quiet(R.After(b, R.Join(0, 7))) == ROOM_OF_ONE;
  }

  lemma ServedSocketIsListed()
    ensures Reachable(ROOM_OF_ONE.(sends := [{PENDING}], fanouts := 1))
  {
    RoomOfOneIsReachable();
    ReachableStep(ROOM_OF_ONE, List(0, R.ROOM, None));
    assert Targets(JOINED.idx, R.ROOM, None) == {7};
    assert SendTo(ROOM_OF_ONE, 0, 7) == PENDING;
    assert Listed(ROOM_OF_ONE, 0, R.ROOM, None) == {PENDING};
    assert ROOM_OF_ONE.sends[0] + {PENDING} == {PENDING};
    assert ROOM_OF_ONE.sends[0 := {PENDING}] == [{PENDING}];
  }

  /** A member of the room is listed, then evicted and marked, and then the send to them starts. */
  lemma LateSendReachesEvictedSocket()
    ensures exists g, x :: Reachable(g) && Enabled(g, Start(0, x)) && R.Stale(g.base, 0, x.s, 0)
              && 0 in g.base.workers[0].processed && !MayServe(g.base.workers[0].idx, x.s) && !x.refused
  {
    ServedSocketIsListed();
    var g := ROOM_OF_ONE.(sends := [{PENDING}], fanouts := 1);
    ReachableStep(g, Base(R.Commit(R.EVICTION)));
    var g1 := After(g, Base(R.Commit(R.EVICTION)));
    assert g1 == System(R.System([R.EVICTION], {}, [JOINED]), [{PENDING}], 1);
    ReachableStep(g1, Base(R.Evict(0, 0)));
    var g2 := After(g1, Base(R.Evict(0, 0)));
    assert g2.sends == [{PENDING}] && g2.base.commits == [R.EVICTION];
    assert g2.base.workers[0].sockets == JOINED.sockets && 0 in g2.base.workers[0].processed;
    R.EvictingAbsentUser(R.EVICTION);
    assert R.Stale(g2.base, 0, 7, 0);
    ReachableInv(g2);
    if MayServe(g2.base.workers[0].idx, 7) {
      StaleTargetIsRefused(g2.base, 0, 7, 0);
    }
    assert Enabled(g2, Start(0, PENDING));
  }
}
