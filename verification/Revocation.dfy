/** The cross-worker revocation protocol: any number of workers, each with the indexes of its
    `ConnectionManager`, the handshakes and receive loops of its sockets, and a lossy subscription
    to the relay. Every step is one stretch of code between two awaits. */
module Revocation {
  import opened Options
  import opened ConnectionIndexes

  /** A revocation that has been committed to the database, and what its eviction names. */
  datatype Eviction = Eviction(users: seq<UserId>, filter: Filter)

  /** Where a socket's `room_socket` coroutine stands. `seen` is the number of revocations that
      were committed when its authorize read ran, so revocation i is unseen when `seen <= i`. */
  datatype Phase =
    | Snapshotted            // epoch taken, database not read yet
    | Authorized(seen: nat)  // allowed in, not indexed yet
    | Refused(seen: nat)     // joined, but the epoch re-check failed; being closed
    | Serving(seen: nat)     // waiting for the next inbound frame
    | Handling(seen: nat)    // acting on a frame it was allowed to act on
    | Leaving(seen: nat)     // loop left, clean-up not run yet
    | Gone

  datatype Handshake = Handshake(user: UserId, room: Room, epoch: (nat, nat), phase: Phase)

  /** A relayed eviction: who published it and which committed revocation it carries. */
  datatype Message = Message(origin: nat, eviction: nat)

  /** One worker. `up` says that the broker delivers to it; `listening` that its listener runs,
      as opposed to having resubscribed with the gap handler still to come. `processed` and
      `issued` are history: the revocations it has acted on, and those it emitted itself. */
  datatype Worker = Worker(
    idx: Indexes,
    sockets: map<Socket, Handshake>,
    up: bool,
    listening: bool,
    inbox: seq<Message>,
    processed: set<nat>,
    issued: set<nat>)

  datatype System = System(commits: seq<Eviction>, published: set<nat>, workers: seq<Worker>)

  datatype Step =
    | Commit(e: Eviction)                              // a revocation becomes durable
    | Evict(w: nat, i: nat)                            // evict_users marks on the emitting worker
    | Publish(w: nat, i: nat)                          // it reaches the broker, possibly again
    | Drop(w: nat, kept: nat)                          // the stream dies; a prefix was received
    | Resubscribe(w: nat)                              // the supervisor's new subscription
    | Gap(w: nat)                                      // on_gap
    | Receive(w: nat)                                  // on_relayed
    | Snapshot(w: nat, s: Socket, user: UserId, room: Room)
    | Authorize(w: nat, s: Socket)
    | Abort(w: nat, s: Socket)                         // any refusal before the join
    | Join(w: nat, s: Socket)                          // join and re-check, with no await between
    | Frame(w: nat, s: Socket)                         // may_serve on an inbound frame
    | Handled(w: nat, s: Socket)
    | Disconnect(w: nat, s: Socket)
    | Cleanup(w: nat, s: Socket)                       // leave
    | DropDead(w: nat, room: Room, dead: seq<Socket>)  // after a broadcast's failed sends

  function UpTo(n: nat): (r: set<nat>)
    ensures forall i: nat :: i in r <==> i < n
  {
    if n == 0 then {} else UpTo(n - 1) + {n - 1}
  }

  // ---- steps ---------------------------------------------------------------------------------

  /** Evicting works on the distinct non-empty ids, and does nothing when there are none. */
  function Mark(x: Indexes, e: Eviction): Indexes {
    AfterMark(x, Distinct(e.users), e.filter)
  }

  predicate Names(e: Eviction, user: UserId, room: Room) {
    user in Distinct(e.users) && Matches(e.filter, room)
  }

  predicate InIndex(p: Phase) {
    p.Refused? || p.Serving? || p.Handling? || p.Leaving?
  }

  ghost predicate At(g: System, w: nat, s: Socket) {
    w < |g.workers| && s in g.workers[w].sockets
  }

  ghost predicate Enabled(g: System, a: Step) {
    match a
    case Commit(_) => true
    case Evict(w, i) => w < |g.workers| && i < |g.commits|
    case Publish(w, i) => w < |g.workers| && i in g.workers[w].issued
    case Drop(w, kept) => w < |g.workers| && kept <= |g.workers[w].inbox|
    case Resubscribe(w) => w < |g.workers| && g.workers[w].listening
    case Gap(w) => w < |g.workers| && !g.workers[w].listening
    case Receive(w) => w < |g.workers| && g.workers[w].listening && g.workers[w].inbox != []
    case Snapshot(w, s, _, _) => w < |g.workers| && s !in g.workers[w].sockets
    case Authorize(w, s) => At(g, w, s) && g.workers[w].sockets[s].phase.Snapshotted?
    case Abort(w, s) => At(g, w, s)
        && (g.workers[w].sockets[s].phase.Snapshotted? || g.workers[w].sockets[s].phase.Authorized?)
    case Join(w, s) => At(g, w, s) && g.workers[w].sockets[s].phase.Authorized?
    case Frame(w, s) => At(g, w, s) && g.workers[w].sockets[s].phase.Serving?
    case Handled(w, s) => At(g, w, s) && g.workers[w].sockets[s].phase.Handling?
    case Disconnect(w, s) => At(g, w, s)
        && (g.workers[w].sockets[s].phase.Serving? || g.workers[w].sockets[s].phase.Handling?)
    case Cleanup(w, s) => At(g, w, s)
        && (g.workers[w].sockets[s].phase.Refused? || g.workers[w].sockets[s].phase.Leaving?)
    case DropDead(w, room, dead) =>
      w < |g.workers| && forall s | s in dead :: At(g, w, s) && g.workers[w].sockets[s].room == room
  }

  function Move(k: Worker, s: Socket, p: Phase): Worker
    requires s in k.sockets
  {
    k.(sockets := k.sockets[s := k.sockets[s].(phase := p)])
  }

  /** What a step does to the one worker it happens on; `n` revocations are committed. */
  ghost function Local(g: System, a: Step): Worker
    requires Enabled(g, a) && !a.Commit? && !a.Publish?
  {
    var k := g.workers[a.w];
    match a
    case Evict(w, i) =>
      k.(idx := Mark(k.idx, g.commits[i]), processed := k.processed + {i}, issued := k.issued + {i})
    case Drop(w, kept) => k.(up := false, inbox := k.inbox[..kept])
    case Resubscribe(w) => k.(up := true, listening := false, inbox := [])
    case Gap(w) =>
      k.(idx := AfterGap(k.idx), listening := true, processed := k.processed + UpTo(|g.commits|))
    case Receive(w) =>
      var m := k.inbox[0];
      var k' := k.(inbox := k.inbox[1..]);
      if m.origin == w || m.eviction >= |g.commits| then k'
      else k'.(idx := Mark(k.idx, g.commits[m.eviction]), processed := k.processed + {m.eviction})
    case Snapshot(w, s, user, room) =>
      k.(sockets := k.sockets[s := Handshake(user, room, EpochPair(k.idx, user), Snapshotted)])
    case Authorize(w, s) => Move(k, s, Authorized(|g.commits|))
    case Abort(w, s) => Move(k, s, Gone)
    case Join(w, s) =>
      var h := k.sockets[s];
      var k' := k.(idx := AfterJoin(k.idx, h.room, s, h.user));
      Move(k', s, if EpochPair(k.idx, h.user) == h.epoch then Serving(h.phase.seen) else Refused(h.phase.seen))
    case Frame(w, s) =>
      var seen := k.sockets[s].phase.seen;
      Move(k, s, if MayServe(k.idx, s) then Handling(seen) else Leaving(seen))
    case Handled(w, s) => Move(k, s, Serving(k.sockets[s].phase.seen))
    case Disconnect(w, s) => Move(k, s, Leaving(k.sockets[s].phase.seen))
    case Cleanup(w, s) => Move(k.(idx := AfterLeave(k.idx, k.sockets[s].room, s)), s, Gone)
    case DropDead(w, room, dead) => k.(idx := AfterDrop(k.idx, room, dead))
  }

  /** A published eviction reaches every worker the broker holds a live subscription for. */
  function Delivered(ks: seq<Worker>, m: Message): seq<Worker> {
    seq(|ks|, j requires 0 <= j < |ks| => if ks[j].up then ks[j].(inbox := ks[j].inbox + [m]) else ks[j])
  }

  ghost function After(g: System, a: Step): System
    requires Enabled(g, a)
  {
    match a
    case Commit(e) => g.(commits := g.commits + [e])
    case Publish(w, i) => g.(published := g.published + {i}, workers := Delivered(g.workers, Message(w, i)))
    case _ => g.(workers := g.workers[a.w := Local(g, a)])
  }

  ghost predicate Initial(g: System) {
    && g.commits == [] && g.published == {}
    && forall k | k in g.workers :: k == Worker(EMPTY, map[], true, true, [], {}, {})
  }

  /** The system after a run, or None when some step of it was not possible. */
  ghost function Exec(start: System, run: seq<Step>): Option<System> {
    if run == [] then Some(start)
    else
      var mid := Exec(start, run[..|run| - 1]);
      var a := run[|run| - 1];
      if mid.Some? && Enabled(mid.value, a) then Some(After(mid.value, a)) else None
  }

  ghost predicate Reachable(g: System) {
    exists start, run :: Initial(start) && Exec(start, run) == Some(g)
  }

  // ---- the invariant -------------------------------------------------------------------------

  /** Revocation `i` postdates the authorize read of a handshake in phase `p`. */
  predicate Unseen(p: Phase, i: nat) {
    !p.Snapshotted? && !p.Gone? && p.seen <= i
  }

  /** The epoch a handshake snapshotted is behind: an eviction naming it, or a gap, came since. */
  predicate Behind(x: Indexes, h: Handshake) {
    h.epoch.0 < Epoch(x, h.user) || h.epoch.1 < x.gapEpoch
  }

  ghost predicate Waiting(x: Indexes, processed: set<nat>, commits: seq<Eviction>, s: Socket, h: Handshake) {
    && s !in x.meta
    && h.epoch.0 <= Epoch(x, h.user) && h.epoch.1 <= x.gapEpoch
    && forall i | i in processed && i < |commits| && Unseen(h.phase, i) && h.user in Distinct(commits[i].users) ::
        Behind(x, h)
  }

  ghost predicate Served(x: Indexes, processed: set<nat>, commits: seq<Eviction>, s: Socket, h: Handshake) {
    && (s in x.meta ==> x.meta[s] == Meta(h.user, h.room))
    && (!h.phase.Refused? ==>
          forall i | i in processed && i < |commits| && Unseen(h.phase, i) && Names(commits[i], h.user, h.room) ::
              !MayServe(x, s))
  }

  ghost predicate SocketInv(x: Indexes, processed: set<nat>, commits: seq<Eviction>, s: Socket, h: Handshake) {
    && (h.phase.Snapshotted? || h.phase.Authorized? ==> Waiting(x, processed, commits, s, h))
    && (InIndex(h.phase) ==> Served(x, processed, commits, s, h))
    && (h.phase.Gone? ==> s !in x.meta)
  }

  ghost predicate WorkerInv(k: Worker, commits: seq<Eviction>, published: set<nat>, w: nat) {
    && Agree(k.idx)
    && k.idx.meta.Keys <= k.sockets.Keys
    && k.issued <= k.processed
    && (forall i | i in k.processed :: i < |commits|)
    && (forall m | m in k.inbox :: m.eviction < |commits| && (m.origin == w ==> m.eviction in k.issued))
    && (forall s | s in k.sockets :: SocketInv(k.idx, k.processed, commits, s, k.sockets[s]))
    && (k.up && k.listening ==> forall i | i in published :: i in k.processed || InInbox(k, i))
  }

  ghost predicate InInbox(k: Worker, i: nat) {
    exists m :: m in k.inbox && m.eviction == i
  }

  ghost predicate Inv(g: System) {
    && (forall i | i in g.published :: i < |g.commits|)
    && forall w | 0 <= w < |g.workers| :: WorkerInv(g.workers[w], g.commits, g.published, w)
  }

  // ---- every step keeps it -------------------------------------------------------------------

  /** Acting on revocation `i`: sockets in the index are marked, waiting handshakes fall behind. */
  lemma MarkKeepsSockets(k: Worker, commits: seq<Eviction>, published: set<nat>, w: nat, i: nat)
    requires WorkerInv(k, commits, published, w) && i < |commits|
    ensures var x := Mark(k.idx, commits[i]);
            && Agree(x) && x.meta == k.idx.meta
            && forall s | s in k.sockets :: SocketInv(x, k.processed + {i}, commits, s, k.sockets[s])
  {
    var e := commits[i];
    var x := Mark(k.idx, e);
    MarkMeaning(k.idx, Distinct(e.users), e.filter);
    MarkFrame(k.idx, Distinct(e.users), e.filter);
    forall u | u in Distinct(e.users) ensures Epoch(x, u) > Epoch(k.idx, u) {
      assert multiset(Distinct(e.users))[u] > 0;
    }
    forall s | s in k.sockets ensures SocketInv(x, k.processed + {i}, commits, s, k.sockets[s]) {
      assert SocketInv(k.idx, k.processed, commits, s, k.sockets[s]);
      MarkKeepsSocket(k.idx, x, k.processed, commits, i, s, k.sockets[s]);
    }
  }

  lemma MarkKeepsSocket(x: Indexes, x': Indexes, processed: set<nat>, commits: seq<Eviction>, i: nat, s: Socket,
                        h: Handshake)
    requires SocketInv(x, processed, commits, s, h) && i < |commits|
    requires x'.meta == x.meta && x'.gapEpoch == x.gapEpoch && Epoch(x', h.user) >= Epoch(x, h.user)
    requires h.user in Distinct(commits[i].users) ==> Epoch(x', h.user) > Epoch(x, h.user)
    requires !MayServe(x, s) ==> !MayServe(x', s)
    requires s in x.meta && x.meta[s] == Meta(h.user, h.room) && Names(commits[i], h.user, h.room) ==> !MayServe(x', s)
    ensures SocketInv(x', processed + {i}, commits, s, h)
  {
  }

  lemma GapKeepsSockets(k: Worker, commits: seq<Eviction>, published: set<nat>, w: nat)
    requires WorkerInv(k, commits, published, w)
    ensures var x := AfterGap(k.idx);
            && Agree(x)
            && forall s | s in k.sockets :: SocketInv(x, k.processed + UpTo(|commits|), commits, s, k.sockets[s])
  {
    GapMeaning(k.idx);
    forall s | s in k.sockets
      ensures SocketInv(AfterGap(k.idx), k.processed + UpTo(|commits|), commits, s, k.sockets[s])
    {
      assert SocketInv(k.idx, k.processed, commits, s, k.sockets[s]);
    }
  }

  /** Steps that only move one socket. */
  lemma SocketStepKeepsWorker(g: System, a: Step)
    requires Inv(g) && Enabled(g, a)
    requires a.Snapshot? || a.Authorize? || a.Abort? || a.Frame? || a.Handled? || a.Disconnect?
    ensures WorkerInv(Local(g, a), g.commits, g.published, a.w)
  {
    var k := g.workers[a.w];
    var k' := Local(g, a);
    assert WorkerInv(k, g.commits, g.published, a.w);
    SocketStepMovesOne(g, a);
    forall s | s in k'.sockets ensures SocketInv(k'.idx, k'.processed, g.commits, s, k'.sockets[s]) {
      if s != a.s {
        assert SocketInv(k.idx, k.processed, g.commits, s, k.sockets[s]);
      }
    }
    if k'.up && k'.listening {
      forall i | i in g.published ensures i in k'.processed || InInbox(k', i) {
        assert i in k.processed || InInbox(k, i);
      }
    }
  }

  lemma SocketStepMovesOne(g: System, a: Step)
    requires Inv(g) && Enabled(g, a)
    requires a.Snapshot? || a.Authorize? || a.Abort? || a.Frame? || a.Handled? || a.Disconnect?
    ensures var k, k' := g.workers[a.w], Local(g, a);
            a.s in k'.sockets && k' == k.(sockets := k.sockets[a.s := k'.sockets[a.s]])
            && SocketInv(k.idx, k.processed, g.commits, a.s, k'.sockets[a.s])
  {
    var k := g.workers[a.w];
    assert WorkerInv(k, g.commits, g.published, a.w);
    assert a.s in k.sockets ==> SocketInv(k.idx, k.processed, g.commits, a.s, k.sockets[a.s]);
  }

  lemma JoinKeepsWorker(g: System, a: Step)
    requires Inv(g) && Enabled(g, a) && a.Join?
    ensures WorkerInv(Local(g, a), g.commits, g.published, a.w)
  {
    var k := g.workers[a.w];
    var k' := Local(g, a);
    var h := k.sockets[a.s];
    assert WorkerInv(k, g.commits, g.published, a.w);
    assert SocketInv(k.idx, k.processed, g.commits, a.s, h);
    JoinKeepsAgreement(k.idx, h.room, a.s, h.user);
    forall s | s in k'.sockets ensures SocketInv(k'.idx, k'.processed, g.commits, s, k'.sockets[s]) {
      assert SocketInv(k.idx, k.processed, g.commits, s, k.sockets[s]);
      if s == a.s && k'.sockets[s].phase.Serving? {
        assert !Behind(k.idx, h);
      }
    }
    if k'.up && k'.listening {
      forall i | i in g.published ensures i in k'.processed || InInbox(k', i) {
        assert i in k.processed || InInbox(k, i);
      }
    }
  }

  lemma LeaveKeepsWorker(g: System, a: Step)
    requires Inv(g) && Enabled(g, a) && (a.Cleanup? || a.DropDead?)
    ensures WorkerInv(Local(g, a), g.commits, g.published, a.w)
  {
    var k := g.workers[a.w];
    var k' := Local(g, a);
    assert WorkerInv(k, g.commits, g.published, a.w);
    forall s | s in k.sockets ensures SocketInv(k.idx, k.processed, g.commits, s, k.sockets[s]) {}
    if a.Cleanup? {
      LeaveKeepsAgreement(k.idx, k.sockets[a.s].room, a.s);
    } else {
      forall s | s in a.dead && s in k.idx.meta ensures k.idx.meta[s].room == a.room {
        assert SocketInv(k.idx, k.processed, g.commits, s, k.sockets[s]);
      }
      DropKeepsAgreement(k.idx, a.room, a.dead);
    }
    forall s | s in k'.sockets ensures SocketInv(k'.idx, k'.processed, g.commits, s, k'.sockets[s]) {
      assert SocketInv(k.idx, k.processed, g.commits, s, k.sockets[s]);
    }
    if k'.up && k'.listening {
      forall i | i in g.published ensures i in k'.processed || InInbox(k', i) {
        assert i in k.processed || InInbox(k, i);
      }
    }
  }

  lemma RelayStepKeepsWorker(g: System, a: Step)
    requires Inv(g) && Enabled(g, a)
    requires a.Evict? || a.Drop? || a.Resubscribe? || a.Gap? || a.Receive?
    ensures WorkerInv(Local(g, a), g.commits, g.published, a.w)
  {
    var k := g.workers[a.w];
    var k' := Local(g, a);
    assert WorkerInv(k, g.commits, g.published, a.w);
    match a {
      case Evict(w, i) => MarkKeepsSockets(k, g.commits, g.published, w, i);
      case Gap(w) => GapKeepsSockets(k, g.commits, g.published, w);
      case Receive(w) =>
        assert k.inbox[0] in k.inbox;
        MarkKeepsSockets(k, g.commits, g.published, w, k.inbox[0].eviction);
      case _ =>
    }
    if k'.up && k'.listening {
      forall i | i in g.published ensures i in k'.processed || InInbox(k', i) {
        if !a.Gap? {
          assert i in k.processed || InInbox(k, i);
          if i !in k'.processed {
            var m :| m in k.inbox && m.eviction == i;
            if a.Receive? {
              assert m in k.inbox[1..];
            }
            assert m in k'.inbox;
          }
        }
      }
    }
  }

  lemma CommitKeepsWorker(k: Worker, commits: seq<Eviction>, published: set<nat>, w: nat, e: Eviction)
    requires WorkerInv(k, commits, published, w)
    ensures WorkerInv(k, commits + [e], published, w)
  {
    forall s | s in k.sockets ensures SocketInv(k.idx, k.processed, commits + [e], s, k.sockets[s]) {
      assert SocketInv(k.idx, k.processed, commits, s, k.sockets[s]);
    }
  }

  lemma PublishKeepsWorker(g: System, a: Step, j: nat)
    requires Inv(g) && Enabled(g, a) && a.Publish? && j < |g.workers|
    ensures WorkerInv(After(g, a).workers[j], g.commits, After(g, a).published, j)
  {
    var k := g.workers[j];
    var k' := After(g, a).workers[j];
    assert WorkerInv(g.workers[a.w], g.commits, g.published, a.w);
    assert WorkerInv(k, g.commits, g.published, j);
    forall s | s in k'.sockets ensures SocketInv(k'.idx, k'.processed, g.commits, s, k'.sockets[s]) {
      assert SocketInv(k.idx, k.processed, g.commits, s, k.sockets[s]);
    }
    if k'.up && k'.listening {
      assert k'.inbox[|k.inbox|] == Message(a.w, a.i);
      forall i | i in After(g, a).published ensures i in k'.processed || InInbox(k', i) {
        if i in g.published {
          assert i in k.processed || InInbox(k, i);
          if i !in k.processed {
            var m :| m in k.inbox && m.eviction == i;
            assert m in k'.inbox;
          }
        }
      }
    }
  }

  lemma LocalKeepsWorker(g: System, a: Step)
    requires Inv(g) && Enabled(g, a) && !a.Commit? && !a.Publish?
    ensures WorkerInv(Local(g, a), g.commits, g.published, a.w)
  {
    if a.Join? {
      JoinKeepsWorker(g, a);
    } else if a.Cleanup? || a.DropDead? {
      LeaveKeepsWorker(g, a);
    } else if a.Evict? || a.Drop? || a.Resubscribe? || a.Gap? || a.Receive? {
      RelayStepKeepsWorker(g, a);
    } else {
      SocketStepKeepsWorker(g, a);
    }
  }

  lemma StepKeepsInv(g: System, a: Step)
    requires Inv(g) && Enabled(g, a)
    ensures Inv(After(g, a))
  {
    var g' := After(g, a);
    if a.Commit? {
      forall j | 0 <= j < |g'.workers| ensures WorkerInv(g'.workers[j], g'.commits, g'.published, j) {
        CommitKeepsWorker(g.workers[j], g.commits, g.published, j, a.e);
      }
    } else if a.Publish? {
      assert WorkerInv(g.workers[a.w], g.commits, g.published, a.w);
      forall j | 0 <= j < |g'.workers| ensures WorkerInv(g'.workers[j], g'.commits, g'.published, j) {
        PublishKeepsWorker(g, a, j);
      }
    } else {
      LocalKeepsWorker(g, a);
    }
  }

  lemma {:induction false} RunKeepsInv(start: System, run: seq<Step>)
    requires Initial(start) && Exec(start, run).Some?
    ensures Inv(Exec(start, run).value)
  {
    if run == [] {
      forall w | 0 <= w < |start.workers| ensures WorkerInv(start.workers[w], start.commits, start.published, w) {
        assert start.workers[w] in start.workers;
      }
    } else {
      RunKeepsInv(start, run[..|run| - 1]);
      StepKeepsInv(Exec(start, run[..|run| - 1]).value, run[|run| - 1]);
    }
  }

  // ---- what the protocol guarantees ----------------------------------------------------------

  /** Socket `s` of worker `w` was authorized before committed revocation `i`, which names it. */
  ghost predicate Stale(g: System, w: nat, s: Socket, i: nat) {
    && At(g, w, s) && i < |g.commits|
    && var h := g.workers[w].sockets[s];
       Unseen(h.phase, i) && Names(g.commits[i], h.user, h.room)
  }

  /** Once a worker has acted on a revocation, whether it emitted it, heard it over the relay or
      ran the gap handler after losing it, no inbound frame of a socket the revocation names and
      whose authorize read came before its commit is acted on there, in any interleaving. */
  lemma NoStaleFrameIsServed(g: System, w: nat, s: Socket, i: nat)
    requires Reachable(g) && Stale(g, w, s, i) && i in g.workers[w].processed
    requires Enabled(g, Frame(w, s))
    ensures After(g, Frame(w, s)).workers[w].sockets[s].phase == Leaving(g.workers[w].sockets[s].phase.seen)
  {
    ReachableInv(g);
    assert WorkerInv(g.workers[w], g.commits, g.published, w);
    assert SocketInv(g.workers[w].idx, g.workers[w].processed, g.commits, s, g.workers[w].sockets[s]);
  }

  /** A joining handshake that missed a processed revocation is refused at the re-check, so it
      never reaches the receive loop. */
  lemma NoStaleHandshakeIsAdmitted(g: System, w: nat, s: Socket, i: nat)
    requires Reachable(g) && Stale(g, w, s, i) && i in g.workers[w].processed
    requires Enabled(g, Join(w, s))
    ensures After(g, Join(w, s)).workers[w].sockets[s].phase == Refused(g.workers[w].sockets[s].phase.seen)
  {
    ReachableInv(g);
    assert WorkerInv(g.workers[w], g.commits, g.published, w);
    assert SocketInv(g.workers[w].idx, g.workers[w].processed, g.commits, s, g.workers[w].sockets[s]);
  }

  /** Outbound: a broadcast addresses a stale socket of a processed revocation exactly when that
      socket is still indexed and unmarked with its refusal in flight (the join puts it in the
      room before the re-check fails, and only the later clean-up takes it out). */
  lemma StaleSocketIsAddressedIffRefusing(g: System, w: nat, s: Socket, i: nat, room: Room, exclude: Option<Socket>)
    requires Reachable(g) && Stale(g, w, s, i) && i in g.workers[w].processed
    requires g.workers[w].sockets[s].room == room && exclude != Some(s)
    ensures s in Targets(g.workers[w].idx, room, exclude) <==>
              g.workers[w].sockets[s].phase.Refused? && MayServe(g.workers[w].idx, s)
  {
    ReachableInv(g);
    assert WorkerInv(g.workers[w], g.commits, g.published, w);
    assert SocketInv(g.workers[w].idx, g.workers[w].processed, g.commits, s, g.workers[w].sockets[s]);
    TargetsMeaning(g.workers[w].idx, room, exclude);
  }

  /** The lossy bus loses no published revocation for good: whenever a worker has a live
      subscription, has run the gap handler for its last drop and has drained its inbox, it has
      acted on every revocation published so far. */
  lemma CaughtUpWorkerHasProcessedEverything(g: System, w: nat)
    requires Reachable(g) && w < |g.workers|
    requires g.workers[w].up && g.workers[w].listening && g.workers[w].inbox == []
    ensures g.published <= g.workers[w].processed
  {
    ReachableInv(g);
    assert WorkerInv(g.workers[w], g.commits, g.published, w);
    forall i | i in g.published ensures i in g.workers[w].processed {
      assert i in g.workers[w].processed || InInbox(g.workers[w], i);
    }
  }

  /** A socket that may not be served after its join may never be served again, whatever happens,
      even after `leave` has cleared its revoked mark. */
  lemma {:induction false} UnservableStaysUnservable(g: System, run: seq<Step>, w: nat, s: Socket)
    requires Inv(g) && Exec(g, run).Some? && At(g, w, s)
    requires InIndex(g.workers[w].sockets[s].phase) || g.workers[w].sockets[s].phase.Gone?
    requires !MayServe(g.workers[w].idx, s)
    ensures var g' := Exec(g, run).value;
            && Inv(g') && At(g', w, s)
            && (InIndex(g'.workers[w].sockets[s].phase) || g'.workers[w].sockets[s].phase.Gone?)
            && !MayServe(g'.workers[w].idx, s)
  {
    if run != [] {
      var front := run[..|run| - 1];
      UnservableStaysUnservable(g, front, w, s);
      var mid, a := Exec(g, front).value, run[|run| - 1];
      StepKeepsInv(mid, a);
      if !a.Commit? && !a.Publish? && a.w == w {
        UnservableStep(mid, a, s);
        JoinedStaysJoined(mid, a, s);
      }
    }
  }

  lemma JoinedStaysJoined(g: System, a: Step, s: Socket)
    requires Enabled(g, a) && !a.Commit? && !a.Publish? && At(g, a.w, s)
    requires InIndex(g.workers[a.w].sockets[s].phase) || g.workers[a.w].sockets[s].phase.Gone?
    ensures s in Local(g, a).sockets
    ensures InIndex(Local(g, a).sockets[s].phase) || Local(g, a).sockets[s].phase.Gone?
  {
  }

  lemma UnservableStep(g: System, a: Step, s: Socket)
    requires Inv(g) && Enabled(g, a) && !a.Commit? && !a.Publish? && At(g, a.w, s)
    requires InIndex(g.workers[a.w].sockets[s].phase) || g.workers[a.w].sockets[s].phase.Gone?
    requires !MayServe(g.workers[a.w].idx, s)
    ensures !MayServe(Local(g, a).idx, s)
  {
    var k := g.workers[a.w];
    assert WorkerInv(k, g.commits, g.published, a.w);
    match a {
      case Evict(_, i) => MarkFrame(k.idx, Distinct(g.commits[i].users), g.commits[i].filter);
      case Receive(_) =>
        assert k.inbox[0] in k.inbox;
        var e := g.commits[k.inbox[0].eviction];
        MarkFrame(k.idx, Distinct(e.users), e.filter);
      case DropDead(_, room, dead) =>
        forall t | t in dead && t in k.idx.meta ensures k.idx.meta[t].room == room {
          assert SocketInv(k.idx, k.processed, g.commits, t, k.sockets[t]);
        }
        DropKeepsAgreement(k.idx, room, dead);
      case _ =>
    }
  }

  /** This step ends the deliveries to a socket of worker `w`: the worker acts on a revocation that
      names it or on a gap, drops it, or runs its clean-up. */
  ghost predicate Silences(g: System, a: Step, w: nat, s: Socket) {
    Enabled(g, a) && At(g, w, s) && !a.Commit? && !a.Publish? && a.w == w &&
    var h := g.workers[w].sockets[s];
    match a
    case Evict(_, i) => Names(g.commits[i], h.user, h.room)
    case Receive(_) =>
      var m := g.workers[w].inbox[0];
      m.origin != w && m.eviction < |g.commits| && Names(g.commits[m.eviction], h.user, h.room)
    case Gap(_) => true
    case DropDead(_, _, dead) => s in dead
    case Cleanup(_, t) => t == s
    case _ => false
  }

  ghost predicate Refusing(g: System, w: nat, s: Socket) {
    At(g, w, s) && g.workers[w].sockets[s].phase.Refused? && MayServe(g.workers[w].idx, s)
  }

  /** A refused socket is served deliveries after a step exactly when the step does not end them. */
  lemma RefusingStep(g: System, a: Step, w: nat, s: Socket)
    requires Inv(g) && Enabled(g, a) && !a.Commit? && !a.Publish? && a.w == w && Refusing(g, w, s)
    ensures s in Local(g, a).sockets && (MayServe(Local(g, a).idx, s) <==> !Silences(g, a, w, s))
    ensures !Silences(g, a, w, s) ==> Local(g, a).sockets[s] == g.workers[w].sockets[s]
  {
    var k := g.workers[w];
    assert WorkerInv(k, g.commits, g.published, w);
    assert SocketInv(k.idx, k.processed, g.commits, s, k.sockets[s]);
    match a {
      case Evict(_, i) => MarkServes(k.idx, g.commits[i], s);
      case Receive(_) =>
        assert k.inbox[0] in k.inbox;
        MarkServes(k.idx, g.commits[k.inbox[0].eviction], s);
      case DropDead(_, room, dead) =>
        forall t | t in dead && t in k.idx.meta ensures k.idx.meta[t].room == room {
          assert SocketInv(k.idx, k.processed, g.commits, t, k.sockets[t]);
        }
        DropKeepsAgreement(k.idx, room, dead);
      case _ =>
    }
  }

  lemma MarkServes(x: Indexes, e: Eviction, s: Socket)
    requires Agree(x) && MayServe(x, s)
    ensures MayServe(Mark(x, e), s) <==> !Names(e, x.meta[s].user, x.meta[s].room)
  {
    MarkMeaning(x, Distinct(e.users), e.filter);
    MarkFrame(x, Distinct(e.users), e.filter);
  }

  /** Some step of the run from `g` ends them. */
  ghost predicate Silenced(g: System, run: seq<Step>, w: nat, s: Socket) {
    run != [] &&
    var front := run[..|run| - 1];
    Silenced(g, front, w, s) || (Exec(g, front).Some? && Silences(Exec(g, front).value, run[|run| - 1], w, s))
  }

  ghost predicate Joined(g: System, w: nat, s: Socket) {
    At(g, w, s) && (InIndex(g.workers[w].sockets[s].phase) || g.workers[w].sockets[s].phase.Gone?)
  }

  lemma {:induction false} RefusingRun(g: System, run: seq<Step>, w: nat, s: Socket)
    requires Inv(g) && Refusing(g, w, s) && Exec(g, run).Some?
    ensures var g' := Exec(g, run).value;
            && Inv(g') && Joined(g', w, s)
            && (Silenced(g, run, w, s) ==> !MayServe(g'.workers[w].idx, s))
            && (!Silenced(g, run, w, s) ==> Refusing(g', w, s) && g'.workers[w].sockets[s] == g.workers[w].sockets[s])
  {
    if run != [] {
      var front, a := run[..|run| - 1], run[|run| - 1];
      RefusingRun(g, front, w, s);
      StepKeepsInv(Exec(g, front).value, a);
      if !a.Commit? && !a.Publish? && a.w == w {
        RefusingLastStep(Exec(g, front).value, a, w, s);
      }
    }
  }

  lemma RefusingLastStep(g: System, a: Step, w: nat, s: Socket)
    requires Inv(g) && Enabled(g, a) && Joined(g, w, s) && !a.Commit? && !a.Publish? && a.w == w
    ensures Joined(After(g, a), w, s)
    ensures !MayServe(g.workers[w].idx, s) ==> !MayServe(After(g, a).workers[w].idx, s)
    ensures Refusing(g, w, s) && Silences(g, a, w, s) ==> !MayServe(After(g, a).workers[w].idx, s)
    ensures Refusing(g, w, s) && !Silences(g, a, w, s) ==>
              Refusing(After(g, a), w, s) && After(g, a).workers[w].sockets[s] == g.workers[w].sockets[s]
  {
    assert After(g, a).workers[w] == Local(g, a);
    JoinedStaysJoined(g, a, s);
    if Refusing(g, w, s) {
      RefusingStep(g, a, w, s);
    } else if !MayServe(g.workers[w].idx, s) {
      UnservableStep(g, a, s);
    }
  }

  /** A socket refused at the re-check is addressed by its room's broadcasts from its join on,
      exactly until its worker acts on a revocation naming it or on a gap, drops it, or cleans up. */
  lemma RefusedSocketIsAddressedUntilSilenced(g: System, w: nat, s: Socket, run: seq<Step>)
    requires Inv(g) && Enabled(g, Join(w, s))
             && EpochPair(g.workers[w].idx, g.workers[w].sockets[s].user) != g.workers[w].sockets[s].epoch
    requires Exec(After(g, Join(w, s)), run).Some?
    ensures var joined := After(g, Join(w, s));
            var g' := Exec(joined, run).value;
            At(g', w, s) &&
            (s in Targets(g'.workers[w].idx, g.workers[w].sockets[s].room, None) <==> !Silenced(joined, run, w, s))
  {
    var joined, h := After(g, Join(w, s)), g.workers[w].sockets[s];
    StepKeepsInv(g, Join(w, s));
    assert WorkerInv(g.workers[w], g.commits, g.published, w);
    assert SocketInv(g.workers[w].idx, g.workers[w].processed, g.commits, s, h);
    JoinKeepsAgreement(g.workers[w].idx, h.room, s, h.user);
    RefusingRun(joined, run, w, s);
    var k' := Exec(joined, run).value.workers[w];
    assert WorkerInv(k', Exec(joined, run).value.commits, Exec(joined, run).value.published, w);
    assert SocketInv(k'.idx, k'.processed, Exec(joined, run).value.commits, s, k'.sockets[s]);
    TargetsMeaning(k'.idx, h.room, None);
  }

  lemma ReachableInv(g: System)
    requires Reachable(g)
    ensures Inv(g)
  {
    var start, run :| Initial(start) && Exec(start, run) == Some(g);
    RunKeepsInv(start, run);
  }

  /** In every reachable state the three indexes of every worker agree. */
  lemma IndexesAgreeInEveryRun(g: System, w: nat)
    requires Reachable(g) && w < |g.workers|
    ensures Agree(g.workers[w].idx)
  {
    ReachableInv(g);
    assert WorkerInv(g.workers[w], g.commits, g.published, w);
  }

  const ROOM := Room("note", "n")
  const EVICTION := Eviction(["u"], Filter(None, None))
  const BLANK := Worker(EMPTY, map[], true, true, [], {}, {})
  const WAITING := BLANK.(sockets := map[7 := Handshake("u", ROOM, (0, 0), Authorized(0))])

  lemma AuthorizedHandshakeIsReachable()
    ensures Reachable(System([], {}, [WAITING]))
  {
    var g0 := System([], {}, [BLANK]);
    assert Exec(g0, []) == Some(g0);
    ReachableStep(g0, Snapshot(0, 7, "u", ROOM));
    var g1 := After(g0, Snapshot(0, 7, "u", ROOM));
    assert g1.workers[0].sockets == map[7 := Handshake("u", ROOM, (0, 0), Snapshotted)];
    ReachableStep(g1, Authorize(0, 7));
    var g2 := After(g1, Authorize(0, 7));
    assert g2.workers[0].sockets == WAITING.sockets;
    assert g2 == System([], {}, [WAITING]);
  }

  lemma CommitThenEvict(k: Worker, e: Eviction)
    requires Reachable(System([], {}, [k]))
    ensures Reachable(System([e], {},
              [k.(idx := Mark(k.idx, e), processed := k.processed + {0}, issued := k.issued + {0})]))
  {
    var g := System([], {}, [k]);
    ReachableStep(g, Commit(e));
    var g' := After(g, Commit(e));
    assert g' == System([e], {}, [k]);
    ReachableStep(g', Evict(0, 0));
    assert After(g', Evict(0, 0)).workers == [Local(g', Evict(0, 0))];
  }

  /** The exception above is real: a user evicted between authorize and join is refused, but until
      the clean-up runs a broadcast to the room is addressed to the socket. */
  lemma RefusingSocketIsAddressedInSomeRun()
    ensures exists g, s :: Reachable(g) && Stale(g, 0, s, 0) && 0 in g.workers[0].processed
                           && s in Targets(g.workers[0].idx, g.workers[0].sockets[s].room, None)
  {
    AuthorizedHandshakeIsReachable();
    CommitThenEvict(WAITING, EVICTION);
    EvictingAbsentUser(EVICTION);
    var k := WAITING.(idx := Mark(EMPTY, EVICTION), processed := WAITING.processed + {0},
        issued := WAITING.issued + {0});
    var g4 := System([EVICTION], {}, [k]);
    assert g4.workers[0] == k && k.sockets[7].phase == Authorized(0);
    ReachableStep(g4, Join(0, 7));
    JoiningLateIsAddressed(g4, k);
    var g5 := After(g4, Join(0, 7));
    assert Stale(g5, 0, 7, 0) && 7 in Targets(g5.workers[0].idx, g5.workers[0].sockets[7].room, None);
  }

  /** The join that meets the eviction: the socket is in its room, and refused. */
  lemma JoiningLateIsAddressed(g: System, k: Worker)
    requires g == System([EVICTION], {}, [k]) && k.sockets == WAITING.sockets
    requires k.idx.(epochs := map[]) == EMPTY && Epoch(k.idx, "u") > 0 && Names(EVICTION, "u", ROOM)
    ensures var k' := After(g, Join(0, 7)).workers[0];
            k'.processed == k.processed && k'.sockets == map[7 := Handshake("u", ROOM, (0, 0), Refused(0))]
            && 7 in Targets(k'.idx, ROOM, None)
  {
    var k' := Local(g, Join(0, 7));
    assert k'.idx == AfterJoin(k.idx, ROOM, 7, "u");
    TargetsMeaning(k'.idx, ROOM, None);
  }

  lemma EvictingAbsentUser(e: Eviction)
    requires e.users == ["u"]
    ensures Names(e, "u", Room("note", "n")) || e.filter != Filter(None, None)
    ensures Mark(EMPTY, e).(epochs := map[]) == EMPTY && Epoch(Mark(EMPTY, e), "u") > 0
  {
    assert Distinct(e.users) == ["u"];
    MarkFrame(EMPTY, ["u"], e.filter);
    MarkMeaning(EMPTY, ["u"], e.filter);
    assert multiset(["u"])["u"] > 0;
  }

  lemma ReachableStep(g: System, a: Step)
    requires Reachable(g) && Enabled(g, a)
    ensures Reachable(After(g, a))
  {
    var start, run :| Initial(start) && Exec(start, run) == Some(g);
    assert (run + [a])[..|run + [a]| - 1] == run;
    assert Exec(start, run + [a]) == Some(After(g, a));
  }

  // ---- what an eviction names -----------------------------------------------------------------

  /** A committed revocation names a handshake exactly when its user is among the ids, which are not
      empty, and its room passes the filter as written out here. */
  lemma NamesMeaning(e: Eviction, user: UserId, room: Room)
    ensures Names(e, user, room) <==>
              user in e.users && user != ""
              && (e.filter.kind.None? || e.filter.kind == Some(room.kind))
              && (e.filter.idPrefix.None? || exists rest :: room.id == e.filter.idPrefix.value + rest)
  {
    DistinctMembers(e.users);
    MatchesMeaning(e.filter, room);
  }
}
