/** Cross-worker fan-out over a relay without gaps: `broadcast` addresses the origin's sockets,
    then publishes; every other worker addresses its own when the frame reaches it. */
module Broadcast {
  import opened Options
  import opened ConnectionIndexes

  /** One broadcast. `exclude` is applied on the origin only and never crosses the relay. */
  datatype Frame = Frame(origin: nat, room: Room, exclude: Option<Socket>, published: bool)

  /** History: worker indexes at the moment a frame was handled and whom it was addressed to. */
  datatype Delivery = Delivery(frame: nat, at: Indexes, targets: set<Socket>)

  datatype Worker = Worker(idx: Indexes, inbox: seq<nat>, log: seq<Delivery>)

  datatype System = System(frames: seq<Frame>, workers: seq<Worker>)

  datatype Step =
    | Emit(w: nat, room: Room, exclude: Option<Socket>)  // local delivery of a new broadcast
    | Publish(f: nat)                                    // its one publish, after local delivery
    | Receive(w: nat)                                    // on_relayed
    | Change(w: nat, idx: Indexes)                       // joins, leaves, evictions, dead sockets

  ghost predicate Enabled(g: System, a: Step) {
    match a
    case Emit(w, _, _) => w < |g.workers|
    case Publish(f) => f < |g.frames| && !g.frames[f].published
    case Receive(w) => w < |g.workers| && g.workers[w].inbox != [] && g.workers[w].inbox[0] < |g.frames|
    case Change(w, idx) => w < |g.workers| && Agree(idx)
  }

  function Handle(k: Worker, f: nat, room: Room, exclude: Option<Socket>): Worker {
    k.(log := k.log + [Delivery(f, k.idx, Targets(k.idx, room, exclude))])
  }

  ghost function After(g: System, a: Step): System
    requires Enabled(g, a)
  {
    match a
    case Emit(w, room, exclude) =>
      System(g.frames + [Frame(w, room, exclude, false)],
             g.workers[w := Handle(g.workers[w], |g.frames|, room, exclude)])
    case Publish(f) =>
      System(g.frames[f := g.frames[f].(published := true)],
             seq(|g.workers|, j requires 0 <= j < |g.workers| => g.workers[j].(inbox := g.workers[j].inbox + [f])))
    case Receive(w) =>
      var k := g.workers[w].(inbox := g.workers[w].inbox[1..]);
      var f := g.workers[w].inbox[0];
      g.(workers := g.workers[w := if g.frames[f].origin == w then k else Handle(k, f, g.frames[f].room, None)])
    case Change(w, idx) => g.(workers := g.workers[w := g.workers[w].(idx := idx)])
  }

  function Copies(inbox: seq<nat>, f: nat): nat {
    if inbox == [] then 0 else Copies(inbox[..|inbox| - 1], f) + if inbox[|inbox| - 1] == f then 1 else 0
  }

  /** How often frame `f` was handled on a worker with this log. */
  function Times(log: seq<Delivery>, f: nat): nat {
    if log == [] then 0 else Times(log[..|log| - 1], f) + if log[|log| - 1].frame == f then 1 else 0
  }

  /** What worker `w` owes frame `f`: its origin handles it at once and never again, any other
      worker as often as it was published. */
  ghost predicate Balanced(g: System, w: nat, f: nat)
    requires w < |g.workers| && f < |g.frames|
  {
    var k, fr := g.workers[w], g.frames[f];
    if fr.origin == w then Times(k.log, f) == 1
    else Times(k.log, f) + Copies(k.inbox, f) == if fr.published then 1 else 0
  }

  /** Each delivery addressed exactly the room's tracked, unrevoked sockets, on the origin minus
      the excluded one. */
  ghost predicate Exact(g: System, w: nat, d: Delivery) {
    && d.frame < |g.frames|
    && var fr := g.frames[d.frame];
       forall s :: s in d.targets <==>
                     MayServe(d.at, s) && d.at.meta[s].room == fr.room && (fr.origin == w ==> Some(s) != fr.exclude)
  }

  ghost predicate Inv(g: System) {
    && (forall w | 0 <= w < |g.workers| :: Agree(g.workers[w].idx))
    && (forall w, i | 0 <= w < |g.workers| && 0 <= i < |g.workers[w].inbox| :: g.workers[w].inbox[i] < |g.frames|)
    && (forall w, f: nat | 0 <= w < |g.workers| && f < |g.frames| :: Balanced(g, w, f))
    && (forall w, d | 0 <= w < |g.workers| && d in g.workers[w].log :: Exact(g, w, d))
  }

  ghost predicate Initial(g: System) {
    g.frames == [] && forall k | k in g.workers :: Agree(k.idx) && k.inbox == [] && k.log == []
  }

  ghost function Exec(start: System, run: seq<Step>): Option<System> {
    if run == [] then Some(start)
    else
      var mid := Exec(start, run[..|run| - 1]);
      var a := run[|run| - 1];
      if mid.Some? && Enabled(mid.value, a) then Some(After(mid.value, a)) else None
  }

  lemma {:induction false} CopiesSplit(inbox: seq<nat>, f: nat)
    requires inbox != []
    ensures Copies(inbox, f) == (if inbox[0] == f then 1 else 0) + Copies(inbox[1..], f)
  {
    if |inbox| > 1 {
      CopiesSplit(inbox[..|inbox| - 1], f);
      assert inbox[1..][..|inbox[1..]| - 1] == inbox[..|inbox| - 1][1..];
    }
  }

  lemma {:induction false} NoCopies(inbox: seq<nat>, f: nat)
    requires f !in inbox
    ensures Copies(inbox, f) == 0
  {
    if inbox != [] {
      NoCopies(inbox[..|inbox| - 1], f);
    }
  }

  lemma {:induction false} NoTimes(log: seq<Delivery>, f: nat)
    requires forall d | d in log :: d.frame != f
    ensures Times(log, f) == 0
  {
    if log != [] {
      NoTimes(log[..|log| - 1], f);
    }
  }

  lemma TimesSnoc(log: seq<Delivery>, d: Delivery, f: nat)
    ensures Times(log + [d], f) == Times(log, f) + if d.frame == f then 1 else 0
  {
    assert (log + [d])[..|log + [d]| - 1] == log;
  }

  lemma CopiesSnoc(inbox: seq<nat>, g: nat, f: nat)
    ensures Copies(inbox + [g], f) == Copies(inbox, f) + if g == f then 1 else 0
  {
    assert (inbox + [g])[..|inbox + [g]| - 1] == inbox;
  }

  lemma EmitKeepsInv(g: System, a: Step)
    requires Inv(g) && Enabled(g, a) && a.Emit?
    ensures Inv(After(g, a))
  {
    var g' := After(g, a);
    var n := |g.frames|;
    TargetsMeaning(g.workers[a.w].idx, a.room, a.exclude);
    forall w, f: nat | 0 <= w < |g'.workers| && f < |g'.frames| ensures Balanced(g', w, f) {
      if w == a.w { TimesSnoc(g.workers[w].log, g'.workers[w].log[|g.workers[w].log|], f); }
      if f < n {
        assert Balanced(g, w, f);
      } else {
        forall d | d in g.workers[w].log ensures d.frame != n { assert Exact(g, w, d); }
        NoTimes(g.workers[w].log, n);
        NoCopies(g.workers[w].inbox, n);
      }
    }
    forall w, d | 0 <= w < |g'.workers| && d in g'.workers[w].log ensures Exact(g', w, d) {
      if d in g.workers[w].log { assert Exact(g, w, d); }
    }
  }

  lemma PublishKeepsInv(g: System, a: Step)
    requires Inv(g) && Enabled(g, a) && a.Publish?
    ensures Inv(After(g, a))
  {
    var g' := After(g, a);
    forall w, f: nat | 0 <= w < |g'.workers| && f < |g'.frames| ensures Balanced(g', w, f) {
      assert Balanced(g, w, f);
      CopiesSnoc(g.workers[w].inbox, a.f, f);
    }
    forall w, d | 0 <= w < |g'.workers| && d in g'.workers[w].log ensures Exact(g', w, d) {
      assert Exact(g, w, d);
    }
  }

  lemma ReceiveKeepsInv(g: System, a: Step)
    requires Inv(g) && Enabled(g, a) && a.Receive?
    ensures Inv(After(g, a))
  {
    var g' := After(g, a);
    var k := g.workers[a.w];
    var f0 := k.inbox[0];
    TargetsMeaning(k.idx, g.frames[f0].room, None);
    forall w, f: nat | 0 <= w < |g'.workers| && f < |g'.frames| ensures Balanced(g', w, f) {
      assert Balanced(g, w, f);
      if w == a.w {
        CopiesSplit(k.inbox, f);
        if g.frames[f0].origin != w { TimesSnoc(k.log, g'.workers[w].log[|k.log|], f); }
      }
    }
    forall w, d | 0 <= w < |g'.workers| && d in g'.workers[w].log ensures Exact(g', w, d) {
      if d in g.workers[w].log { assert Exact(g, w, d); }
    }
  }

  lemma StepKeepsInv(g: System, a: Step)
    requires Inv(g) && Enabled(g, a)
    ensures Inv(After(g, a))
  {
    match a {
      case Emit(_, _, _) => EmitKeepsInv(g, a);
      case Publish(_) => PublishKeepsInv(g, a);
      case Receive(_) => ReceiveKeepsInv(g, a);
      case Change(_, _) =>
        var g' := After(g, a);
        forall w, f: nat | 0 <= w < |g'.workers| && f < |g'.frames| ensures Balanced(g', w, f) {
          assert Balanced(g, w, f);
        }
        forall w, d | 0 <= w < |g'.workers| && d in g'.workers[w].log ensures Exact(g', w, d) {
          assert Exact(g, w, d);
        }
    }
  }

  lemma {:induction false} RunKeepsInv(start: System, run: seq<Step>)
    requires Initial(start) && Exec(start, run).Some?
    ensures Inv(Exec(start, run).value)
  {
    if run == [] {
      forall w | 0 <= w < |start.workers|
          ensures Agree(start.workers[w].idx) && start.workers[w].inbox == [] && start.workers[w].log == [] {
        assert start.workers[w] in start.workers;
      }
    } else {
      RunKeepsInv(start, run[..|run| - 1]);
      StepKeepsInv(Exec(start, run[..|run| - 1]).value, run[|run| - 1]);
    }
  }

  /** In every run without gaps, at every moment: the origin has handled each of its frames exactly
      once, any other worker at most once and, once the frame is published and its inbox drained,
      exactly once; and each handling was addressed to exactly the sockets of the room tracked and
      unrevoked there at that moment, the excluded socket excepted on the origin. */
  lemma EachFrameIsAddressedOnce(start: System, run: seq<Step>, w: nat, f: nat)
    requires Initial(start) && Exec(start, run).Some?
    requires w < |Exec(start, run).value.workers| && f < |Exec(start, run).value.frames|
    ensures var g := Exec(start, run).value;
            var k, fr := g.workers[w], g.frames[f];
            && Times(k.log, f) <= 1
            && (fr.origin == w ==> Times(k.log, f) == 1)
            && (fr.origin != w && !fr.published ==> Times(k.log, f) == 0)
            && (fr.published && f !in k.inbox ==> Times(k.log, f) == 1)
            && (forall d | d in k.log :: Exact(g, w, d))
  {
    RunKeepsInv(start, run);
    var g := Exec(start, run).value;
    assert Balanced(g, w, f);
    if f !in g.workers[w].inbox {
      NoCopies(g.workers[w].inbox, f);
    }
  }
}
