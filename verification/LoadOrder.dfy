/** The module load-order resolver: a recursive depth-first topological sort with duplicate,
    missing-dependency and cycle errors. */
module LoadOrder {
  import opened Options

  type Id = string
  datatype Manifest = Manifest(id: Id, dependencies: seq<Id>)

  datatype Outcome =
    | Ordered(order: seq<Manifest>)
    | Duplicate(id: Id)
    | Missing(id: Id, dependency: Id)
    | Cycle(id: Id)

  type Graph = map<Id, Manifest>

  // ---- orders ---------------------------------------------------------------------------------

  function Front(ms: seq<Manifest>): seq<Manifest>
    requires ms != []
  {
    ms[..|ms| - 1]
  }

  function Last(ms: seq<Manifest>): Manifest
    requires ms != []
  {
    ms[|ms| - 1]
  }

  function Ids(ms: seq<Manifest>): set<Id> {
    if ms == [] then {} else Ids(Front(ms)) + {Last(ms).id}
  }

  predicate UniqueIds(ms: seq<Manifest>) {
    ms == [] || (UniqueIds(Front(ms)) && Last(ms).id !in Ids(Front(ms)))
  }

  /** Every module comes once, after all its dependencies. */
  predicate InDependencyOrder(ms: seq<Manifest>) {
    ms == [] || (InDependencyOrder(Front(ms)) && Last(ms).id !in Ids(Front(ms))
                 && forall d | d in Last(ms).dependencies :: d in Ids(Front(ms)))
  }

  predicate DependenciesExist(ms: seq<Manifest>) {
    forall m, d | m in ms && d in m.dependencies :: d in Ids(ms)
  }

  function ById(ms: seq<Manifest>): Graph {
    if ms == [] then map[] else ById(Front(ms))[Last(ms).id := Last(ms)]
  }

  /** A sequence of ids each of which depends on the next. */
  predicate IsPath(g: Graph, p: seq<Id>) {
    |p| <= 1 || (IsPath(g, p[..|p| - 1]) && p[|p| - 2] in g && p[|p| - 1] in g[p[|p| - 2]].dependencies)
  }

  /** Module `a` depends on `b`, directly or through others. */
  ghost predicate Needs(g: Graph, a: Id, b: Id) {
    exists p :: |p| >= 2 && p[0] == a && p[|p| - 1] == b && IsPath(g, p)
  }

  ghost predicate Acyclic(g: Graph) {
    forall id :: !Needs(g, id, id)
  }

  lemma {:induction false} IdsMembers(ms: seq<Manifest>)
    ensures forall m | m in ms :: m.id in Ids(ms)
    ensures forall id | id in Ids(ms) :: exists m :: m in ms && m.id == id
  {
    if ms != [] {
      IdsMembers(Front(ms));
      assert ms == Front(ms) + [Last(ms)];
    }
  }

  lemma {:induction false} ByIdMeaning(ms: seq<Manifest>)
    ensures ById(ms).Keys == Ids(ms)
    ensures forall id | id in ById(ms) :: ById(ms)[id] in ms && ById(ms)[id].id == id
    ensures UniqueIds(ms) ==> forall m | m in ms :: m.id in ById(ms) && ById(ms)[m.id] == m
  {
    if ms != [] {
      ByIdMeaning(Front(ms));
      IdsMembers(Front(ms));
      assert ms == Front(ms) + [Last(ms)];
    }
  }

  lemma {:induction false} OrderedIsUnique(ms: seq<Manifest>)
    requires InDependencyOrder(ms)
    ensures UniqueIds(ms) && DependenciesExist(ms)
  {
    if ms != [] {
      OrderedIsUnique(Front(ms));
      assert ms == Front(ms) + [Last(ms)];
    }
  }

  lemma {:induction false} UniqueIsSimple(ms: seq<Manifest>, m: Manifest)
    requires UniqueIds(ms)
    ensures multiset(ms)[m] == if m in ms then 1 else 0
  {
    if ms != [] {
      UniqueIsSimple(Front(ms), m);
      IdsMembers(Front(ms));
      assert ms == Front(ms) + [Last(ms)];
    }
  }

  /** Lists with unique ids, the same ids, and elements of one in the other are permutations. */
  lemma SameIdsPermute(xs: seq<Manifest>, ys: seq<Manifest>)
    requires UniqueIds(xs) && UniqueIds(ys) && Ids(xs) == Ids(ys) && forall m | m in xs :: m in ys
    ensures multiset(xs) == multiset(ys)
  {
    IdsMembers(xs);
    IdsMembers(ys);
    ByIdMeaning(ys);
    forall m ensures multiset(xs)[m] == multiset(ys)[m] {
      UniqueIsSimple(xs, m);
      UniqueIsSimple(ys, m);
      if m in ys {
        var m' :| m' in xs && m'.id == m.id;
        assert ById(ys)[m.id] == m && ById(ys)[m'.id] == m';
      }
    }
  }

  // ---- a dependency order excludes cycles -----------------------------------------------------

  function Position(ms: seq<Manifest>, id: Id): nat {
    if ms == [] then 0 else if id in Ids(Front(ms)) then Position(Front(ms), id) else |ms|
  }

  lemma {:induction false} DependencyComesFirst(ms: seq<Manifest>, m: Manifest, d: Id)
    requires InDependencyOrder(ms) && m in ms && d in m.dependencies
    ensures d in Ids(ms) && Position(ms, d) < Position(ms, m.id)
  {
    assert ms == Front(ms) + [Last(ms)];
    IdsMembers(Front(ms));
    if m in Front(ms) {
      DependencyComesFirst(Front(ms), m, d);
    } else {
      PositionBound(Front(ms), d);
    }
  }

  lemma {:induction false} PositionBound(ms: seq<Manifest>, id: Id)
    ensures Position(ms, id) <= |ms|
  {
    if ms != [] && id in Ids(Front(ms)) {
      PositionBound(Front(ms), id);
    }
  }

  lemma {:induction false} PathsDescend(ms: seq<Manifest>, g: Graph, p: seq<Id>)
    requires InDependencyOrder(ms) && g.Keys == Ids(ms) && (forall id | id in g :: g[id] in ms && g[id].id == id)
    requires IsPath(g, p) && |p| >= 2
    ensures Position(ms, p[|p| - 1]) < Position(ms, p[0])
  {
    DependencyComesFirst(ms, g[p[|p| - 2]], p[|p| - 1]);
    if |p| > 2 {
      PathsDescend(ms, g, p[..|p| - 1]);
    }
  }

  /** A graph some listing of which is in dependency order has no cycle. */
  lemma OrderExcludesCycles(ms: seq<Manifest>, g: Graph)
    requires InDependencyOrder(ms) && g.Keys == Ids(ms) && forall id | id in g :: g[id] in ms && g[id].id == id
    ensures Acyclic(g)
  {
    forall id ensures !Needs(g, id, id) {
      if p :| |p| >= 2 && p[0] == id && p[|p| - 1] == id && IsPath(g, p) {
        PathsDescend(ms, g, p);
        assert false;
      }
    }
  }

  /** One more dependency at the end. */
  lemma NeedsOneMore(g: Graph, visiting: set<Id>, b: Id, c: Id)
    requires b in g && c in g[b].dependencies && AllNeed(g, visiting, b)
    ensures AllNeed(g, visiting + {b}, c)
  {
    forall a | a in visiting + {b} ensures Needs(g, a, c) {
      var p := [b];
      if a in visiting {
        p :| |p| >= 2 && p[0] == a && p[|p| - 1] == b && IsPath(g, p);
      }
      assert (p + [c])[..|p + [c]| - 1] == p;
      assert IsPath(g, p + [c]);
    }
  }

  // ---- the resolver ---------------------------------------------------------------------------

  class Resolver {
    const byId: Graph
    var visiting: set<Id>
    var done: set<Id>
    var ordered: seq<Manifest>

    constructor (byId: Graph)
      ensures this.byId == byId && visiting == {} && done == {} && ordered == []
    {
      this.byId := byId;
      visiting, done, ordered := {}, {}, [];
    }

    ghost predicate Valid()
      reads this
    {
      Closed(byId) && Finished(byId, ordered, done) && done !! visiting && visiting <= byId.Keys
    }

    /** `visit`: None when it came back, or the module at which it met a cycle. Whatever is being
        visited needs `m`. */
    method Visit(m: Manifest) returns (cycle: Option<Id>)
      requires Valid() && m.id in byId && byId[m.id] == m && AllNeed(byId, visiting, m.id)
      modifies this`visiting, this`done, this`ordered
      ensures cycle.Some? ==> Needs(byId, cycle.value, cycle.value)
      ensures cycle.None? ==> Valid() && visiting == old(visiting) && old(done) + {m.id} <= done
      ensures m.id in old(done) ==> cycle.None? && ordered == old(ordered) && done == old(done)
      ensures m.id !in old(done) + old(visiting) && AllIn(m.dependencies, old(done)) ==>
                cycle.None? && ordered == old(ordered) + [m]
      decreases byId.Keys - visiting
    {
      if m.id in done {
        return None;
      }
      if m.id in visiting {
        return Some(m.id);
      }
      visiting := visiting + {m.id};
      ghost var ready := AllIn(m.dependencies, done);
      for i := 0 to |m.dependencies|
        invariant Valid() && visiting == old(visiting) + {m.id}
        invariant old(done) <= done && AllIn(m.dependencies[..i], done)
        invariant ready ==> ordered == old(ordered) && done == old(done)
      {
        NeedsOneMore(byId, old(visiting), m.id, m.dependencies[i]);
        ghost var before := done;
        var met := Visit(byId[m.dependencies[i]]);
        if met.Some? {
          return met;
        }
        AllInGrows(m.dependencies, i, before, done);
      }
      visiting := visiting - {m.id};
      FinishOne(byId, ordered, done, m);
      done := done + {m.id};
      ordered := ordered + [m];
      return None;
    }
  }

  predicate AllIn(ids: seq<Id>, s: set<Id>) {
    forall d | d in ids :: d in s
  }

  lemma AllInGrows(ids: seq<Id>, i: nat, before: set<Id>, s: set<Id>)
    requires i < |ids| && AllIn(ids[..i], before) && before <= s && ids[i] in s
    ensures AllIn(ids[..i + 1], s)
  {
    assert ids[..i + 1] == ids[..i] + [ids[i]];
  }

  ghost predicate AllNeed(g: Graph, visiting: set<Id>, id: Id) {
    forall v | v in visiting :: Needs(g, v, id)
  }

  ghost predicate Closed(g: Graph) {
    forall id | id in g :: g[id].id == id && forall d | d in g[id].dependencies :: d in g
  }

  /** What has been appended so far is in dependency order, and is what is done. */
  ghost predicate Finished(g: Graph, ordered: seq<Manifest>, done: set<Id>) {
    InDependencyOrder(ordered) && Ids(ordered) == done && forall m | m in ordered :: m.id in g && g[m.id] == m
  }

  lemma FinishOne(g: Graph, ordered: seq<Manifest>, done: set<Id>, m: Manifest)
    requires Finished(g, ordered, done) && m.id !in done && m.id in g && g[m.id] == m
    requires AllIn(m.dependencies, done)
    ensures Finished(g, ordered + [m], done + {m.id})
  {
    assert Front(ordered + [m]) == ordered && Last(ordered + [m]) == m;
  }

  /** What an input must be for an order to exist. */
  ghost predicate Resolvable(ms: seq<Manifest>) {
    UniqueIds(ms) && DependenciesExist(ms) && Acyclic(ById(ms))
  }

  /** The first loop: the modules by id, unless an id comes twice. */
  method Index(manifests: seq<Manifest>) returns (byId: Graph, duplicate: Option<Id>)
    ensures duplicate.None? ==> UniqueIds(manifests) && byId == ById(manifests)
    ensures duplicate.Some? ==> Repeated(manifests, duplicate.value)
  {
    byId := map[];
    for i := 0 to |manifests|
      invariant byId == ById(manifests[..i]) && UniqueIds(manifests[..i])
    {
      var m := manifests[i];
      assert Front(manifests[..i + 1]) == manifests[..i];
      ByIdMeaning(manifests[..i]);
      if m.id in byId {
        DuplicateFound(manifests, i);
        return byId, Some(m.id);
      }
      byId := byId[m.id := m];
    }
    assert manifests[..|manifests|] == manifests;
    return byId, None;
  }

  /** The second loop: a dependency on a module that is not there. */
  method CheckDependencies(manifests: seq<Manifest>, byId: Graph) returns (missing: Option<(Id, Id)>)
    ensures missing.None? <==> forall m | m in manifests :: AllIn(m.dependencies, byId.Keys)
    ensures missing.Some? ==> LacksDependency(manifests, missing.value.0, missing.value.1) && missing.value.1 !in byId
  {
    for i := 0 to |manifests|
      invariant forall k | 0 <= k < i :: AllIn(manifests[k].dependencies, byId.Keys)
    {
      for j := 0 to |manifests[i].dependencies|
        invariant forall k | 0 <= k < j :: manifests[i].dependencies[k] in byId
      {
        if manifests[i].dependencies[j] !in byId {
          assert manifests[i] in manifests && manifests[i].dependencies[j] in manifests[i].dependencies;
          return Some((manifests[i].id, manifests[i].dependencies[j]));
        }
      }
    }
    return None;
  }

  /** Two of the manifests carry this id. */
  predicate Repeated(ms: seq<Manifest>, id: Id) {
    exists i, j :: 0 <= i < j < |ms| && ms[i].id == id == ms[j].id
  }

  /** A manifest with this id names the dependency. */
  predicate LacksDependency(ms: seq<Manifest>, id: Id, dependency: Id) {
    exists m :: m in ms && m.id == id && dependency in m.dependencies
  }

  /** An order is a permutation of the manifests, each module after its dependencies; it comes out
      exactly when ids are unique, dependencies exist and no module needs itself, and each error
      names a real offender. A list already in dependency order comes back unchanged. */
  method ResolveLoadOrder(manifests: seq<Manifest>) returns (r: Outcome)
    ensures r.Ordered? <==> Resolvable(manifests)
    ensures r.Ordered? ==> InDependencyOrder(r.order) && multiset(r.order) == multiset(manifests)
    ensures r.Duplicate? <==> !UniqueIds(manifests)
    ensures r.Duplicate? ==> Repeated(manifests, r.id)
    ensures r.Missing? <==> UniqueIds(manifests) && !DependenciesExist(manifests)
    ensures r.Missing? ==> LacksDependency(manifests, r.id, r.dependency) && r.dependency !in Ids(manifests)
    ensures r.Cycle? ==> Needs(ById(manifests), r.id, r.id)
    ensures InDependencyOrder(manifests) ==> r == Ordered(manifests)
  {
    if InDependencyOrder(manifests) {
      OrderedIsResolvable(manifests);
    }
    var byId, duplicate := Index(manifests);
    if duplicate.Some? {
      RepeatedIsNotUnique(manifests, duplicate.value);
      return Duplicate(duplicate.value);
    }
    ByIdMeaning(manifests);
    var missing := CheckDependencies(manifests, byId);
    if missing.Some? {
      return Missing(missing.value.0, missing.value.1);
    }
    r := OrderAll(manifests, byId);
  }

  /** The third loop: visit each module in turn. */
  method OrderAll(manifests: seq<Manifest>, byId: Graph) returns (r: Outcome)
    requires UniqueIds(manifests) && DependenciesExist(manifests) && byId == ById(manifests)
    ensures r.Ordered? || r.Cycle?
    ensures r.Ordered? ==> Acyclic(byId) && InDependencyOrder(r.order) && multiset(r.order) == multiset(manifests)
    ensures r.Cycle? ==> Needs(byId, r.id, r.id)
    ensures InDependencyOrder(manifests) ==> r == Ordered(manifests)
  {
    ClosedById(manifests);
    ghost var inOrder := InDependencyOrder(manifests);
    if inOrder {
      OrderedIsResolvable(manifests);
    }
    var s := new Resolver(byId);
    for i := 0 to |manifests|
      invariant s.Valid() && s.visiting == {} && s.byId == byId
      invariant AllDone(manifests[..i], s.done)
      invariant inOrder ==> s.ordered == manifests[..i]
    {
      var m := manifests[i];
      if inOrder {
        NextIsReady(manifests, i);
      }
      ghost var before := s.done;
      var met := s.Visit(m);
      if met.Some? {
        return Cycle(met.value);
      }
      AllDoneGrows(manifests, i, before, s.done);
    }
    assert manifests[..|manifests|] == manifests;
    EverythingOrdered(manifests, s.ordered, s.done);
    return Ordered(s.ordered);
  }

  ghost predicate AllDone(ms: seq<Manifest>, done: set<Id>) {
    forall m | m in ms :: m.id in done
  }

  lemma AllDoneGrows(ms: seq<Manifest>, i: nat, before: set<Id>, done: set<Id>)
    requires i < |ms| && AllDone(ms[..i], before) && before <= done && ms[i].id in done
    ensures AllDone(ms[..i + 1], done) && ms[..i + 1] == ms[..i] + [ms[i]]
  {
    assert ms[..i + 1] == ms[..i] + [ms[i]];
  }

  lemma ClosedById(ms: seq<Manifest>)
    requires UniqueIds(ms) && DependenciesExist(ms)
    ensures Closed(ById(ms)) && forall m | m in ms :: m.id in ById(ms) && ById(ms)[m.id] == m
  {
    ByIdMeaning(ms);
  }

  lemma OrderedIsResolvable(ms: seq<Manifest>)
    requires InDependencyOrder(ms)
    ensures Resolvable(ms)
  {
    OrderedIsUnique(ms);
    ByIdMeaning(ms);
    OrderExcludesCycles(ms, ById(ms));
  }

  lemma {:induction false} PrefixUnique(ms: seq<Manifest>, n: nat)
    requires n <= |ms| && UniqueIds(ms)
    ensures UniqueIds(ms[..n])
  {
    if n < |ms| {
      PrefixUnique(Front(ms), n);
      assert Front(ms)[..n] == ms[..n];
    } else {
      assert ms[..n] == ms;
    }
  }

  lemma DuplicateFound(ms: seq<Manifest>, j: nat)
    requires j < |ms| && ms[j].id in Ids(ms[..j])
    ensures Repeated(ms, ms[j].id)
  {
    IdsMembers(ms[..j]);
    var m :| m in ms[..j] && m.id == ms[j].id;
    var i :| 0 <= i < j && ms[..j][i] == m;
    assert ms[i].id == ms[j].id;
  }

  lemma RepeatedIsNotUnique(ms: seq<Manifest>, id: Id)
    requires Repeated(ms, id)
    ensures !UniqueIds(ms)
  {
    var i, j :| 0 <= i < j < |ms| && ms[i].id == id == ms[j].id;
    IdsMembers(ms[..j]);
    assert ms[..j][i] in ms[..j];
    assert Front(ms[..j + 1]) == ms[..j];
    if UniqueIds(ms) {
      PrefixUnique(ms, j + 1);
    }
  }

  /** In a list in dependency order, the next module's dependencies are among those before it. */
  lemma {:induction false} NextIsReady(ms: seq<Manifest>, i: nat)
    requires InDependencyOrder(ms) && i < |ms|
    ensures ms[i].id !in Ids(ms[..i]) && AllIn(ms[i].dependencies, Ids(ms[..i]))
  {
    if i < |ms| - 1 {
      NextIsReady(Front(ms), i);
      assert Front(ms)[..i] == ms[..i];
    } else {
      assert Front(ms) == ms[..i];
    }
  }

  lemma EverythingOrdered(ms: seq<Manifest>, order: seq<Manifest>, done: set<Id>)
    requires UniqueIds(ms) && DependenciesExist(ms) && Finished(ById(ms), order, done)
    requires AllDone(ms, done)
    ensures multiset(order) == multiset(ms) && Acyclic(ById(ms))
  {
    ByIdMeaning(ms);
    IdsMembers(ms);
    IdsMembers(order);
    OrderedIsUnique(order);
    forall id | id in Ids(ms) ensures id in Ids(order) {
      var m :| m in ms && m.id == id;
    }
    assert Ids(order) == Ids(ms);
    SameIdsPermute(order, ms);
    ByIdMeaning(order);
    forall id | id in ById(ms) ensures ById(ms)[id] in order {
      var m :| m in order && m.id == id;
    }
    OrderExcludesCycles(order, ById(ms));
  }

  /** Resolving what was resolved changes nothing. */
  method ResolveTwice(manifests: seq<Manifest>) returns (once: Outcome, twice: Outcome)
    ensures once.Ordered? ==> twice == once
    ensures once.Ordered? <==> Resolvable(manifests)
  {
    once := ResolveLoadOrder(manifests);
    twice := once;
    if once.Ordered? {
      twice := ResolveLoadOrder(once.order);
    }
  }

  // ---- what the words mean --------------------------------------------------------------------

  predicate AllDiffer(ms: seq<Manifest>) {
    forall i, j | 0 <= i < j < |ms| :: ms[i].id != ms[j].id
  }

  lemma LastDiffers(ms: seq<Manifest>)
    requires ms != []
    ensures AllDiffer(ms) <==> AllDiffer(Front(ms)) && Last(ms).id !in Ids(Front(ms))
  {
    var front, n := Front(ms), |ms| - 1;
    IdsMembers(front);
    if Last(ms).id in Ids(front) {
      var m :| m in front && m.id == Last(ms).id;
      var i :| 0 <= i < n && front[i] == m;
      assert ms[i].id == ms[n].id;
    }
    if AllDiffer(front) && Last(ms).id !in Ids(front) {
      forall i, j | 0 <= i < j < |ms| ensures ms[i].id != ms[j].id {
        assert front[i] in front;
        if j < n {
          assert front[i].id != front[j].id;
        }
      }
    }
    if AllDiffer(ms) {
      forall i, j | 0 <= i < j < n ensures front[i].id != front[j].id {
        assert ms[i].id != ms[j].id;
      }
    }
  }

  /** Ids are unique exactly when no two manifests share one. */
  lemma {:induction false} UniqueIdsMeaning(ms: seq<Manifest>)
    ensures UniqueIds(ms) <==> forall i, j | 0 <= i < j < |ms| :: ms[i].id != ms[j].id
  {
    if ms != [] {
      UniqueIdsMeaning(Front(ms));
      LastDiffers(ms);
      assert UniqueIds(ms) <==> AllDiffer(ms);
    }
  }

  /** Each dependency of the `j`th module is the id of one before it. */
  ghost predicate DependenciesBefore(ms: seq<Manifest>, j: nat)
    requires j < |ms|
  {
    forall d | d in ms[j].dependencies :: exists i :: 0 <= i < j && ms[i].id == d
  }

  lemma DependenciesBeforeMeaning(ms: seq<Manifest>, j: nat)
    requires j < |ms|
    ensures DependenciesBefore(ms, j) <==> forall d | d in ms[j].dependencies :: d in Ids(ms[..j])
  {
    IdsMembers(ms[..j]);
    forall d ensures d in Ids(ms[..j]) <==> exists i :: 0 <= i < j && ms[i].id == d {
      if d in Ids(ms[..j]) {
        var m :| m in ms[..j] && m.id == d;
        var i :| 0 <= i < j && ms[..j][i] == m;
        assert ms[i].id == d;
      }
      if i :| 0 <= i < j && ms[i].id == d {
        assert ms[..j][i] in ms[..j];
      }
    }
  }

  lemma FrontDependenciesBefore(ms: seq<Manifest>, j: nat)
    requires j < |ms| - 1
    ensures DependenciesBefore(Front(ms), j) <==> DependenciesBefore(ms, j)
  {
    DependenciesBeforeMeaning(Front(ms), j);
    DependenciesBeforeMeaning(ms, j);
    assert Front(ms)[..j] == ms[..j];
  }

  /** A list is in dependency order exactly when no two manifests share an id and each dependency of a
      module is the id of one before it. */
  lemma {:induction false} InDependencyOrderMeaning(ms: seq<Manifest>)
    ensures InDependencyOrder(ms) <==>
              (forall i, j | 0 <= i < j < |ms| :: ms[i].id != ms[j].id)
              && forall j | 0 <= j < |ms| :: DependenciesBefore(ms, j)
  {
    if ms != [] {
      var n := |ms| - 1;
      InDependencyOrderMeaning(Front(ms));
      LastDiffers(ms);
      DependenciesBeforeMeaning(ms, n);
      assert ms[..n] == Front(ms);
      forall j: nat | j < n ensures DependenciesBefore(Front(ms), j) <==> DependenciesBefore(ms, j) {
        FrontDependenciesBefore(ms, j);
      }
      assert AllDiffer(ms) <==> AllDiffer(Front(ms)) && Last(ms).id !in Ids(Front(ms));
    }
  }
}
