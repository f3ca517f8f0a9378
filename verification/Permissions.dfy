/** Role-based permissions: several questions asked of one table of role assignments, and the rule
    for who may manage whose account. */
module Permissions {
  import opened Options

  type Id = string
  type Key = string

  datatype Role = Role(scope: string, permissions: seq<Key>)
  datatype Assignment = Assignment(user: Id, competition: Option<Id>, role: Id)
  datatype Row = Row(permissions: seq<Key>, scope: string, competition: Option<Id>)

  /** `participant` is the id of the role named "Participant", once roles are seeded. */
  datatype Db = Db(roles: map<Id, Role>, participant: Option<Id>, assignments: seq<Assignment>)

  datatype Scope = Global | Competition

  /** The permission catalogue, and the floor every participant of a competition has. */
  datatype Catalogue = Catalogue(scopes: map<Key, Scope>, floor: set<Key>)

  // ---- who holds what -------------------------------------------------------------------------

  predicate IsSiteWide(db: Db, a: Assignment) {
    a.role in db.roles && a.competition.None? && db.roles[a.role].scope == "global"
  }

  /** A role not meant for the whole site, pinned to no competition. */
  predicate IsMalformed(db: Db, a: Assignment) {
    a.role in db.roles && a.competition.None? && db.roles[a.role].scope != "global"
  }

  predicate Carries(db: Db, a: Assignment, user: Id, key: Key) {
    a.user == user && a.role in db.roles && key in db.roles[a.role].permissions
  }

  ghost predicate HoldsSiteWide(db: Db, user: Id, key: Key) {
    exists a :: a in db.assignments && Carries(db, a, user, key) && IsSiteWide(db, a)
  }

  ghost predicate HoldsIn(db: Db, user: Id, key: Key, competition: Id) {
    exists a :: a in db.assignments && Carries(db, a, user, key) && a.competition == Some(competition)
  }

  /** What a user may do in a competition, or, without one, at large. */
  ghost predicate Holds(db: Db, user: Id, key: Key, context: Option<Id>) {
    HoldsSiteWide(db, user, key) || (context.Some? && HoldsIn(db, user, key, context.value))
  }

  ghost predicate HoldsMalformed(db: Db, user: Id, key: Key) {
    exists a :: a in db.assignments && Carries(db, a, user, key) && IsMalformed(db, a)
  }

  // ---- the queries ----------------------------------------------------------------------------

  function RowOf(db: Db, a: Assignment): Row
    requires a.role in db.roles
  {
    Row(db.roles[a.role].permissions, db.roles[a.role].scope, a.competition)
  }

  /** A user's assignments joined with their roles. */
  function RowsOf(db: Db, assignments: seq<Assignment>, user: Id): seq<Row> {
    if assignments == [] then []
    else
      var a := assignments[0];
      (if a.user == user && a.role in db.roles then [RowOf(db, a)] else []) + RowsOf(db, assignments[1..], user)
  }

  lemma {:induction false} RowsMeaning(db: Db, assignments: seq<Assignment>, user: Id)
    ensures forall a | a in assignments && a.user == user && a.role in db.roles ::
              RowOf(db, a) in RowsOf(db, assignments, user)
    ensures forall r | r in RowsOf(db, assignments, user) ::
              exists a :: a in assignments && a.user == user && a.role in db.roles && r == RowOf(db, a)
  {
    if assignments != [] {
      RowsMeaning(db, assignments[1..], user);
    }
  }

  predicate RowGrants(r: Row, key: Key, context: Option<Id>) {
    key in r.permissions && if r.competition.None? then r.scope == "global" else r.competition == context
  }

  lemma HoldsByRows(db: Db, user: Id, key: Key, context: Option<Id>)
    ensures Holds(db, user, key, context) <==>
              exists r :: r in RowsOf(db, db.assignments, user) && RowGrants(r, key, context)
  {
    var rows := RowsOf(db, db.assignments, user);
    RowsMeaning(db, db.assignments, user);
    if HoldsSiteWide(db, user, key) {
      var a :| a in db.assignments && Carries(db, a, user, key) && IsSiteWide(db, a);
      assert RowGrants(RowOf(db, a), key, context);
    } else if context.Some? && HoldsIn(db, user, key, context.value) {
      var a :| a in db.assignments && Carries(db, a, user, key) && a.competition == context;
      assert RowGrants(RowOf(db, a), key, context);
    }
    forall r | r in rows && RowGrants(r, key, context) ensures Holds(db, user, key, context) {
      var a :| a in db.assignments && a.user == user && a.role in db.roles && r == RowOf(db, a);
      assert Carries(db, a, user, key);
    }
  }

  method UserHasPermission(db: Db, user: Id, key: Key, context: Option<Id>) returns (held: bool)
    ensures held <==> Holds(db, user, key, context)
  {
    HoldsByRows(db, user, key, context);
    var rows := RowsOf(db, db.assignments, user);
    for i := 0 to |rows|
      invariant forall k | 0 <= k < i :: !RowGrants(rows[k], key, context)
    {
      var r := rows[i];
      if key !in r.permissions {
        continue;
      }
      if r.competition.None? {
        if r.scope == "global" {
          assert r in rows && RowGrants(r, key, context);
          return true;
        }
        continue;
      }
      if context.Some? && r.competition == context {
        assert r in rows && RowGrants(r, key, context);
        return true;
      }
    }
    return false;
  }

  /** A user's permissions at large, and what each of their competitions adds. */
  datatype Effective = Effective(siteWide: set<Key>, inCompetition: map<Id, set<Key>>) {
    function In(competition: Id): set<Key> {
      if competition in inCompetition then inCompetition[competition] else {}
    }
  }

  function Keys(permissions: seq<Key>): set<Key> {
    set key | key in permissions
  }

  ghost predicate GrantedAtLarge(rows: seq<Row>, key: Key) {
    exists r :: r in rows && RowGrants(r, key, None)
  }

  ghost predicate GrantedIn(rows: seq<Row>, c: Id, key: Key) {
    exists r :: r in rows && r.competition == Some(c) && key in r.permissions
  }

  ghost predicate Sums(e: Effective, rows: seq<Row>) {
    (forall key :: key in e.siteWide <==> GrantedAtLarge(rows, key))
    && (forall c, key :: key in e.In(c) <==> GrantedIn(rows, c, key))
    && forall c :: c in e.inCompetition <==> exists r :: r in rows && r.competition == Some(c)
  }

  /** The effective permissions are what the user holds: at large, and, united with those, in each
      competition. The competitions listed are those the user has any role in. */
  method EffectivePermissions(db: Db, user: Id) returns (e: Effective)
    ensures forall key :: key in e.siteWide <==> Holds(db, user, key, None)
    ensures forall c, key :: key in e.siteWide + e.In(c) <==> Holds(db, user, key, Some(c))
    ensures forall c, key :: key in e.In(c) <==> HoldsIn(db, user, key, c)
    ensures e.inCompetition.Keys == MemberCompetitions(db, user)
  {
    var rows := RowsOf(db, db.assignments, user);
    e := Effective({}, map[]);
    for i := 0 to |rows|
      invariant Sums(e, rows[..i])
    {
      var r := rows[i];
      ghost var before := e;
      if r.competition.None? {
        if r.scope == "global" {
          e := e.(siteWide := e.siteWide + Keys(r.permissions));
        }
      } else {
        var c := r.competition.value;
        e := e.(inCompetition := e.inCompetition[c := e.In(c) + Keys(r.permissions)]);
      }
      OneMoreRow(before, e, rows, i);
    }
    assert rows[..|rows|] == rows;
    SumsMeaning(db, user, e);
  }

  function MemberCompetitions(db: Db, user: Id): set<Id> {
    set a | a in db.assignments && a.user == user && a.role in db.roles && a.competition.Some? :: a.competition.value
  }

  function WithRow(e: Effective, r: Row): Effective {
    match r.competition
    case None => if r.scope == "global" then e.(siteWide := e.siteWide + Keys(r.permissions)) else e
    case Some(c) => e.(inCompetition := e.inCompetition[c := e.In(c) + Keys(r.permissions)])
  }

  lemma OneMoreRow(before: Effective, after: Effective, rows: seq<Row>, i: nat)
    requires i < |rows| && Sums(before, rows[..i]) && after == WithRow(before, rows[i])
    ensures Sums(after, rows[..i + 1])
  {
    assert rows[..i + 1] == rows[..i] + [rows[i]];
    var was, r := rows[..i], rows[i];
    assert r in was + [r];
    forall key ensures GrantedAtLarge(was + [r], key) <==> GrantedAtLarge(was, key) || RowGrants(r, key, None) {
    }
    forall c, key
        ensures GrantedIn(was + [r], c, key) <==>
                  GrantedIn(was, c, key) || (r.competition == Some(c) && key in r.permissions) {
    }
  }

  lemma SumsMeaning(db: Db, user: Id, e: Effective)
    requires Sums(e, RowsOf(db, db.assignments, user))
    ensures forall key :: key in e.siteWide <==> Holds(db, user, key, None)
    ensures forall c, key :: key in e.siteWide + e.In(c) <==> Holds(db, user, key, Some(c))
    ensures forall c, key :: key in e.In(c) <==> HoldsIn(db, user, key, c)
    ensures e.inCompetition.Keys == MemberCompetitions(db, user)
  {
    RowsMeaning(db, db.assignments, user);
    forall key ensures key in e.siteWide <==> Holds(db, user, key, None) {
      HoldsByRows(db, user, key, None);
    }
    forall c, key ensures key in e.In(c) <==> HoldsIn(db, user, key, c) {
      InByRows(db, user, key, c);
    }
    forall c ensures c in e.inCompetition <==> c in MemberCompetitions(db, user) {
    }
  }

  lemma InByRows(db: Db, user: Id, key: Key, c: Id)
    ensures HoldsIn(db, user, key, c) <==> GrantedIn(RowsOf(db, db.assignments, user), c, key)
  {
    RowsMeaning(db, db.assignments, user);
    if HoldsIn(db, user, key, c) {
      var a :| a in db.assignments && Carries(db, a, user, key) && a.competition == Some(c);
      assert RowOf(db, a).competition == Some(c);
    }
    forall r | r in RowsOf(db, db.assignments, user) && r.competition == Some(c) && key in r.permissions
      ensures HoldsIn(db, user, key, c)
    {
      var a :| a in db.assignments && a.user == user && a.role in db.roles && r == RowOf(db, a);
      assert Carries(db, a, user, key);
    }
  }

  // ---- the audience query ---------------------------------------------------------------------

  function UsersWithPermission(db: Db, key: Key, context: Option<Id>): set<Id> {
    set a | a in db.assignments && a.role in db.roles && (a.competition == context || a.competition.None?)
            && key in db.roles[a.role].permissions :: a.user
  }

  /** The audience is the users who hold the permission, and those to whom a malformed assignment
      gives it: the query does not look at the role's scope. */
  lemma AudienceIsHoldersAndMalformed(db: Db, user: Id, key: Key, context: Option<Id>)
    ensures user in UsersWithPermission(db, key, context) <==>
              Holds(db, user, key, context) || HoldsMalformed(db, user, key)
  {
    if user in UsersWithPermission(db, key, context) {
      var a :| a in db.assignments && a.role in db.roles && (a.competition == context || a.competition.None?)
               && key in db.roles[a.role].permissions && a.user == user;
      assert Carries(db, a, user, key);
    }
  }

  predicate NoMalformedGrant(db: Db) {
    forall a | a in db.assignments && IsMalformed(db, a) :: db.roles[a.role].permissions == []
  }

  ghost predicate AudienceAgrees(db: Db) {
    forall user, key, context :: user in UsersWithPermission(db, key, context) <==> Holds(db, user, key, context)
  }

  ghost predicate MalformedGrantsAreHeld(db: Db) {
    forall a, key | a in db.assignments && IsMalformed(db, a) && key in db.roles[a.role].permissions ::
      HoldsSiteWide(db, a.user, key)
  }

  /** The two questions agree about everyone exactly when whatever a malformed assignment carries,
      its user also holds site-wide. */
  lemma AudienceAgreesIffMalformedGrantsAreHeld(db: Db)
    ensures AudienceAgrees(db) <==> MalformedGrantsAreHeld(db)
    ensures NoMalformedGrant(db) ==> AudienceAgrees(db)
  {
    forall user, key, context
      ensures user in UsersWithPermission(db, key, context) <==>
                Holds(db, user, key, context) || HoldsMalformed(db, user, key)
    {
      AudienceIsHoldersAndMalformed(db, user, key, context);
    }
    if AudienceAgrees(db) {
      forall a, key | a in db.assignments && IsMalformed(db, a) && key in db.roles[a.role].permissions
        ensures HoldsSiteWide(db, a.user, key)
      {
        assert Carries(db, a, a.user, key);
        assert a.user in UsersWithPermission(db, key, None);
      }
    }
    if MalformedGrantsAreHeld(db) {
      forall user, key | HoldsMalformed(db, user, key) ensures HoldsSiteWide(db, user, key) {
        var a :| a in db.assignments && Carries(db, a, user, key) && IsMalformed(db, a);
      }
    }
  }

  /** A judge's role assigned to no competition: in the audience, without the permission. */
  lemma AudienceMayDisagree()
    ensures exists db, user, key :: user in UsersWithPermission(db, key, None) && !Holds(db, user, key, None)
  {
    var a := Assignment("ada", None, "judge");
    var db := Db(map["judge" := Role("competition", ["ticket_view"])], None, [a]);
    assert a in db.assignments && Carries(db, a, "ada", "ticket_view");
    assert "ada" in UsersWithPermission(db, "ticket_view", None);
    assert !Holds(db, "ada", "ticket_view", None);
  }

  // ---- managing accounts ----------------------------------------------------------------------

  ghost predicate HoldsSomewhere(db: Db, user: Id, key: Key) {
    exists c :: HoldsIn(db, user, key, c)
  }

  /** Taking over the account would confer this catalogued permission: the user holds it at large, or
      in some competition where it is more than any participant has. */
  ghost predicate Confers(db: Db, cat: Catalogue, user: Id, key: Key) {
    key in cat.scopes && (HoldsSiteWide(db, user, key) || (key !in cat.floor && HoldsSomewhere(db, user, key)))
  }

  method PrivilegedPermissions(db: Db, cat: Catalogue, user: Id) returns (privileged: set<Key>)
    ensures forall key :: key in privileged <==> Confers(db, cat, user, key)
  {
    var e := EffectivePermissions(db, user);
    privileged := e.siteWide;
    var left := e.inCompetition.Keys;
    while left != {}
      invariant left <= e.inCompetition.Keys
      invariant forall key :: key in privileged <==>
                  key in e.siteWide
                      || (key !in cat.floor
                          && exists c :: c in e.inCompetition && c !in left && key in e.inCompetition[c])
      decreases left
    {
      var c :| c in left;
      privileged := privileged + (e.inCompetition[c] - cat.floor);
      left := left - {c};
    }
    privileged := set key | key in privileged && key in cat.scopes;
    forall key ensures HoldsSomewhere(db, user, key) <==>
        exists c :: c in e.inCompetition && key in e.inCompetition[c] {
      if c :| HoldsIn(db, user, key, c) {
        assert key in e.In(c);
      }
      if c :| c in e.inCompetition && key in e.inCompetition[c] {
        assert key in e.In(c);
      }
    }
  }

  method HoldsEveryPermission(db: Db, cat: Catalogue, user: Id) returns (every: bool)
    ensures every <==> forall key | key in cat.scopes :: HoldsSiteWide(db, user, key)
  {
    var e := EffectivePermissions(db, user);
    every := cat.scopes.Keys <= e.siteWide;
  }

  /** The account itself, or one whose takeover confers nothing the actor does not hold at large. */
  ghost predicate MayManage(db: Db, cat: Catalogue, actor: Id, target: Id) {
    actor == target || forall key | Confers(db, cat, target, key) :: HoldsSiteWide(db, actor, key)
  }

  method AssertMayManageAccount(db: Db, cat: Catalogue, actor: Id, target: Id) returns (allowed: bool)
    ensures allowed <==> MayManage(db, cat, actor, target)
  {
    if actor == target {
      return true;
    }
    var own := EffectivePermissions(db, actor);
    var privileged := PrivilegedPermissions(db, cat, target);
    allowed := privileged - own.siteWide == {};
    if allowed {
      forall key | Confers(db, cat, target, key) ensures HoldsSiteWide(db, actor, key) {
        assert key !in privileged - own.siteWide;
      }
    }
  }

  /** Whoever may manage another account holds, in every context, every catalogued permission that
      account holds there; below the participant floor only site-wide holdings are compared. */
  lemma ManagingIsContained(db: Db, cat: Catalogue, actor: Id, target: Id, key: Key, context: Option<Id>)
    requires actor != target && MayManage(db, cat, actor, target)
    requires key in cat.scopes && Holds(db, target, key, context)
             && (HoldsSiteWide(db, target, key) || key !in cat.floor)
    ensures Holds(db, actor, key, context)
  {
    assert Confers(db, cat, target, key);
  }

  /** Managing an account and acting as it to manage the next one reaches nothing more. */
  lemma ManagingIsTransitive(db: Db, cat: Catalogue, a: Id, b: Id, c: Id)
    requires MayManage(db, cat, a, b) && MayManage(db, cat, b, c)
    ensures MayManage(db, cat, a, c)
  {
    if a != b && b != c {
      forall key | Confers(db, cat, c, key) ensures HoldsSiteWide(db, a, key) {
        assert Confers(db, cat, b, key);
      }
    }
  }

  /** So no chain of takeovers ends with a permission its first account does not hold. */
  lemma {:induction false} TakeoverChainsAreContained(db: Db, cat: Catalogue, chain: seq<Id>, key: Key)
    requires chain != [] && forall i | 0 <= i < |chain| - 1 :: MayManage(db, cat, chain[i], chain[i + 1])
    ensures MayManage(db, cat, chain[0], chain[|chain| - 1])
    ensures chain[0] != chain[|chain| - 1] && Confers(db, cat, chain[|chain| - 1], key) ==>
              HoldsSiteWide(db, chain[0], key)
  {
    if |chain| > 1 {
      var front := chain[..|chain| - 1];
      TakeoverChainsAreContained(db, cat, front, key);
      assert MayManage(db, cat, front[|front| - 1], chain[|chain| - 1]);
      ManagingIsTransitive(db, cat, chain[0], front[|front| - 1], chain[|chain| - 1]);
    }
  }

  /** Whoever holds the whole catalogue may manage everyone; and whoever may manage such an account
      holds the whole catalogue. */
  lemma AdministratorsManageEveryone(db: Db, cat: Catalogue, actor: Id, target: Id)
    requires MayManage(db, cat, actor, target) && actor != target
    requires forall key | key in cat.scopes :: HoldsSiteWide(db, target, key)
    ensures forall key | key in cat.scopes :: HoldsSiteWide(db, actor, key)
    ensures forall other :: MayManage(db, cat, actor, other)
  {
    forall key | key in cat.scopes ensures HoldsSiteWide(db, actor, key) {
      assert Confers(db, cat, target, key);
    }
  }

  // ---- seeing every competition ---------------------------------------------------------------

  predicate SeesEveryCompetition(db: Db, cat: Catalogue, user: Id) {
    exists a :: a in db.assignments && a.user == user && IsSiteWide(db, a)
                && exists i :: 0 <= i < |db.roles[a.role].permissions|
                               && db.roles[a.role].permissions[i] in cat.scopes
                                   && cat.scopes[db.roles[a.role].permissions[i]] == Competition
  }

  /** Whoever sees every competition may act in each of them, by one permission that reaches into
      competitions. */
  lemma SeeingIsActing(db: Db, cat: Catalogue, user: Id)
    ensures SeesEveryCompetition(db, cat, user) <==>
              exists key :: key in cat.scopes && cat.scopes[key] == Competition && Holds(db, user, key, None)
    ensures SeesEveryCompetition(db, cat, user) ==>
              exists key :: key in cat.scopes && cat.scopes[key] == Competition && forall c ::
                  Holds(db, user, key, Some(c))
  {
    if SeesEveryCompetition(db, cat, user) {
      var a, i :| a in db.assignments && a.user == user && IsSiteWide(db, a) && 0 <= i < |db.roles[a.role].permissions|
                  && db.roles[a.role].permissions[i] in cat.scopes
                      && cat.scopes[db.roles[a.role].permissions[i]] == Competition;
      var key := db.roles[a.role].permissions[i];
      assert Carries(db, a, user, key);
      assert HoldsSiteWide(db, user, key);
      assert forall c :: Holds(db, user, key, Some(c));
    }
    if key :| key in cat.scopes && cat.scopes[key] == Competition && Holds(db, user, key, None) {
      var a :| a in db.assignments && Carries(db, a, user, key) && IsSiteWide(db, a);
      var i :| 0 <= i < |db.roles[a.role].permissions| && db.roles[a.role].permissions[i] == key;
    }
  }

  // ---- joining --------------------------------------------------------------------------------

  function AfterJoining(db: Db, competition: Id, user: Id): Db {
    if db.participant.None? || Assignment(user, Some(competition), db.participant.value) in db.assignments then db
    else db.(assignments := db.assignments + [Assignment(user, Some(competition), db.participant.value)])
  }

  class Membership {
    var db: Db

    constructor (db: Db)
      ensures this.db == db
    {
      this.db := db;
    }

    method EnsureParticipantRole(competition: Id, user: Id) returns (added: bool)
      modifies this
      ensures db == AfterJoining(old(db), competition, user) && (added <==> db != old(db))
    {
      if db.participant.None? {
        return false;
      }
      var row := Assignment(user, Some(competition), db.participant.value);
      if row in db.assignments {
        return false;
      }
      assert |db.assignments + [row]| != |db.assignments|;
      db := db.(assignments := db.assignments + [row]);
      return true;
    }
  }

  /** The participant role grants the floor and no more. */
  ghost predicate FloorOnly(db: Db, cat: Catalogue) {
    db.participant.Some? && db.participant.value in db.roles &&
    forall key :: key in db.roles[db.participant.value].permissions <==> key in cat.floor
  }

  /** Joining a competition gives exactly the floor, there only, to this user only. */
  lemma JoiningGivesTheFloor(db: Db, cat: Catalogue, competition: Id, user: Id, other: Id, key: Key,
                             context: Option<Id>)
    requires FloorOnly(db, cat)
    ensures var after := AfterJoining(db, competition, user);
            Holds(after, other, key, context) <==>
              Holds(db, other, key, context) || (other == user && context == Some(competition) && key in cat.floor)
    ensures HoldsSiteWide(AfterJoining(db, competition, user), other, key) <==> HoldsSiteWide(db, other, key)
  {
    var after := AfterJoining(db, competition, user);
    var row := Assignment(user, Some(competition), db.participant.value);
    assert row in after.assignments;
    assert key in cat.floor ==> Carries(after, row, user, key);
    forall a | a in db.assignments ensures a in after.assignments {
    }
    forall a | a in after.assignments ensures a in db.assignments || a == row {
    }
    assert forall a :: Carries(after, a, other, key) == Carries(db, a, other, key);
    assert forall a :: IsSiteWide(after, a) == IsSiteWide(db, a);
  }

  /** And so it changes nobody's standing: whoever could manage an account still can, and no one else. */
  lemma JoiningKeepsManagement(db: Db, cat: Catalogue, competition: Id, user: Id, actor: Id, target: Id)
    requires FloorOnly(db, cat)
    ensures MayManage(AfterJoining(db, competition, user), cat, actor, target) <==> MayManage(db, cat, actor, target)
  {
    var after := AfterJoining(db, competition, user);
    forall key, who ensures HoldsSiteWide(after, who, key) <==> HoldsSiteWide(db, who, key) {
      JoiningGivesTheFloor(db, cat, competition, user, who, key, None);
    }
    forall key ensures Confers(after, cat, target, key) <==> Confers(db, cat, target, key) {
      forall c ensures key !in cat.floor ==> (Holds(after, target, key, Some(c)) <==> Holds(db, target, key, Some(c))) {
        JoiningGivesTheFloor(db, cat, competition, user, target, key, Some(c));
      }
    }
  }

  lemma {:induction false} JoiningTwiceIsJoiningOnce(db: Db, competition: Id, user: Id)
    ensures AfterJoining(AfterJoining(db, competition, user), competition, user) == AfterJoining(db, competition, user)
  {
    if db.participant.Some? {
      var row := Assignment(user, Some(competition), db.participant.value);
      assert row in AfterJoining(db, competition, user).assignments;
    }
  }

  // ---- refusals -------------------------------------------------------------------------------

  /** A catalogued permission the actor lacks site-wide, and the target holds site-wide, or in some
      competition where it is more than the floor. */
  ghost predicate Reason(db: Db, cat: Catalogue, actor: Id, target: Id, key: Key) {
    && key in cat.scopes && !HoldsSiteWide(db, actor, key)
    && (HoldsSiteWide(db, target, key) || exists c :: key !in cat.floor && HoldsIn(db, target, key, c))
  }

  /** Managing another account is refused exactly when there is such a permission. */
  lemma RefusalHasAReason(db: Db, cat: Catalogue, actor: Id, target: Id)
    ensures !MayManage(db, cat, actor, target) <==> actor != target && exists key :: Reason(db, cat, actor, target, key)
  {
    if !MayManage(db, cat, actor, target) {
      var key :| Confers(db, cat, target, key) && !HoldsSiteWide(db, actor, key);
      if !HoldsSiteWide(db, target, key) {
        var c :| HoldsIn(db, target, key, c);
        assert key !in cat.floor && HoldsIn(db, target, key, c);
      }
      assert Reason(db, cat, actor, target, key);
    }
    if key :| Reason(db, cat, actor, target, key) {
      assert Confers(db, cat, target, key);
    }
  }

  /** So everyone may manage an ordinary player: an account whose assignments are all of the
      participant role. */
  lemma PlayersAreManageable(db: Db, cat: Catalogue, actor: Id, target: Id)
    requires FloorOnly(db, cat)
    requires forall a | a in db.assignments && a.user == target :: a.role == db.participant.value && a.competition.Some?
    ensures MayManage(db, cat, actor, target)
  {
    forall key, c | HoldsIn(db, target, key, c) ensures key in cat.floor {
      var a :| a in db.assignments && Carries(db, a, target, key) && a.competition == Some(c);
    }
    assert forall key :: !HoldsSiteWide(db, target, key);
    assert forall key :: !Confers(db, cat, target, key);
  }
}
