/** Refresh-token rotation and reuse detection (RFC 9700, section 4.14.2), with every request cut
    into its database statements and all requests interleaved. A presented token is the id of its
    session row (hashing is injective); families and sessions get fresh ids. */
module RefreshSessions {
  import opened Options

  type SessionId = nat
  type Family = nat
  type UserId = string
  type Time = nat

  const REUSE_GRACE := 10

  datatype Session = Session(user: UserId, expiresAt: Time, revokedAt: Option<Time>, family: Option<Family>)

  type Table = map<SessionId, Session>

  // ---- the statements -------------------------------------------------------------------------

  predicate Live(t: Table, id: SessionId) {
    id in t && t[id].revokedAt.None?
  }

  /** UPDATE ... WHERE id = :id AND revoked_at IS NULL. */
  function Claimed(t: Table, id: SessionId, family: Family, now: Time): Table {
    if Live(t, id) then t[id := t[id].(revokedAt := Some(now), family := Some(family))] else t
  }

  /** UPDATE ... WHERE family_id = :family AND revoked_at IS NULL. */
  function FamilyRevoked(t: Table, family: Family, now: Time): Table {
    map id | id in t ::
      if t[id].family == Some(family) && t[id].revokedAt.None? then t[id].(revokedAt := Some(now)) else t[id]
  }

  /** The unconditional write-back of rows that were read as unrevoked. */
  function Stamped(t: Table, ids: set<SessionId>, now: Time): Table {
    map id | id in t :: if id in ids then t[id].(revokedAt := Some(now)) else t[id]
  }

  function LiveOf(t: Table, user: UserId): set<SessionId> {
    set id | id in t && t[id].user == user && t[id].revokedAt.None?
  }

  /** The `refresh_sessions` table and the statements the auth routes run on it. */
  class SessionTable {
    var rows: Table
    var nextId: SessionId
    var nextFamily: Family

    constructor ()
      ensures rows == map[] && nextId == 0 && nextFamily == 0
    {
      rows, nextId, nextFamily := map[], 0, 0;
    }

    /** `_issue_session`: a rotation passes its family on, a login mints one. */
    method IssueSession(user: UserId, family: Option<Family>, expiresAt: Time) returns (id: SessionId)
      modifies this
      ensures id == old(nextId) && nextId == id + 1
      ensures var f := if family.Some? then family.value else old(nextFamily);
              rows == old(rows)[id := Session(user, expiresAt, None, Some(f))]
      ensures nextFamily == if family.Some? then old(nextFamily) else old(nextFamily) + 1
    {
      var f := nextFamily;
      if family.Some? {
        f := family.value;
      } else {
        nextFamily := nextFamily + 1;
      }
      id := nextId;
      nextId := nextId + 1;
      rows := rows[id := Session(user, expiresAt, None, Some(f))];
    }

    method ClaimRotation(id: SessionId, family: Family, now: Time) returns (rowcount: nat)
      modifies this`rows
      ensures rows == Claimed(old(rows), id, family, now)
      ensures rowcount == if Live(old(rows), id) then 1 else 0
    {
      if id in rows && rows[id].revokedAt.None? {
        rows := rows[id := rows[id].(revokedAt := Some(now), family := Some(family))];
        return 1;
      }
      return 0;
    }

    /** The family revocation, row by row: afterwards no session of the family is unrevoked, those
        revoked before keep their stamp, and no other row is touched. */
    method RevokeFamily(family: Family, now: Time)
      modifies this`rows
      ensures rows == FamilyRevoked(old(rows), family, now)
      ensures rows.Keys == old(rows).Keys && forall id | Live(rows, id) :: rows[id].family != Some(family)
      ensures forall id | id in rows && (old(rows)[id].family != Some(family) || !Live(old(rows), id)) ::
                rows[id] == old(rows)[id]
    {
      var todo := rows.Keys;
      while todo != {}
        invariant rows.Keys == old(rows).Keys && todo <= rows.Keys
        invariant forall id | id in rows ::
                  rows[id] == (if id in todo then old(rows) else FamilyRevoked(old(rows), family, now))[id]
        decreases todo
      {
        var id :| id in todo;
        todo := todo - {id};
        if rows[id].family == Some(family) && rows[id].revokedAt.None? {
          rows := rows[id := rows[id].(revokedAt := Some(now))];
        }
      }
    }

    /** The loop of change-password and reset-password over the sessions it selected. */
    method StampEach(ids: set<SessionId>, now: Time)
      modifies this`rows
      ensures rows == Stamped(old(rows), ids, now)
    {
      var todo := ids;
      while todo != {}
        invariant todo <= ids && rows == Stamped(old(rows), ids - todo, now)
        decreases todo
      {
        var id :| id in todo;
        todo := todo - {id};
        if id in rows {
          rows := rows[id := rows[id].(revokedAt := Some(now))];
        }
      }
      assert ids - todo == ids;
    }
  }

  // ---- requests, interleaved ------------------------------------------------------------------

  datatype Request =
    | Reading(id: SessionId, family: Family)  // refresh: checks passed, about to claim
    | Replaying(family: Family)               // refresh: saw a revoked token past the grace
    | Rotating(id: SessionId, family: Family) // refresh: claimed, successor not issued yet
    | Stamping(ids: set<SessionId>)           // logout, change-password: rows read, not written yet
    | Done

  /** The session rows, and three histories kept beside them: the session each rotation replaced,
      how many rotations led to a session, and per family the session issued last. */
  datatype Db = Db(
    rows: Table,
    nextId: SessionId,
    parent: map<SessionId, SessionId>,
    rank: map<SessionId, nat>,
    tips: map<Family, SessionId>)

  datatype System = System(now: Time, db: Db, nextFamily: Family, requests: map<nat, Request>)

  datatype Step =
    | Login(user: UserId, expiresAt: Time)
    | Read(r: nat, id: SessionId)              // the SELECT and the checks of /refresh
    | Revoke(r: nat)                           // the family revocation
    | Claim(r: nat)                            // the conditional UPDATE
    | Issue(r: nat, expiresAt: Time)           // _issue_session for the successor
    | Refuse(r: nat)                           // user gone or disabled after the claim
    | LogoutRead(r: nat, id: SessionId)
    | PasswordRead(r: nat, user: UserId)
    | Write(r: nat)
    | Tick(to: Time)

  ghost predicate Enabled(g: System, a: Step) {
    match a
    case Login(_, _) => true
    case Read(r, _) => r !in g.requests
    case LogoutRead(r, _) => r !in g.requests
    case PasswordRead(r, _) => r !in g.requests
    case Revoke(r) => r in g.requests && g.requests[r].Replaying?
    case Claim(r) => r in g.requests && g.requests[r].Reading?
    case Issue(r, _) => r in g.requests && g.requests[r].Rotating? && g.requests[r].id in g.db.rows
    case Refuse(r) => r in g.requests && g.requests[r].Rotating?
    case Write(r) => r in g.requests && g.requests[r].Stamping?
    case Tick(to) => g.now <= to
  }

  /** What /refresh does after its SELECT found (or did not find) the row. */
  function Outcome(rows: Table, id: SessionId, now: Time, mint: Family): Request {
    if id !in rows then Done
    else if rows[id].revokedAt.Some? then
      if rows[id].family.Some? && now > rows[id].revokedAt.value + REUSE_GRACE then Replaying(rows[id].family.value)
          else Done
    else if rows[id].expiresAt <= now then Done
    else Reading(id, if rows[id].family.Some? then rows[id].family.value else mint)
  }

  /** A login's first session, opening family `f`. */
  function Opened(db: Db, user: UserId, f: Family, expiresAt: Time): Db {
    Db(db.rows[db.nextId := Session(user, expiresAt, None, Some(f))], db.nextId + 1,
       db.parent, db.rank[db.nextId := 0], db.tips[f := db.nextId])
  }

  /** A claim that went through; the first one of a session without family opens its family. */
  function ClaimedDb(db: Db, id: SessionId, f: Family, now: Time): Db {
    var db' := db.(rows := Claimed(db.rows, id, f, now));
    if f in db.tips then db' else db'.(rank := db.rank[id := 0], tips := db.tips[f := id])
  }

  /** The successor of session `id`. */
  function Succeeded(db: Db, id: SessionId, f: Family, expiresAt: Time): Db
    requires id in db.rows
  {
    Db(db.rows[db.nextId := Session(db.rows[id].user, expiresAt, None, Some(f))], db.nextId + 1,
       db.parent[db.nextId := id], db.rank[db.nextId := if id in db.rank then db.rank[id] + 1 else 0],
       db.tips[f := db.nextId])
  }

  function Finish(g: System, r: nat, q: Request): System {
    g.(requests := g.requests[r := q])
  }

  ghost function After(g: System, a: Step): System
    requires Enabled(g, a)
  {
    match a
    case Login(user, expiresAt) => g.(db := Opened(g.db, user, g.nextFamily, expiresAt), nextFamily := g.nextFamily + 1)
    case Read(r, id) => Finish(g, r, Outcome(g.db.rows, id, g.now, g.nextFamily)).(nextFamily := g.nextFamily + 1)
    case Revoke(r) => Finish(g, r, Done).(db := g.db.(rows := FamilyRevoked(g.db.rows, g.requests[r].family, g.now)))
    case Claim(r) =>
      var id, f := g.requests[r].id, g.requests[r].family;
      if Live(g.db.rows, id) then Finish(g, r, Rotating(id, f)).(db := ClaimedDb(g.db, id, f, g.now))
      else Finish(g, r, Done)
    case Issue(r, expiresAt) =>
        Finish(g, r, Done).(db := Succeeded(g.db, g.requests[r].id, g.requests[r].family, expiresAt))
    case Refuse(r) => Finish(g, r, Done)
    case LogoutRead(r, id) => Finish(g, r, if Live(g.db.rows, id) then Stamping({id}) else Done)
    case PasswordRead(r, user) => Finish(g, r, Stamping(LiveOf(g.db.rows, user)))
    case Write(r) => Finish(g, r, Done).(db := g.db.(rows := Stamped(g.db.rows, g.requests[r].ids, g.now)))
    case Tick(to) => g.(now := to)
  }

  /** The table may start with sessions from before families existed. */
  ghost predicate Initial(g: System) {
    && (forall id | id in g.db.rows :: g.db.rows[id].family.None? && id < g.db.nextId)
    && g.nextFamily == 0 && g.requests == map[] && g.db.parent == map[] && g.db.rank == map[] && g.db.tips == map[]
  }

  ghost function Exec(start: System, run: seq<Step>): Option<System> {
    if run == [] then Some(start)
    else
      var mid := Exec(start, run[..|run| - 1]);
      var a := run[|run| - 1];
      if mid.Some? && Enabled(mid.value, a) then Some(After(mid.value, a)) else None
  }

  // ---- the invariant --------------------------------------------------------------------------

  /** A session of a family has its place: no later than the tip, revoked unless it is the tip, and
      one rotation after its parent unless it is the root. */
  ghost predicate Placed(db: Db, id: SessionId) {
    id in db.rows && db.rows[id].family.Some? ==>
      var f := db.rows[id].family.value;
      && id in db.rank && TipOk(db, f) && f in db.tips && db.tips[f] in db.rank && db.rank[id] <= db.rank[db.tips[f]]
      && (id != db.tips[f] ==> db.rows[id].revokedAt.Some?)
      && (id in db.parent <==> db.rank[id] > 0)
      && (id in db.parent ==>
            var p := db.parent[id];
            p in db.rows && db.rows[p].family == Some(f) && p in db.rank && db.rank[p] + 1 == db.rank[id])
  }

  /** No two sessions of a family are equally many rotations from its start. */
  ghost predicate Apart(db: Db, x: SessionId, y: SessionId) {
    (&& x in db.rows && y in db.rows && db.rows[x].family.Some? && db.rows[x].family == db.rows[y].family
     && x in db.rank && y in db.rank && db.rank[x] == db.rank[y])
    ==> x == y
  }

  ghost predicate TipOk(db: Db, f: Family) {
    f in db.tips ==> db.tips[f] in db.rows && db.rows[db.tips[f]].family == Some(f)
  }

  ghost predicate DbOk(db: Db) {
    && (forall id {:trigger Placed(db, id)} :: Placed(db, id))
    && (forall x, y {:trigger Apart(db, x, y)} :: Apart(db, x, y))
    && (forall f {:trigger TipOk(db, f)} :: TipOk(db, f))
    && (forall id | id in db.rows :: id < db.nextId)
    && (forall id | id in db.parent :: id in db.rows && db.rows[id].family.Some?)
  }

  /** A reading request may claim with its session's own family, or with one reserved for it. */
  ghost predicate MayClaim(db: Db, nextFamily: Family, id: SessionId, f: Family) {
    && id in db.rows && f < nextFamily
    && (Live(db.rows, id) ==> db.rows[id].family == Some(f) || (db.rows[id].family.None? && f !in db.tips))
  }

  /** A rotation in flight holds the last session of its family. */
  ghost predicate Held(db: Db, id: SessionId, f: Family) {
    f in db.tips && db.tips[f] == id && id in db.rows && db.rows[id].revokedAt.Some?
  }

  ghost predicate RequestOk(db: Db, nextFamily: Family, q: Request) {
    match q
    case Reading(id, f) => MayClaim(db, nextFamily, id, f)
    case Replaying(f) => f in db.tips
    case Rotating(id, f) => Held(db, id, f)
    case _ => true
  }

  /** Two requests never hold one family in flight, nor one reserved family. */
  ghost predicate Distinct(db: Db, q: Request, q': Request) {
    && !(q.Rotating? && q'.Rotating? && q.family == q'.family)
    && (q.Reading? && q'.Reading? && q.family == q'.family ==> q.family in db.tips)
  }

  ghost predicate Inv(g: System) {
    && DbOk(g.db)
    && (forall f | f in g.db.tips :: f < g.nextFamily)
    && (forall r | r in g.requests :: RequestOk(g.db, g.nextFamily, g.requests[r]))
    && (forall r, q | r in g.requests && q in g.requests && r != q :: Distinct(g.db, g.requests[r], g.requests[q]))
  }

  // ---- every step keeps it --------------------------------------------------------------------

  /** `rows'` is `rows` with some of them revoked, or revoked again. */
  ghost predicate OnlyRevokes(rows: Table, rows': Table) {
    && rows'.Keys == rows.Keys
    && forall id | id in rows :: rows'[id] == rows[id]
        || (rows'[id].revokedAt.Some? && rows'[id] == rows[id].(revokedAt := rows'[id].revokedAt))
  }

  /** Statements that only revoke rows keep everything. */
  lemma RevokingKeepsInv(g: System, rows: Table, r: nat)
    requires Inv(g) && OnlyRevokes(g.db.rows, rows)
    ensures Inv(Finish(g, r, Done).(db := g.db.(rows := rows)))
  {
    var db := g.db.(rows := rows);
    forall id ensures Placed(db, id) { assert Placed(g.db, id); }
    forall x, y ensures Apart(db, x, y) { assert Apart(g.db, x, y); }
    forall f ensures TipOk(db, f) { assert TipOk(g.db, f); }
  }

  lemma LoginKeepsInv(g: System, user: UserId, expiresAt: Time)
    requires Inv(g)
    ensures Inv(After(g, Login(user, expiresAt)))
  {
    LoginKeepsDb(g, user, expiresAt);
  }

  lemma LoginKeepsDb(g: System, user: UserId, expiresAt: Time)
    requires Inv(g)
    ensures DbOk(Opened(g.db, user, g.nextFamily, expiresAt))
  {
    var f := g.nextFamily;
    var db := Opened(g.db, user, f, expiresAt);
    forall id ensures Placed(db, id) { assert Placed(g.db, id); }
    forall x, y ensures Apart(db, x, y) { assert Apart(g.db, x, y) && Placed(g.db, x) && Placed(g.db, y); }
    forall h ensures TipOk(db, h) { assert TipOk(g.db, h); }
  }

  /** A new request leaves the table alone and may reserve the next family. */
  lemma ReadKeepsInv(g: System, r: nat, q: Request)
    requires Inv(g) && r !in g.requests && RequestOk(g.db, g.nextFamily + 1, q) && !q.Rotating?
    requires q.Reading? && q.family !in g.db.tips ==> q.family == g.nextFamily
    ensures Inv(Finish(g, r, q).(nextFamily := g.nextFamily + 1))
    ensures Inv(Finish(g, r, q)) || q.Reading?
  {
    forall p | p in g.requests
        ensures RequestOk(g.db, g.nextFamily + 1, g.requests[p]) && Distinct(g.db, q, g.requests[p])
                  && Distinct(g.db, g.requests[p], q) {
      assert RequestOk(g.db, g.nextFamily, g.requests[p]);
    }
  }

  lemma OutcomeOk(g: System, id: SessionId)
    requires Inv(g)
    ensures var q := Outcome(g.db.rows, id, g.now, g.nextFamily);
            && RequestOk(g.db, g.nextFamily + 1, q) && !q.Rotating?
            && (q.Reading? && q.family !in g.db.tips ==> q.family == g.nextFamily)
  {
    assert Placed(g.db, id);
  }

  lemma ClaimKeepsDb(g: System, r: nat)
    requires Inv(g) && r in g.requests && g.requests[r].Reading? && Live(g.db.rows, g.requests[r].id)
    ensures var db := ClaimedDb(g.db, g.requests[r].id, g.requests[r].family, g.now);
            && DbOk(db) && Held(db, g.requests[r].id, g.requests[r].family)
            && forall f | f in db.tips :: f < g.nextFamily
  {
    var id, f := g.requests[r].id, g.requests[r].family;
    var db := ClaimedDb(g.db, id, f, g.now);
    assert RequestOk(g.db, g.nextFamily, g.requests[r]) && Placed(g.db, id);
    forall x ensures Placed(db, x) { assert Placed(g.db, x); }
    forall x, y ensures Apart(db, x, y) { assert Apart(g.db, x, y) && Placed(g.db, x) && Placed(g.db, y); }
    forall h ensures TipOk(db, h) { assert TipOk(g.db, h); }
  }

  lemma ClaimKeepsInv(g: System, r: nat)
    requires Inv(g) && r in g.requests && g.requests[r].Reading? && Live(g.db.rows, g.requests[r].id)
    ensures Inv(After(g, Claim(r)))
  {
    var id, f := g.requests[r].id, g.requests[r].family;
    var db := ClaimedDb(g.db, id, f, g.now);
    ClaimKeepsDb(g, r);
    assert RequestOk(g.db, g.nextFamily, g.requests[r]) && Placed(g.db, id);
    forall q | q in g.requests && q != r
      ensures RequestOk(db, g.nextFamily, g.requests[q])
      ensures Distinct(db, g.requests[q], Rotating(id, f)) && Distinct(db, Rotating(id, f), g.requests[q])
    {
      assert RequestOk(g.db, g.nextFamily, g.requests[q]) && Distinct(g.db, g.requests[r], g.requests[q]);
    }
  }

  lemma IssueKeepsDb(g: System, r: nat, expiresAt: Time)
    requires Inv(g) && Enabled(g, Issue(r, expiresAt))
    ensures var db := Succeeded(g.db, g.requests[r].id, g.requests[r].family, expiresAt);
            DbOk(db) && forall f | f in db.tips :: f < g.nextFamily
  {
    var id, f := g.requests[r].id, g.requests[r].family;
    var db := Succeeded(g.db, id, f, expiresAt);
    assert RequestOk(g.db, g.nextFamily, g.requests[r]) && TipOk(g.db, f) && Placed(g.db, id);
    forall x ensures Placed(db, x) { assert Placed(g.db, x); }
    forall x, y ensures Apart(db, x, y) { assert Apart(g.db, x, y) && Placed(g.db, x) && Placed(g.db, y); }
    forall h ensures TipOk(db, h) { assert TipOk(g.db, h); }
  }

  lemma IssueKeepsInv(g: System, r: nat, expiresAt: Time)
    requires Inv(g) && Enabled(g, Issue(r, expiresAt))
    ensures Inv(After(g, Issue(r, expiresAt)))
  {
    var id, f := g.requests[r].id, g.requests[r].family;
    var db := Succeeded(g.db, id, f, expiresAt);
    IssueKeepsDb(g, r, expiresAt);
    assert RequestOk(g.db, g.nextFamily, g.requests[r]);
    forall q | q in g.requests && q != r ensures RequestOk(db, g.nextFamily, g.requests[q]) {
      assert RequestOk(g.db, g.nextFamily, g.requests[q]) && Distinct(g.db, g.requests[r], g.requests[q]);
    }
  }

  lemma StepKeepsInv(g: System, a: Step)
    requires Inv(g) && Enabled(g, a)
    ensures Inv(After(g, a))
  {
    match a {
      case Login(user, expiresAt) => LoginKeepsInv(g, user, expiresAt);
      case Read(r, id) =>
        OutcomeOk(g, id);
        ReadKeepsInv(g, r, Outcome(g.db.rows, id, g.now, g.nextFamily));
      case LogoutRead(r, id) => ReadKeepsInv(g, r, if Live(g.db.rows, id) then Stamping({id}) else Done);
      case PasswordRead(r, user) => ReadKeepsInv(g, r, Stamping(LiveOf(g.db.rows, user)));
      case Issue(r, expiresAt) => IssueKeepsInv(g, r, expiresAt);
      case Claim(r) =>
        if Live(g.db.rows, g.requests[r].id) {
          ClaimKeepsInv(g, r);
        } else {
          RevokingKeepsInv(g, g.db.rows, r);
        }
      case Revoke(r) => RevokingKeepsInv(g, FamilyRevoked(g.db.rows, g.requests[r].family, g.now), r);
      case Write(r) => RevokingKeepsInv(g, Stamped(g.db.rows, g.requests[r].ids, g.now), r);
      case Refuse(r) => RevokingKeepsInv(g, g.db.rows, r);
      case Tick(_) =>
    }
  }

  lemma {:induction false} RunKeepsInv(start: System, run: seq<Step>)
    requires Inv(start) && Exec(start, run).Some?
    ensures Inv(Exec(start, run).value)
  {
    if run != [] {
      RunKeepsInv(start, run[..|run| - 1]);
      StepKeepsInv(Exec(start, run[..|run| - 1]).value, run[|run| - 1]);
    }
  }

  // ---- what rotation guarantees ---------------------------------------------------------------

  /** Request `r` holds a rotation of family `f` that is claimed and not issued. */
  ghost predicate Flying(g: System, f: Family, r: nat) {
    r in g.requests && g.requests[r].Rotating? && g.requests[r].family == f
  }

  /** Session `s` is unrevoked in family `f`. */
  ghost predicate Usable(g: System, f: Family, s: SessionId) {
    Live(g.db.rows, s) && g.db.rows[s].family == Some(f)
  }

  /** In every interleaving a family has at most one session that is unrevoked or in flight
      between claim and issue. */
  lemma AtMostOneUsableSession(start: System, run: seq<Step>, f: Family)
    requires Initial(start) && Exec(start, run).Some?
    ensures var g := Exec(start, run).value;
            && (forall s, s' | Usable(g, f, s) && Usable(g, f, s') :: s == s')
            && (forall r, r' | Flying(g, f, r) && Flying(g, f, r') :: r == r')
            && (forall s, r | Usable(g, f, s) && Flying(g, f, r) :: false)
  {
    RunKeepsInv(start, run);
    var g := Exec(start, run).value;
    forall s | Usable(g, f, s) ensures f in g.db.tips && s == g.db.tips[f] {
      assert Placed(g.db, s);
    }
    forall r | Flying(g, f, r) ensures RequestOk(g.db, g.nextFamily, g.requests[r]) {}
  }

  /** The session `n` rotations before `id`. */
  function Ancestor(parent: map<SessionId, SessionId>, id: SessionId, n: nat): Option<SessionId>
    decreases n
  {
    if n == 0 then Some(id) else if id in parent then Ancestor(parent, parent[id], n - 1) else None
  }

  /** Every family is one chain: of two of its sessions one is an ancestor of the other, and no
      session is ever replaced twice. */
  lemma EveryFamilyIsAChain(start: System, run: seq<Step>, x: SessionId, y: SessionId)
    requires Initial(start) && Exec(start, run).Some?
    ensures var g := Exec(start, run).value;
            && (x in g.db.rows && y in g.db.rows && g.db.rows[x].family.Some?
                && g.db.rows[x].family == g.db.rows[y].family ==>
                  exists n :: Ancestor(g.db.parent, y, n) == Some(x) || Ancestor(g.db.parent, x, n) == Some(y))
            && (x in g.db.parent && y in g.db.parent && g.db.parent[x] == g.db.parent[y] ==> x == y)
  {
    RunKeepsInv(start, run);
    var g := Exec(start, run).value;
    if x in g.db.rows && y in g.db.rows && g.db.rows[x].family.Some? && g.db.rows[x].family == g.db.rows[y].family {
      assert Placed(g.db, x) && Placed(g.db, y);
      if g.db.rank[x] <= g.db.rank[y] { Climb(g, x, y); } else { Climb(g, y, x); }
    }
    if x in g.db.parent && y in g.db.parent && g.db.parent[x] == g.db.parent[y] {
      assert Placed(g.db, x) && Placed(g.db, y);
    }
  }

  lemma {:induction false} Climb(g: System, x: SessionId, y: SessionId)
    requires DbOk(g.db) && x in g.db.rows && y in g.db.rows && g.db.rows[x].family.Some?
             && g.db.rows[x].family == g.db.rows[y].family
    requires x in g.db.rank && y in g.db.rank && g.db.rank[x] <= g.db.rank[y]
    ensures Ancestor(g.db.parent, y, g.db.rank[y] - g.db.rank[x]) == Some(x)
    decreases g.db.rank[y]
  {
    assert Placed(g.db, y) && Apart(g.db, x, y);
    if g.db.rank[x] < g.db.rank[y] {
      Climb(g, x, g.db.parent[y]);
    }
  }

  /** No session of the family can be used, now or by a rotation in flight. */
  ghost predicate Dead(g: System, f: Family) {
    (forall s :: !Usable(g, f, s)) && (forall r :: !Flying(g, f, r))
  }

  /** Right after reuse detection no session of the family is usable, and the rotations in flight
      are those that were. */
  lemma RevokeLeavesNothingUsable(g: System, r: nat)
    requires Inv(g) && Enabled(g, Revoke(r))
    ensures forall s :: !Usable(After(g, Revoke(r)), g.requests[r].family, s)
    ensures Dead(After(g, Revoke(r)), g.requests[r].family) <==> forall q :: !Flying(g, g.requests[r].family, q)
  {
    var f := g.requests[r].family;
    var g' := After(g, Revoke(r));
    if q :| Flying(g, f, q) {
      assert Flying(g', f, q);
    }
    forall q | Flying(g', f, q) ensures Flying(g, f, q) {}
    forall s ensures !Usable(g', f, s) {}
  }

  /** A rotation that was in flight then goes on to issue a usable session of the revoked family. */
  lemma InFlightRotationSurvivesReuse(g: System, r: nat, q: nat, expiresAt: Time)
    requires Inv(g) && Enabled(g, Revoke(r)) && Flying(g, g.requests[r].family, q)
    ensures var g' := After(g, Revoke(r));
            && Enabled(g', Issue(q, expiresAt))
            && Live(After(g', Issue(q, expiresAt)).db.rows, g.db.nextId)
            && After(g', Issue(q, expiresAt)).db.rows[g.db.nextId].family == Some(g.requests[r].family)
  {
    assert RequestOk(g.db, g.nextFamily, g.requests[q]);
  }

  /** A dead family has no usable session in that or any later state. */
  lemma {:induction false} DeadFamilyStaysDead(g: System, run: seq<Step>, f: Family)
    requires Inv(g) && f in g.db.tips && Dead(g, f) && Exec(g, run).Some?
    ensures f in Exec(g, run).value.db.tips && Dead(Exec(g, run).value, f)
  {
    if run != [] {
      var front := run[..|run| - 1];
      DeadFamilyStaysDead(g, front, f);
      RunKeepsInv(g, front);
      DeadStep(Exec(g, front).value, run[|run| - 1], f);
    }
  }

  lemma DeadStep(g: System, a: Step, f: Family)
    requires Inv(g) && f in g.db.tips && Dead(g, f) && Enabled(g, a)
    ensures f in After(g, a).db.tips && Dead(After(g, a), f)
  {
    var g' := After(g, a);
    if a.Claim? {
      var id := g.requests[a.r].id;
      assert RequestOk(g.db, g.nextFamily, g.requests[a.r]) && Placed(g.db, id);
      assert !Usable(g, f, id);
    }
    if a.Issue? {
      assert !Flying(g, f, a.r);
    }
    forall r ensures !Flying(g', f, r) {
      assert !Flying(g, f, r);
    }
    forall s ensures !Usable(g', f, s) {
      assert !Usable(g, f, s) && f < g.nextFamily;
    }
  }

  lemma ExecSnoc(start: System, run: seq<Step>, a: Step)
    requires Exec(start, run).Some? && Enabled(Exec(start, run).value, a)
    ensures Exec(start, run + [a]) == Some(After(Exec(start, run).value, a))
  {
    assert (run + [a])[..|run + [a]| - 1] == run;
  }

  /** The family has a usable session after some continuation of `g`. */
  ghost predicate MayBeUsed(g: System, f: Family) {
    exists run, s :: Exec(g, run).Some? && Usable(Exec(g, run).value, f, s)
  }

  /** Reuse detection ends the family for good, over every continuation, exactly when no rotation of
      it stands between claim and issue at that moment. */
  lemma ReuseKillsTheFamilyIffNoneInFlight(g: System, r: nat)
    requires Inv(g) && Enabled(g, Revoke(r))
    ensures !MayBeUsed(After(g, Revoke(r)), g.requests[r].family) <==> forall q :: !Flying(g, g.requests[r].family, q)
  {
    var f := g.requests[r].family;
    var g' := After(g, Revoke(r));
    RevokeLeavesNothingUsable(g, r);
    StepKeepsInv(g, Revoke(r));
    assert RequestOk(g.db, g.nextFamily, g.requests[r]);
    if q :| Flying(g, f, q) {
      InFlightRotationSurvivesReuse(g, r, q, 0);
      assert Exec(g', []) == Some(g');
      ExecSnoc(g', [], Issue(q, 0));
      assert Usable(Exec(g', [] + [Issue(q, 0)]).value, f, g.db.nextId);
    } else {
      forall run, s | Exec(g', run).Some? ensures !Usable(Exec(g', run).value, f, s) {
        DeadFamilyStaysDead(g', run, f);
      }
    }
  }

  const NOBODY := System(0, Db(map[], 0, map[], map[], map[]), 0, map[])

  /** A new installation can come to this state. */
  ghost predicate Reachable(g: System) {
    exists run :: Exec(NOBODY, run) == Some(g)
  }

  lemma ReachableStep(g: System, a: Step)
    requires Reachable(g) && Enabled(g, a)
    ensures Reachable(After(g, a))
  {
    var run :| Exec(NOBODY, run) == Some(g);
    ExecSnoc(NOBODY, run, a);
  }

  lemma ReachableInv(g: System)
    requires Reachable(g)
    ensures Inv(g)
  {
    var run :| Exec(NOBODY, run) == Some(g);
    RunKeepsInv(NOBODY, run);
  }

  const CLAIMED_ONCE := Db(map[0 := Session("u", 100, Some(0), Some(0))], 1, map[], map[0 := 0], map[0 := 0])

  /** One login, and one rotation of its session. */
  const ROTATED := Db(
    CLAIMED_ONCE.rows[1 := Session("u", 100, None, Some(0))], 2, map[1 := 0], map[0 := 0, 1 := 1], map[0 := 1])

  lemma ClaimedOnceIsReachable()
    ensures Reachable(System(0, CLAIMED_ONCE, 2, map[0 := Rotating(0, 0)]))
  {
    assert Exec(NOBODY, []) == Some(NOBODY);
    ReachableStep(NOBODY, Login("u", 100));
    var g := After(NOBODY, Login("u", 100));
    ReachableStep(g, Read(0, 0));
    g := After(g, Read(0, 0));
    ReachableStep(g, Claim(0));
    assert After(g, Claim(0)) == System(0, CLAIMED_ONCE, 2, map[0 := Rotating(0, 0)]);
  }

  lemma RotatedIsReachable()
    ensures Reachable(System(0, ROTATED, 2, map[0 := Done]))
  {
    ClaimedOnceIsReachable();
    var g := System(0, CLAIMED_ONCE, 2, map[0 := Rotating(0, 0)]);
    ReachableStep(g, Issue(0, 100));
    assert After(g, Issue(0, 100)) == System(0, ROTATED, 2, map[0 := Done]);
  }

  /** It happens: a replay past the grace is read while the successor is being rotated, so the
      revocation that follows leaves the family to be used again. */
  lemma ReplayMayMeetARotationInFlight()
    ensures exists g, r :: Reachable(g) && Enabled(g, Revoke(r)) && MayBeUsed(After(g, Revoke(r)), g.requests[r].family)
  {
    RotatedIsReachable();
    var g := System(0, ROTATED, 2, map[0 := Done]);
    ReachableStep(g, Tick(20));
    g := System(20, ROTATED, 2, map[0 := Done]);
    ReachableStep(g, Read(1, 0));
    assert After(g, Read(1, 0)) == System(20, ROTATED, 3, map[0 := Done, 1 := Replaying(0)]);
    ReplayThenRotation();
  }

  lemma ReplayThenRotation()
    requires Reachable(System(20, ROTATED, 3, map[0 := Done, 1 := Replaying(0)]))
    ensures exists g, r :: Reachable(g) && Enabled(g, Revoke(r)) && MayBeUsed(After(g, Revoke(r)), g.requests[r].family)
  {
    var g := System(20, ROTATED, 3, map[0 := Done, 1 := Replaying(0)]);
    ReachableStep(g, Read(2, 1));
    g := g.(nextFamily := 4, requests := g.requests[2 := Reading(1, 0)]);
    ReachableStep(g, Claim(2));
    g := After(g, Claim(2));
    ReachableInv(g);
    assert Flying(g, 0, 2) && g.requests[1] == Replaying(0);
    ReuseKillsTheFamilyIffNoneInFlight(g, 1);
  }

  /** The session is revoked, has a family, and was revoked longer than the grace ago. */
  predicate Replayed(g: System, id: SessionId) {
    && id in g.db.rows && !Live(g.db.rows, id) && g.db.rows[id].family.Some?
    && g.now - g.db.rows[id].revokedAt.value > REUSE_GRACE
  }

  /** What presenting a token does: it leads to a rotation exactly when the session is known,
      unrevoked and unexpired, to a family revocation exactly when it is a revoked session with a
      family past the grace, and otherwise it ends there; the table is untouched either way. */
  lemma PresentedToken(g: System, r: nat, id: SessionId)
    requires Enabled(g, Read(r, id))
    ensures var g' := After(g, Read(r, id));
            && g'.db.rows == g.db.rows
            && (g'.requests[r].Reading? <==> Presentable(g, id))
            && (g'.requests[r].Replaying? <==> Replayed(g, id))
            && (g'.requests[r].Reading? || g'.requests[r].Replaying? || g'.requests[r] == Done)
  {
  }

  function RequestOf(a: Step): Option<nat> {
    if a.Login? || a.Tick? then None else Some(a.r)
  }

  /** An unknown, expired or just revoked token ends its request there and then: it changes no row,
      and the request never makes another step. */
  lemma {:induction false} RefusedTokenChangesNothing(g: System, r: nat, id: SessionId, run: seq<Step>)
    requires Enabled(g, Read(r, id)) && !Presentable(g, id) && !Replayed(g, id)
    requires Exec(After(g, Read(r, id)), run).Some?
    ensures After(g, Read(r, id)).db == g.db
    ensures r in Exec(After(g, Read(r, id)), run).value.requests
              && Exec(After(g, Read(r, id)), run).value.requests[r] == Done
    ensures forall a | a in run :: RequestOf(a) != Some(r)
  {
    PresentedToken(g, r, id);
    if run != [] {
      RefusedTokenChangesNothing(g, r, id, run[..|run| - 1]);
      assert run == run[..|run| - 1] + [run[|run| - 1]];
    }
  }

  predicate Presentable(g: System, id: SessionId) {
    Live(g.db.rows, id) && g.now < g.db.rows[id].expiresAt
  }

  /** Step `i` of the run is the request's read of the session, known, unrevoked and unexpired then. */
  ghost predicate ReadAt(start: System, run: seq<Step>, i: nat, r: nat, id: SessionId) {
    i < |run| && run[i] == Read(r, id) && Exec(start, run[..i]).Some? && Presentable(Exec(start, run[..i]).value, id)
  }

  /** Step `j` of the run is the request's claim of the session, unrevoked then. */
  ghost predicate ClaimAt(start: System, run: seq<Step>, j: nat, r: nat, id: SessionId) {
    j < |run| && run[j] == Claim(r) && Exec(start, run[..j]).Some? && Live(Exec(start, run[..j]).value.db.rows, id)
  }

  ghost predicate Earned(start: System, run: seq<Step>, r: nat, id: SessionId) {
    exists i, j :: i < j && ReadAt(start, run, i, r, id) && ClaimAt(start, run, j, r, id)
  }

  lemma {:induction false} RequestsAreEarned(start: System, run: seq<Step>, r: nat)
    requires start.requests == map[] && Exec(start, run).Some? && r in Exec(start, run).value.requests
    ensures var q := Exec(start, run).value.requests[r];
            && (q.Reading? ==> exists i :: ReadAt(start, run, i, r, q.id))
            && (q.Rotating? ==> Earned(start, run, r, q.id))
  {
    if run != [] {
      var front, a := run[..|run| - 1], run[|run| - 1];
      var g, q := Exec(start, front).value, Exec(start, run).value.requests[r];
      if r in g.requests {
        RequestsAreEarned(start, front, r);
        forall i: nat, id | ReadAt(start, front, i, r, id) ensures ReadAt(start, run, i, r, id) {
          assert front[..i] == run[..i];
        }
        forall j: nat, id | ClaimAt(start, front, j, r, id) ensures ClaimAt(start, run, j, r, id) {
          assert front[..j] == run[..j];
        }
      }
      if q.Reading? && a == Read(r, q.id) {
        assert ReadAt(start, run, |front|, r, q.id);
      }
      if q.Rotating? && a == Claim(r) {
        var i :| ReadAt(start, front, i, r, q.id);
        assert ClaimAt(start, run, |front|, r, q.id);
      }
    }
  }

  /** Every successor ever issued was earned: its request read the session it replaces while that
      was known, unrevoked and unexpired, and later claimed it while it was unrevoked. */
  lemma EverySuccessorWasEarned(start: System, run: seq<Step>, a: Step)
    requires Initial(start) && Exec(start, run).Some? && a.Issue? && Enabled(Exec(start, run).value, a)
    ensures var g := Exec(start, run).value;
            var g' := After(g, a);
            var id := g.requests[a.r].id;
            && Earned(start, run, a.r, id)
            && g.db.nextId !in g.db.rows && g'.db.parent == g.db.parent[g.db.nextId := id]
            && g'.db.rows ==
                g.db.rows[g.db.nextId := Session(g.db.rows[id].user, a.expiresAt, None, g.db.rows[id].family)]
  {
    RequestsAreEarned(start, run, a.r);
    RunKeepsInv(start, run);
    var g := Exec(start, run).value;
    assert RequestOk(g.db, g.nextFamily, g.requests[a.r]) && TipOk(g.db, g.requests[a.r].family);
  }

  /** A request that did not pass the checks never obtains a session, whatever else happens. */
  lemma {:induction false} RefusedTokenNeverYieldsASession(g: System, run: seq<Step>, r: nat)
    requires Exec(g, run).Some? && r in g.requests
             && (g.requests[r].Done? || g.requests[r].Replaying? || g.requests[r].Stamping?)
    ensures var g' := Exec(g, run).value;
            r in g'.requests && (g'.requests[r].Done? || g'.requests[r].Replaying? || g'.requests[r].Stamping?)
  {
    if run != [] {
      RefusedTokenNeverYieldsASession(g, run[..|run| - 1], r);
    }
  }

  /** Refreshes one at a time: a revoked token replayed past the grace leaves its family without a
      usable session for good. */
  lemma ReplayEndsTheFamily(g: System, r: nat, id: SessionId, run: seq<Step>)
    requires Inv(g) && Enabled(g, Read(r, id)) && Replayed(g, id) && forall q ::
             !Flying(g, g.db.rows[id].family.value, q)
    requires Exec(After(After(g, Read(r, id)), Revoke(r)), run).Some?
    ensures Dead(Exec(After(After(g, Read(r, id)), Revoke(r)), run).value, g.db.rows[id].family.value)
  {
    var g1 := After(g, Read(r, id));
    StepKeepsInv(g, Read(r, id));
    forall q ensures !Flying(g1, g.db.rows[id].family.value, q) {
      assert !Flying(g, g.db.rows[id].family.value, q);
    }
    RevokeLeavesNothingUsable(g1, r);
    StepKeepsInv(g1, Revoke(r));
    assert RequestOk(g1.db, g1.nextFamily, g1.requests[r]);
    DeadFamilyStaysDead(After(g1, Revoke(r)), run, g.db.rows[id].family.value);
  }

  // ---- logging out everywhere -----------------------------------------------------------------

  ghost predicate LiveFor(g: System, user: UserId, s: SessionId) {
    Live(g.db.rows, s) && g.db.rows[s].user == user
  }

  ghost predicate FlyingFor(g: System, user: UserId, q: nat) {
    q in g.requests && g.requests[q].Rotating? && g.requests[q].id in g.db.rows
        && g.db.rows[g.requests[q].id].user == user
  }

  ghost predicate LoggedOut(g: System, user: UserId) {
    (forall s :: !LiveFor(g, user, s)) && (forall q :: !FlyingFor(g, user, q))
  }

  ghost predicate NoLogin(run: seq<Step>, user: UserId) {
    forall a | a in run :: !(a.Login? && a.user == user)
  }

  /** The user has a live session after some continuation of `g` without a new login. */
  ghost predicate MayStayLoggedIn(g: System, user: UserId) {
    exists run, s :: NoLogin(run, user) && Exec(g, run).Some? && LiveFor(Exec(g, run).value, user, s)
  }

  lemma LoggedOutStep(g: System, a: Step, user: UserId)
    requires Inv(g) && Enabled(g, a) && LoggedOut(g, user) && !(a.Login? && a.user == user)
    ensures LoggedOut(After(g, a), user)
  {
    var g' := After(g, a);
    if a.Claim? {
      assert RequestOk(g.db, g.nextFamily, g.requests[a.r]) && !LiveFor(g, user, g.requests[a.r].id);
    }
    if a.Issue? {
      assert !FlyingFor(g, user, a.r);
    }
    forall s ensures !LiveFor(g', user, s) {
      assert !LiveFor(g, user, s);
    }
    forall q ensures !FlyingFor(g', user, q) {
      assert !FlyingFor(g, user, q);
      if q in g.requests {
        assert RequestOk(g.db, g.nextFamily, g.requests[q]);
      }
    }
  }

  lemma {:induction false} LoggedOutStays(g: System, run: seq<Step>, user: UserId)
    requires Inv(g) && LoggedOut(g, user) && NoLogin(run, user) && Exec(g, run).Some?
    ensures LoggedOut(Exec(g, run).value, user)
  {
    if run != [] {
      var front := run[..|run| - 1];
      assert run == front + [run[|run| - 1]];
      LoggedOutStays(g, front, user);
      RunKeepsInv(g, front);
      LoggedOutStep(Exec(g, front).value, run[|run| - 1], user);
    }
  }

  /** A live session that was not read outlives the write, and so does a rotation in flight. */
  lemma WriteMisses(g: System, r: nat, user: UserId)
    requires Inv(g) && Enabled(g, Write(r))
    requires (exists s :: LiveFor(g, user, s) && s !in g.requests[r].ids) || exists q :: FlyingFor(g, user, q)
    ensures MayStayLoggedIn(After(g, Write(r)), user)
  {
    var g' := After(g, Write(r));
    assert Exec(g', []) == Some(g') && NoLogin([], user);
    if s :| LiveFor(g, user, s) && s !in g.requests[r].ids {
      assert LiveFor(Exec(g', []).value, user, s);
    } else {
      var q :| FlyingFor(g, user, q);
      assert RequestOk(g.db, g.nextFamily, g.requests[q]);
      ExecSnoc(g', [], Issue(q, 0));
      assert NoLogin([] + [Issue(q, 0)], user);
      assert LiveFor(Exec(g', [] + [Issue(q, 0)]).value, user, g.db.nextId);
    }
  }

  lemma WriteLogsOut(g: System, r: nat, user: UserId)
    requires Inv(g) && Enabled(g, Write(r))
    requires (forall s | LiveFor(g, user, s) :: s in g.requests[r].ids) && (forall q :: !FlyingFor(g, user, q))
    ensures LoggedOut(After(g, Write(r)), user)
  {
    var g' := After(g, Write(r));
    forall s ensures !LiveFor(g', user, s) {
      assert !LiveFor(g, user, s) || s in g.requests[r].ids;
    }
    forall q ensures !FlyingFor(g', user, q) {
      assert !FlyingFor(g, user, q);
    }
  }

  /** A password change logs its user out everywhere, until they log in again, exactly when by its
      write every live session of the user is one it had read, and none of the user's rotations
      stands between claim and issue. */
  lemma PasswordChangeLogsOutIff(g: System, r: nat, user: UserId)
    requires Inv(g) && Enabled(g, Write(r))
    ensures !MayStayLoggedIn(After(g, Write(r)), user) <==>
              (forall s | LiveFor(g, user, s) :: s in g.requests[r].ids) && (forall q :: !FlyingFor(g, user, q))
  {
    if (forall s | LiveFor(g, user, s) :: s in g.requests[r].ids) && (forall q :: !FlyingFor(g, user, q)) {
      WriteLogsOut(g, r, user);
      StepKeepsInv(g, Write(r));
      forall run, s | NoLogin(run, user) && Exec(After(g, Write(r)), run).Some?
        ensures !LiveFor(Exec(After(g, Write(r)), run).value, user, s)
      {
        LoggedOutStays(After(g, Write(r)), run, user);
      }
    } else {
      WriteMisses(g, r, user);
    }
  }

  /** It happens: a password change runs from read to write while a rotation is in flight. */
  lemma PasswordChangeMayMissARotation()
    ensures exists g, r :: Reachable(g) && Enabled(g, Write(r)) && MayStayLoggedIn(After(g, Write(r)), "u")
  {
    ClaimedOnceIsReachable();
    var g := System(0, CLAIMED_ONCE, 2, map[0 := Rotating(0, 0)]);
    ReachableStep(g, PasswordRead(2, "u"));
    g := After(g, PasswordRead(2, "u"));
    ReachableInv(g);
    assert FlyingFor(g, "u", 0);
    PasswordChangeLogsOutIff(g, 2, "u");
  }

  // ---- the grace after a revocation -----------------------------------------------------------

  /** The session is revoked, with a stamp no older than `t`. */
  ghost predicate StampedSince(g: System, id: SessionId, t: Time) {
    t <= g.now && id in g.db.rows && g.db.rows[id].revokedAt.Some? && g.db.rows[id].revokedAt.value >= t
  }

  lemma StampStep(g: System, a: Step, id: SessionId, t: Time)
    requires Inv(g) && Enabled(g, a) && StampedSince(g, id, t)
    ensures StampedSince(After(g, a), id, t)
  {
    assert id < g.db.nextId;
  }

  lemma {:induction false} StampStays(g: System, run: seq<Step>, id: SessionId, t: Time)
    requires Inv(g) && Exec(g, run).Some? && StampedSince(g, id, t)
    ensures StampedSince(Exec(g, run).value, id, t)
  {
    if run != [] {
      var front := run[..|run| - 1];
      StampStays(g, front, id, t);
      RunKeepsInv(g, front);
      StampStep(Exec(g, front).value, run[|run| - 1], id, t);
    }
  }

  /** Whatever revokes a session stamps it with the time of that moment. */
  lemma RevokingStampsNow(g: System, a: Step, id: SessionId)
    requires Inv(g) && Enabled(g, a) && Live(g.db.rows, id) && !Live(After(g, a).db.rows, id)
    ensures id in After(g, a).db.rows && After(g, a).db.rows[id].revokedAt == Some(g.now) && After(g, a).now == g.now
  {
    assert id < g.db.nextId;
  }

  /** A session once revoked, by rotation, logout, password change or reuse detection, is revoked in
      every later state. */
  lemma RevokedStaysRevoked(g: System, run: seq<Step>, id: SessionId)
    requires Inv(g) && Exec(g, run).Some? && id in g.db.rows && !Live(g.db.rows, id)
    ensures id in Exec(g, run).value.db.rows && !Live(Exec(g, run).value.db.rows, id)
  {
    if g.db.rows[id].revokedAt.value <= g.now {
      StampStays(g, run, id, g.db.rows[id].revokedAt.value);
    } else {
      StampStays(g, run, id, g.now);
    }
  }

  /** Presenting a token again within ten seconds of the step that revoked its session is harmless,
      whatever happened in between: the request ends there, and no row changes. */
  lemma DoubleSubmitIsSpared(g: System, a: Step, id: SessionId, run: seq<Step>, q: nat)
    requires Inv(g) && Enabled(g, a) && Live(g.db.rows, id) && !Live(After(g, a).db.rows, id)
    requires Exec(After(g, a), run).Some? && Enabled(Exec(After(g, a), run).value, Read(q, id))
    requires Exec(After(g, a), run).value.now <= g.now + 10
    ensures var g' := Exec(After(g, a), run).value;
            After(g', Read(q, id)).requests[q] == Done && After(g', Read(q, id)).db == g'.db
  {
    StepKeepsInv(g, a);
    RevokingStampsNow(g, a, id);
    StampStays(After(g, a), run, id, g.now);
  }

  /** Presented again while nothing else has written its row, a revoked session of a family is taken
      for a replay exactly when more than ten seconds have passed since it was revoked. */
  lemma ReplayIffPastGrace(g: System, a: Step, id: SessionId, run: seq<Step>, q: nat)
    requires Inv(g) && Enabled(g, a) && Live(g.db.rows, id) && !Live(After(g, a).db.rows, id)
    requires Exec(After(g, a), run).Some? && Enabled(Exec(After(g, a), run).value, Read(q, id))
    requires var g' := Exec(After(g, a), run).value;
             id in g'.db.rows && g'.db.rows[id] == After(g, a).db.rows[id] && g'.db.rows[id].family.Some?
    ensures var g' := Exec(After(g, a), run).value;
            After(g', Read(q, id)).requests[q]
            == if g'.now > g.now + 10 then Replaying(g'.db.rows[id].family.value) else Done
  {
    RevokingStampsNow(g, a, id);
  }

  /** Logging out ends the presented session for good. */
  lemma LogoutEndsTheSession(g: System, r: nat, id: SessionId, run: seq<Step>)
    requires Inv(g) && Enabled(g, LogoutRead(r, id)) && Live(g.db.rows, id)
    requires Exec(After(After(g, LogoutRead(r, id)), Write(r)), run).Some?
    ensures !Live(Exec(After(After(g, LogoutRead(r, id)), Write(r)), run).value.db.rows, id)
  {
    StepKeepsInv(g, LogoutRead(r, id));
    StepKeepsInv(After(g, LogoutRead(r, id)), Write(r));
    RevokedStaysRevoked(After(After(g, LogoutRead(r, id)), Write(r)), run, id);
  }

  /** A login opens a family of its own, with one session of the user, live until it expires. */
  lemma LoginOpensAFamily(g: System, user: UserId, expiresAt: Time)
    requires Inv(g)
    ensures var rows := After(g, Login(user, expiresAt)).db.rows;
            && rows == g.db.rows[g.db.nextId := Session(user, expiresAt, None, Some(g.nextFamily))]
            && g.db.nextId !in g.db.rows
            && forall id | id in g.db.rows :: g.db.rows[id].family != Some(g.nextFamily)
  {
    forall id | id in g.db.rows ensures g.db.rows[id].family != Some(g.nextFamily) {
      assert Placed(g.db, id);
    }
  }

  /** A password change that nothing comes between logs its user out everywhere, until they log in
      again, exactly when none of their rotations is in flight. */
  lemma PromptPasswordChangeLogsOutIff(g: System, r: nat, user: UserId)
    requires Inv(g) && Enabled(g, PasswordRead(r, user))
    ensures !MayStayLoggedIn(After(After(g, PasswordRead(r, user)), Write(r)), user) <==>
              forall q :: !FlyingFor(g, user, q)
  {
    var read := After(g, PasswordRead(r, user));
    StepKeepsInv(g, PasswordRead(r, user));
    forall q ensures FlyingFor(read, user, q) <==> FlyingFor(g, user, q) {}
    assert forall s | LiveFor(read, user, s) :: s in read.requests[r].ids;
    PasswordChangeLogsOutIff(read, r, user);
  }
}
