/** Email addresses, the tokens bound to them, and what a redeemed link may do: verification links
    stamp an account, reset links write its password, each only while the account holds the address
    the link was mailed to. Requests are cut into their database statements and interleaved. */
module AddressTokens {
  import opened Options

  type Email = string
  type UserId = nat
  type TokenId = nat
  type Time = nat

  /** The database's `lower`. */
  function Lower(e: Email): Email {
    seq(|e|, i requires 0 <= i < |e| => if 'A' <= e[i] <= 'Z' then e[i] + 32 as char else e[i])
  }

  /** The same character, or the two cases of one letter A to Z. */
  predicate SameLetter(c: char, d: char) {
    c == d || ('A' <= c <= 'Z' && d == c + 32 as char) || ('A' <= d <= 'Z' && c == d + 32 as char)
  }

  /** Two spellings of one address. */
  predicate SameAddress(a: Email, b: Email) {
    |a| == |b| && forall i | 0 <= i < |a| :: SameLetter(a[i], b[i])
  }

  /** Comparing in lower case is comparing addresses up to the case of their letters. */
  lemma LowerMeaning(a: Email, b: Email)
    ensures Lower(a) == Lower(b) <==> SameAddress(a, b)
  {
    if Lower(a) == Lower(b) {
      assert |a| == |Lower(a)| == |b|;
      forall i | 0 <= i < |a| ensures SameLetter(a[i], b[i]) {
        assert Lower(a)[i] == Lower(b)[i];
      }
    }
  }

  datatype User = User(email: Option<Email>, verified: bool, password: nat)

  /** `email` is None only on tokens minted before tokens recorded their address. */
  datatype Token = Token(user: UserId, email: Option<Email>, expiresAt: Time)

  datatype Db = Db(users: map<UserId, User>, verifications: map<TokenId, Token>, resets: map<TokenId, Token>)

  /** The account's address is, up to letter case, the one the token was bound to. */
  predicate HoldsAddress(users: map<UserId, User>, user: UserId, email: Option<Email>) {
    && email.Some? && email.value != ""
    && user in users && users[user].email.Some? && Lower(users[user].email.value) == Lower(email.value)
  }

  function Without(tokens: map<TokenId, Token>, user: UserId): map<TokenId, Token> {
    map t | t in tokens && tokens[t].user != user :: tokens[t]
  }

  // ---- the statements -------------------------------------------------------------------------

  /** Any change of address, or clearing it: the stamp and every outstanding link go with it. */
  function AfterSetEmail(db: Db, user: UserId, email: Option<Email>): Db {
    if user !in db.users then db
    else Db(db.users[user := db.users[user].(email := email, verified := false)],
            Without(db.verifications, user), Without(db.resets, user))
  }

  function AfterMintVerification(db: Db, id: TokenId, user: UserId, email: Email, expiresAt: Time): Db {
    db.(verifications := Without(db.verifications, user)[id := Token(user, Some(email), expiresAt)])
  }

  function AfterMintReset(db: Db, id: TokenId, user: UserId, email: Email, expiresAt: Time): Db {
    db.(resets := db.resets[id := Token(user, Some(email), expiresAt)])
  }

  function AfterVerify(db: Db, id: TokenId, user: UserId, email: Option<Email>): Db {
    if HoldsAddress(db.users, user, email) then
      db.(users := db.users[user := db.users[user].(verified := true)],
          verifications := Without(db.verifications, user))
    else db.(verifications := db.verifications - {id})
  }

  function AfterReset(db: Db, id: TokenId, user: UserId, email: Option<Email>, password: nat): Db {
    if HoldsAddress(db.users, user, email) then
      db.(users := db.users[user := db.users[user].(password := password)], resets := Without(db.resets, user))
    else db.(resets := db.resets - {id})
  }

  /** An administrator's edit replaces the address it loaded by another one, not just another spelling. */
  predicate Replaces(loaded: Option<Email>, email: Email) {
    Lower(if loaded.Some? then loaded.value else "") != Lower(email)
  }

  /** The edit of an account by an administrator or a delegate, who loaded the row with the address
      `loaded` and `stamped` verified or not. Only columns that differ from what was loaded are
      written: clearing a stamp that was not loaded leaves one that landed since. */
  function AfterEdit(db: Db, user: UserId, loaded: Option<Email>, stamped: bool, email: Email, vouched: bool): Db {
    if user !in db.users || loaded == Some(email) then db
    else
      var u := db.users[user];
      if Replaces(loaded, email) then
        Db(db.users[user := u.(email := Some(email), verified := vouched || (u.verified && !stamped))],
           Without(db.verifications, user), Without(db.resets, user))
      else db.(users := db.users[user := u.(email := Some(email))])
  }

  function AfterDelete(db: Db, user: UserId): Db {
    Db(db.users - {user}, Without(db.verifications, user), Without(db.resets, user))
  }

  /** The three tables and the writes the routes make. */
  class AccountStore {
    var users: map<UserId, User>
    var verifications: map<TokenId, Token>
    var resets: map<TokenId, Token>

    ghost function View(): Db
      reads this
    {
      Db(users, verifications, resets)
    }

    constructor ()
      ensures View() == Db(map[], map[], map[])
    {
      users, verifications, resets := map[], map[], map[];
    }

    /** `_drop_tokens`: select a user's tokens, delete them one by one. */
    static method DropTokens(tokens: map<TokenId, Token>, user: UserId) returns (rest: map<TokenId, Token>)
      ensures rest == Without(tokens, user)
    {
      rest := tokens;
      var todo := set t | t in tokens && tokens[t].user == user;
      while todo != {}
        invariant todo <= tokens.Keys && forall t | t in todo :: tokens[t].user == user
        invariant rest == map t | t in tokens && (tokens[t].user != user || t in todo) :: tokens[t]
        decreases todo
      {
        var t :| t in todo;
        todo, rest := todo - {t}, rest - {t};
      }
    }

    method SetEmail(user: UserId, email: Option<Email>)
      modifies this
      ensures View() == AfterSetEmail(old(View()), user, email)
    {
      if user !in users {
        return;
      }
      users := users[user := users[user].(email := email, verified := false)];
      resets := DropTokens(resets, user);
      verifications := DropTokens(verifications, user);
    }

    /** `loaded` and `stamped` are what the edit found in the row when it read it. */
    method EditEmail(user: UserId, loaded: Option<Email>, stamped: bool, email: Email, vouched: bool)
      modifies this
      ensures View() == AfterEdit(old(View()), user, loaded, stamped, email, vouched)
    {
      if user !in users || loaded == Some(email) {
        return;
      }
      var u := users[user];
      if Lower(if loaded.Some? then loaded.value else "") != Lower(email) {
        if vouched {
          u := u.(verified := true);
        } else if stamped {
          u := u.(verified := false);
        }
        verifications := DropTokens(verifications, user);
        resets := DropTokens(resets, user);
      }
      users := users[user := u.(email := Some(email))];
    }

    method MintVerification(id: TokenId, user: UserId, email: Email, now: Time)
      modifies this
      ensures View() == AfterMintVerification(old(View()), id, user, email, now + 24 * 3600)
    {
      verifications := DropTokens(verifications, user);
      verifications := verifications[id := Token(user, Some(email), now + 24 * 3600)];
    }

    method MintReset(id: TokenId, user: UserId, email: Email, now: Time)
      modifies this
      ensures View() == AfterMintReset(old(View()), id, user, email, now + 3600)
    {
      resets := resets[id := Token(user, Some(email), now + 3600)];
    }

    /** The conditional stamp, then the tokens: all of the user's when it landed, else this one. */
    method RedeemVerification(id: TokenId, user: UserId, email: Option<Email>) returns (stamped: nat)
      modifies this
      ensures View() == AfterVerify(old(View()), id, user, email)
      ensures stamped == if HoldsAddress(old(users), user, email) then 1 else 0
    {
      stamped := 0;
      if email.Some? && email.value != "" && user in users && users[user].email.Some?
         && Lower(users[user].email.value) == Lower(email.value) {
        users := users[user := users[user].(verified := true)];
        stamped := 1;
      }
      if stamped != 1 {
        verifications := verifications - {id};
        return;
      }
      verifications := DropTokens(verifications, user);
    }

    method RedeemReset(id: TokenId, user: UserId, email: Option<Email>, password: nat) returns (changed: nat)
      modifies this
      ensures View() == AfterReset(old(View()), id, user, email, password)
      ensures changed == if HoldsAddress(old(users), user, email) then 1 else 0
    {
      changed := 0;
      if email.Some? && email.value != "" && user in users && users[user].email.Some?
         && Lower(users[user].email.value) == Lower(email.value) {
        users := users[user := users[user].(password := password)];
        changed := 1;
      }
      if changed != 1 {
        resets := resets - {id};
        return;
      }
      resets := DropTokens(resets, user);
    }
  }

  // ---- requests, interleaved ------------------------------------------------------------------

  datatype Request =
    | Changing(user: UserId, loaded: Option<Email>)              // change-email: row loaded
    | Editing(user: UserId, loaded: Option<Email>, stamped: bool) // an administrator's edit: row loaded
    | Mailing(user: UserId, to: Email)                           // about to mint a verification link
    | Verifying(id: TokenId, user: UserId, email: Option<Email>) // verify-email: token read
    | Delivering(user: UserId, to: Email)                        // reset delivery: address re-read
    | Resetting(id: TokenId, user: UserId, email: Option<Email>) // reset-password: token read
    | Done

  /** `mailed`, `minted` and `proven` are history: where each link was sent and when, and which
      addresses (in lower case) someone proved or vouched for on an account. */
  datatype System = System(
    now: Time,
    db: Db,
    nextUser: UserId,
    nextToken: TokenId,
    requests: map<nat, Request>,
    mailed: map<TokenId, Email>,
    minted: map<TokenId, Time>,
    proven: set<(UserId, Email)>)

  datatype Step =
    | Register(r: nat, email: Option<Email>, password: nat, mail: bool)
    | Admin(email: Option<Email>, password: nat, vouched: bool)   // admin-created account
    | Sso(trusted: Option<Email>, password: nat)                  // JIT-provisioned account
    | ChangeRead(r: nat, user: UserId)
    | ChangeWrite(r: nat, email: Option<Email>, gate: bool)       // gate: verification is required
    | EditRead(r: nat, user: UserId)
    | EditWrite(r: nat, email: Option<Email>, vouched: bool)      // vouched: by an Administrator
    | ResendRead(r: nat, user: UserId)
    | Mint(r: nat)
    | VerifyRead(r: nat, id: TokenId)
    | VerifyWrite(r: nat)
    | DeliverRead(r: nat, user: UserId, asked: Email)
    | DeliverWrite(r: nat)
    | ResetRead(r: nat, id: TokenId)
    | ResetWrite(r: nat, password: nat)
    | SetPassword(user: UserId, password: nat)                    // change-password
    | Delete(user: UserId)
    | Tick(to: Time)

  ghost predicate Enabled(g: System, a: Step) {
    match a
    case Register(r, _, _, _) => r !in g.requests
    case ChangeRead(r, user) => r !in g.requests && user in g.db.users
    case EditRead(r, user) => r !in g.requests && user in g.db.users
    case EditWrite(r, email, _) => r in g.requests && g.requests[r].Editing? && email.Some? && email.value != ""
    case ResendRead(r, user) => r !in g.requests && user in g.db.users
    case VerifyRead(r, _) => r !in g.requests
    case DeliverRead(r, _, _) => r !in g.requests
    case ResetRead(r, _) => r !in g.requests
    case ChangeWrite(r, _, _) => r in g.requests && g.requests[r].Changing?
    case Mint(r) => r in g.requests && g.requests[r].Mailing?
    case VerifyWrite(r) => r in g.requests && g.requests[r].Verifying?
    case DeliverWrite(r) => r in g.requests && g.requests[r].Delivering?
    case ResetWrite(r, _) => r in g.requests && g.requests[r].Resetting?
    case SetPassword(user, _) => user in g.db.users
    case Tick(to) => g.now <= to
    case _ => true
  }

  function Sent(g: System, db: Db, email: Email): System {
    g.(db := db, nextToken := g.nextToken + 1,
       mailed := g.mailed[g.nextToken := email], minted := g.minted[g.nextToken := g.now])
  }

  function Created(g: System, u: User, proven: set<(UserId, Email)>): System {
    g.(db := g.db.(users := g.db.users[g.nextUser := u]), nextUser := g.nextUser + 1, proven := g.proven + proven)
  }

  function Put(g: System, r: nat, q: Request): System {
    g.(requests := g.requests[r := q])
  }

  /** What change-email decides on the row it loaded: None is a refusal or a no-op. */
  function NewAddress(loaded: Option<Email>, email: Option<Email>, gate: bool): Option<Option<Email>> {
    match email
    case None => if gate || loaded.None? then None else Some(None)
    case Some(e) => if loaded.Some? && Lower(loaded.value) == Lower(e) then None else Some(Some(e))
  }

  ghost function After(g: System, a: Step): System
    requires Enabled(g, a)
  {
    match a
    case Register(r, email, password, mail) =>
      Put(Created(g, User(email, false, password), {}), r,
          if mail && email.Some? then Mailing(g.nextUser, email.value) else Done)
    case Admin(email, password, vouched) =>
      Created(g, User(email, vouched, password),
              if vouched && email.Some? then {(g.nextUser, Lower(email.value))} else {})
    case Sso(trusted, password) =>
      Created(g, User(trusted, trusted.Some?, password),
              if trusted.Some? then {(g.nextUser, Lower(trusted.value))} else {})
    case ChangeRead(r, user) => Put(g, r, Changing(user, g.db.users[user].email))
    case ChangeWrite(r, email, gate) =>
      var q := g.requests[r];
      var decision := NewAddress(q.loaded, email, gate);
      if decision.None? then Put(g, r, Done)
      else Put(g.(db := AfterSetEmail(g.db, q.user, decision.value)), r,
               if gate && email.Some? then Mailing(q.user, email.value) else Done)
    case EditRead(r, user) => Put(g, r, Editing(user, g.db.users[user].email, g.db.users[user].verified))
    case EditWrite(r, email, vouched) =>
      var q := g.requests[r];
      var g' := Put(g.(db := AfterEdit(g.db, q.user, q.loaded, q.stamped, email.value, vouched)), r, Done);
      if vouched && q.user in g.db.users && Replaces(q.loaded, email.value)
      then g'.(proven := g.proven + {(q.user, Lower(email.value))}) else g'
    case ResendRead(r, user) =>
      var u := g.db.users[user];
      Put(g, r, if u.email.Some? && !u.verified then Mailing(user, u.email.value) else Done)
    case Mint(r) =>
      var q := g.requests[r];
      if q.user in g.db.users
      then Put(Sent(g, AfterMintVerification(g.db, g.nextToken, q.user, q.to, g.now + 24 * 3600), q.to), r, Done)
      else Put(g, r, Done)
    case VerifyRead(r, id) =>
      Put(g, r, if id in g.db.verifications && g.now <= g.db.verifications[id].expiresAt
                then Verifying(id, g.db.verifications[id].user, g.db.verifications[id].email) else Done)
    case VerifyWrite(r) =>
      var q := g.requests[r];
      var g' := Put(g.(db := AfterVerify(g.db, q.id, q.user, q.email)), r, Done);
      if q.id in g.mailed then g'.(proven := g.proven + {(q.user, Lower(g.mailed[q.id]))})
      else g'
    case DeliverRead(r, user, asked) =>
      Put(g, r,
          if HoldsAddress(g.db.users, user, Some(asked)) then Delivering(user, g.db.users[user].email.value) else Done)
    case DeliverWrite(r) =>
      var q := g.requests[r];
      if q.user in g.db.users
      then Put(Sent(g, AfterMintReset(g.db, g.nextToken, q.user, q.to, g.now + 3600), q.to), r, Done)
      else Put(g, r, Done)
    case ResetRead(r, id) =>
      Put(g, r, if id in g.db.resets && g.now <= g.db.resets[id].expiresAt
                then Resetting(id, g.db.resets[id].user, g.db.resets[id].email) else Done)
    case ResetWrite(r, password) =>
      var q := g.requests[r];
      Put(g.(db := AfterReset(g.db, q.id, q.user, q.email, password)), r, Done)
    case SetPassword(user, password) =>
        g.(db := g.db.(users := g.db.users[user := g.db.users[user].(password := password)]))
    case Delete(user) => g.(db := AfterDelete(g.db, user))
    case Tick(to) => g.(now := to)
  }

  /** An installation may start with tokens from before they recorded their address. */
  ghost predicate Initial(g: System) {
    && g.db.users == map[] && g.requests == map[] && g.mailed == map[] && g.minted == map[] && g.proven == {}
    && (forall t | t in g.db.verifications :: g.db.verifications[t].email.None? && t < g.nextToken)
    && (forall t | t in g.db.resets :: g.db.resets[t].email.None? && t < g.nextToken)
  }

  ghost function Exec(start: System, run: seq<Step>): Option<System> {
    if run == [] then Some(start)
    else
      var mid := Exec(start, run[..|run| - 1]);
      var a := run[|run| - 1];
      if mid.Some? && Enabled(mid.value, a) then Some(After(mid.value, a)) else None
  }

  // ---- the invariant --------------------------------------------------------------------------

  /** A link bound to an address was mailed to that address. */
  ghost predicate Bound(mailed: map<TokenId, Email>, id: TokenId, email: Option<Email>) {
    email.Some? ==> id in mailed && mailed[id] == email.value
  }

  ghost predicate UserOk(proven: set<(UserId, Email)>, user: UserId, u: User) {
    u.verified && u.email.Some? ==> (user, Lower(u.email.value)) in proven
  }

  /** Tokens and the requests that read them are bound to the address they were mailed to. */
  ghost predicate TokensOk(g: System) {
    && (forall u | u in g.db.users :: u < g.nextUser)
    && (forall t | t in g.db.verifications :: t < g.nextToken && Bound(g.mailed, t, g.db.verifications[t].email))
    && (forall t | t in g.db.resets :: t < g.nextToken && Bound(g.mailed, t, g.db.resets[t].email))
    && (forall r | r in g.requests && g.requests[r].Verifying? ::
          g.requests[r].id < g.nextToken && Bound(g.mailed, g.requests[r].id, g.requests[r].email))
    && (forall r | r in g.requests && g.requests[r].Resetting? ::
          g.requests[r].id < g.nextToken && Bound(g.mailed, g.requests[r].id, g.requests[r].email))
  }

  /** Verified means proven: every account with a verified address holds one proven for it. */
  ghost predicate UsersOk(g: System) {
    forall u | u in g.db.users :: UserOk(g.proven, u, g.db.users[u])
  }

  predicate IsAccountStep(a: Step) {
    a.Register? || a.Admin? || a.Sso? || a.SetPassword? || a.Delete? || a.Tick?
  }

  predicate IsReadStep(a: Step) {
    a.ChangeRead? || a.EditRead? || a.ResendRead? || a.VerifyRead? || a.DeliverRead? || a.ResetRead?
  }

  predicate IsWriteStep(a: Step) {
    a.ChangeWrite? || a.EditWrite? || a.VerifyWrite? || a.ResetWrite?
  }

  lemma AccountStepKeepsTokens(g: System, a: Step)
    requires TokensOk(g) && Enabled(g, a) && IsAccountStep(a)
    ensures TokensOk(After(g, a))
  {
  }

  lemma ReadStepKeepsTokens(g: System, a: Step)
    requires TokensOk(g) && Enabled(g, a) && IsReadStep(a)
    ensures TokensOk(After(g, a))
  {
  }

  lemma WriteStepKeepsTokens(g: System, a: Step)
    requires TokensOk(g) && Enabled(g, a) && IsWriteStep(a)
    ensures TokensOk(After(g, a))
  {
    if a.ChangeWrite? {
      ChangeStepKeepsTokens(g, a);
    } else if a.EditWrite? {
      EditStepKeepsTokens(g, a);
    } else {
      RedeemStepKeepsTokens(g, a);
    }
  }

  lemma ChangeStepKeepsTokens(g: System, a: Step)
    requires TokensOk(g) && Enabled(g, a) && a.ChangeWrite?
    ensures TokensOk(After(g, a))
  {
  }

  lemma EditStepKeepsTokens(g: System, a: Step)
    requires TokensOk(g) && Enabled(g, a) && a.EditWrite?
    ensures TokensOk(After(g, a))
  {
  }

  lemma RedeemStepKeepsTokens(g: System, a: Step)
    requires TokensOk(g) && Enabled(g, a) && (a.VerifyWrite? || a.ResetWrite?)
    ensures TokensOk(After(g, a))
  {
  }

  lemma MintStepKeepsTokens(g: System, a: Step)
    requires TokensOk(g) && Enabled(g, a) && (a.Mint? || a.DeliverWrite?)
    ensures TokensOk(After(g, a))
  {
  }

  lemma {:induction false} RunKeepsTokens(start: System, run: seq<Step>)
    requires TokensOk(start) && Exec(start, run).Some?
    ensures TokensOk(Exec(start, run).value)
  {
    if run != [] {
      var mid, a := Exec(start, run[..|run| - 1]).value, run[|run| - 1];
      RunKeepsTokens(start, run[..|run| - 1]);
      if a.Mint? || a.DeliverWrite? {
        MintStepKeepsTokens(mid, a);
      } else if IsAccountStep(a) {
        AccountStepKeepsTokens(mid, a);
      } else if IsReadStep(a) {
        ReadStepKeepsTokens(mid, a);
      } else {
        WriteStepKeepsTokens(mid, a);
      }
    }
  }

  // ---- verified means proven ------------------------------------------------------------------

  /** An edit carries no stamp to an unproven address: it writes no address, or writes the stamp
      too, or the row has no stamp by then, or the address was proven for the account before. Any
      other step is harmless. */
  ghost predicate Harmless(g: System, a: Step)
    requires Enabled(g, a)
  {
    a.EditWrite? ==>
      var q, email := g.requests[a.r], a.email.value;
      || q.user !in g.db.users || q.loaded == Some(email)
      || (Replaces(q.loaded, email) && (a.vouched || q.stamped))
      || !g.db.users[q.user].verified
      || (q.user, Lower(email)) in g.proven
  }

  lemma StepKeepsProven(g: System, a: Step)
    requires TokensOk(g) && UsersOk(g) && Enabled(g, a) && !a.EditWrite?
    ensures UsersOk(After(g, a))
  {
  }

  /** An edit keeps verified addresses proven exactly when it is harmless. */
  lemma EditKeepsProvenIffHarmless(g: System, a: Step)
    requires UsersOk(g) && Enabled(g, a) && a.EditWrite?
    ensures UsersOk(After(g, a)) <==> Harmless(g, a)
  {
    var q, g' := g.requests[a.r], After(g, a);
    if !Harmless(g, a) {
      assert !UserOk(g'.proven, q.user, g'.db.users[q.user]);
    }
  }

  /** An edit that finds the row as it loaded it is harmless, whoever makes it. */
  lemma UndisturbedEditIsHarmless(g: System, a: Step)
    requires UsersOk(g) && Enabled(g, a) && a.EditWrite?
    requires var q := g.requests[a.r];
             q.user in g.db.users && g.db.users[q.user].email == q.loaded && g.db.users[q.user].verified == q.stamped
    ensures Harmless(g, a)
  {
    assert UserOk(g.proven, g.requests[a.r].user, g.db.users[g.requests[a.r].user]);
  }

  /** The state after the first `n` steps. */
  ghost function At(start: System, run: seq<Step>, n: nat): System
    requires n <= |run| && Exec(start, run).Some?
  {
    PrefixRuns(start, run, n);
    Exec(start, run[..n]).value
  }

  lemma {:induction false} PrefixRuns(start: System, run: seq<Step>, n: nat)
    requires n <= |run| && Exec(start, run).Some?
    ensures Exec(start, run[..n]).Some?
    ensures n < |run| ==> Enabled(Exec(start, run[..n]).value, run[n])
                          && Exec(start, run[..n + 1]) == Some(After(Exec(start, run[..n]).value, run[n]))
  {
    if n == |run| {
      assert run[..n] == run;
    } else {
      var front := run[..|run| - 1];
      PrefixRuns(start, front, n);
      assert front[..n] == run[..n];
      if n + 1 < |run| {
        assert front[..n + 1] == run[..n + 1];
      } else {
        assert run[..n + 1] == run && run[..n] == front;
      }
    }
  }

  ghost predicate HarmlessAt(start: System, run: seq<Step>, n: nat)
    requires n < |run| && Exec(start, run).Some?
  {
    PrefixRuns(start, run, n);
    Harmless(At(start, run, n), run[n])
  }

  lemma OneMoreStep(start: System, run: seq<Step>, n: nat)
    requires Initial(start) && Exec(start, run).Some? && n < |run| && UsersOk(At(start, run, n))
    ensures UsersOk(At(start, run, n + 1)) <==> HarmlessAt(start, run, n)
  {
    PrefixRuns(start, run, n);
    RunKeepsTokens(start, run[..n]);
    if run[n].EditWrite? {
      EditKeepsProvenIffHarmless(At(start, run, n), run[n]);
    } else {
      StepKeepsProven(At(start, run, n), run[n]);
    }
  }

  lemma {:induction false} HarmlessRunsKeepProven(start: System, run: seq<Step>, n: nat)
    requires Initial(start) && Exec(start, run).Some? && n <= |run|
    requires forall k | 0 <= k < n :: HarmlessAt(start, run, k)
    ensures UsersOk(At(start, run, n))
  {
    if n > 0 {
      HarmlessRunsKeepProven(start, run, n - 1);
      OneMoreStep(start, run, n - 1);
    }
  }

  /** Verified means proven, in every state of a run in any interleaving, exactly when every edit
      in it was harmless when it wrote. */
  lemma VerifiedMeansProven(start: System, run: seq<Step>)
    requires Initial(start) && Exec(start, run).Some?
    ensures (forall n | 0 <= n <= |run| :: UsersOk(At(start, run, n))) <==>
              forall k | 0 <= k < |run| :: HarmlessAt(start, run, k)
  {
    if forall n | 0 <= n <= |run| :: UsersOk(At(start, run, n)) {
      forall k | 0 <= k < |run| ensures HarmlessAt(start, run, k) {
        assert UsersOk(At(start, run, k)) && UsersOk(At(start, run, k + 1));
        OneMoreStep(start, run, k);
      }
    }
    if forall k | 0 <= k < |run| :: HarmlessAt(start, run, k) {
      forall n | 0 <= n <= |run| ensures UsersOk(At(start, run, n)) {
        HarmlessRunsKeepProven(start, run, n);
      }
    }
  }

  ghost predicate Reachable(g: System) {
    exists start, run :: Initial(start) && Exec(start, run) == Some(g)
  }

  lemma ReachableStep(g: System, a: Step)
    requires Reachable(g) && Enabled(g, a)
    ensures Reachable(After(g, a))
  {
    var start, run :| Initial(start) && Exec(start, run) == Some(g);
    assert (run + [a])[..|run + [a]| - 1] == run;
    assert Exec(start, run + [a]) == Some(After(g, a));
  }

  /** One account, unverified at `e`, with a link to `e` outstanding. */
  function Unverified(e: Email): Db {
    Db(map[0 := User(Some(e), false, 1)], map[0 := Token(0, Some(e), 24 * 3600)], map[])
  }

  function Mailed(e: Email, requests: map<nat, Request>): System {
    System(0, Unverified(e), 1, 1, requests, map[0 := e], map[0 := 0], {})
  }

  function Registered(e: Email): System {
    System(0, Unverified(e).(verifications := map[]), 1, 0, map[0 := Mailing(0, e)], map[], map[], {})
  }

  lemma RegisteredIsReachable(e: Email)
    ensures Reachable(Registered(e))
  {
    var g := System(0, Db(map[], map[], map[]), 0, 0, map[], map[], map[], {});
    assert Initial(g) && Exec(g, []) == Some(g);
    ReachableStep(g, Register(0, Some(e), 1, true));
    assert After(g, Register(0, Some(e), 1, true)) == Registered(e);
  }

  lemma MailedIsReachable(e: Email)
    ensures Reachable(Mailed(e, map[0 := Done]))
  {
    RegisteredIsReachable(e);
    ReachableStep(Registered(e), Mint(0));
    var g := After(Registered(e), Mint(0));
    assert g.db == Unverified(e);
    assert g == Mailed(e, map[0 := Done]);
  }

  lemma LinkIsRedeemedDuringEdit(e: Email)
    ensures Reachable(Mailed(e, map[0 := Done, 1 := Editing(0, Some(e), false), 2 := Verifying(0, 0, Some(e))]))
  {
    MailedIsReachable(e);
    ReachableStep(Mailed(e, map[0 := Done]), EditRead(1, 0));
    var g := Mailed(e, map[0 := Done, 1 := Editing(0, Some(e), false)]);
    assert After(Mailed(e, map[0 := Done]), EditRead(1, 0)) == g;
    ReachableStep(g, VerifyRead(2, 0));
    assert After(g, VerifyRead(2, 0)) == g.(requests := g.requests[2 := Verifying(0, 0, Some(e))]);
  }

  /** It fails in fact: a delegate loads an unverified account, the account's owner redeems the link
      mailed to its address, and the delegate's new address inherits the stamp. */
  lemma EditMayCarryAStamp(e: Email, e': Email)
    requires e != "" && e' != "" && Lower(e) != Lower(e')
    ensures exists g, user :: Reachable(g) && user in g.db.users && g.db.users[user].verified
              && g.db.users[user].email == Some(e') && (user, Lower(e')) !in g.proven
  {
    LinkIsRedeemedDuringEdit(e);
    var g := Mailed(e, map[0 := Done, 1 := Editing(0, Some(e), false), 2 := Verifying(0, 0, Some(e))]);
    ReachableStep(g, VerifyWrite(2));
    StampIsCarried(After(g, VerifyWrite(2)), e, e');
  }

  lemma StampIsCarried(g: System, e: Email, e': Email)
    requires Reachable(g) && 1 in g.requests && g.requests[1] == Editing(0, Some(e), false) && e' != ""
             && Lower(e) != Lower(e')
    requires 0 in g.db.users && g.db.users[0].verified && g.proven == {(0, Lower(e))}
    ensures exists g, user :: Reachable(g) && user in g.db.users && g.db.users[user].verified
              && g.db.users[user].email == Some(e') && (user, Lower(e')) !in g.proven
  {
    ReachableStep(g, EditWrite(1, Some(e'), false));
    var g' := After(g, EditWrite(1, Some(e'), false));
    var user: UserId := 0;
    assert Reachable(g') && user in g'.db.users && g'.db.users[user].verified && g'.db.users[user].email == Some(e');
    assert (user, Lower(e')) !in g'.proven;
  }

  /** The stamp lands exactly when the account exists and holds, up to letter case, the address the
      redeemed link was mailed to; whose account it is never changes, nor anyone's address. */
  lemma StampLandsIffAddressHeld(start: System, run: seq<Step>, r: nat, user: UserId)
    requires Initial(start) && Exec(start, run).Some? && Enabled(Exec(start, run).value, VerifyWrite(r))
    ensures var g := Exec(start, run).value;
            var q, g' := g.requests[r], After(g, VerifyWrite(r));
            && g'.db.users.Keys == g.db.users.Keys
            && (user in g.db.users ==>
                  && g'.db.users[user].email == g.db.users[user].email
                  && g'.db.users[user].password == g.db.users[user].password
                  && (g'.db.users[user].verified <==>
                        g.db.users[user].verified || (user == q.user && RedeemsMail(g, q.id, q.email, user))))
  {
    RunKeepsTokens(start, run);
    forall a: Email, b: Email ensures Lower(a) == Lower(b) <==> SameAddress(a, b) {
      LowerMeaning(a, b);
    }
  }

  /** The token is bound, and the address its link was mailed to is the account's. */
  ghost predicate RedeemsMail(g: System, id: TokenId, email: Option<Email>, user: UserId) {
    && email.Some? && email.value != "" && id in g.mailed
    && user in g.db.users && g.db.users[user].email.Some?
    && SameAddress(g.db.users[user].email.value, g.mailed[id])
  }

  /** A reset link writes a password exactly while its account holds the address the link was
      mailed to, and then that account's password only; a written reset retires every other link. */
  lemma ResetWritesOnlyWhileAddressHeld(start: System, run: seq<Step>, r: nat, password: nat, user: UserId)
    requires Initial(start) && Exec(start, run).Some? && Enabled(Exec(start, run).value, ResetWrite(r, password))
    ensures var g := Exec(start, run).value;
            var q, g' := g.requests[r], After(g, ResetWrite(r, password));
            && g'.db.users.Keys == g.db.users.Keys
            && (user in g.db.users ==>
                  g'.db.users[user] == if user == q.user && RedeemsMail(g, q.id, q.email, user)
                                       then g.db.users[user].(password := password) else g.db.users[user])
            && (RedeemsMail(g, q.id, q.email, q.user) ==>
                forall t | t in g'.db.resets :: g'.db.resets[t].user != q.user)
  {
    RunKeepsTokens(start, run);
    forall a: Email, b: Email ensures Lower(a) == Lower(b) <==> SameAddress(a, b) {
      LowerMeaning(a, b);
    }
  }

  // ---- with no account verified without an address --------------------------------------------

  /** An administrator creates an account without an address and vouches for it all the same. */
  predicate VouchesForNothing(a: Step) {
    a.Admin? && a.email.None? && a.vouched
  }

  ghost predicate HasProvenAddress(g: System, user: UserId) {
    user in g.db.users && g.db.users[user].verified ==>
      g.db.users[user].email.Some? && (user, Lower(g.db.users[user].email.value)) in g.proven
  }

  /** Every verified account has an address, and that address was proven for it. */
  ghost predicate Strong(g: System) {
    forall u | u in g.db.users :: HasProvenAddress(g, u)
  }

  ghost predicate Addressed(g: System) {
    forall u | u in g.db.users && g.db.users[u].verified :: g.db.users[u].email.Some?
  }

  lemma StrongMeans(g: System)
    ensures Strong(g) <==> UsersOk(g) && Addressed(g)
  {
    if UsersOk(g) && Addressed(g) {
      forall u | u in g.db.users ensures HasProvenAddress(g, u) {
        assert UserOk(g.proven, u, g.db.users[u]);
      }
    }
    if Strong(g) {
      forall u | u in g.db.users
          ensures UserOk(g.proven, u, g.db.users[u]) && (g.db.users[u].verified ==> g.db.users[u].email.Some?) {
        assert HasProvenAddress(g, u);
      }
    }
  }

  lemma StepKeepsAddressed(g: System, a: Step)
    requires TokensOk(g) && Addressed(g) && Enabled(g, a)
    ensures Addressed(After(g, a)) <==> !VouchesForNothing(a)
  {
    if VouchesForNothing(a) {
      assert g.nextUser in After(g, a).db.users && After(g, a).db.users[g.nextUser].email.None?;
    }
  }

  lemma OneMoreStrongStep(start: System, run: seq<Step>, n: nat)
    requires Initial(start) && Exec(start, run).Some? && n < |run| && Strong(At(start, run, n))
    ensures Strong(At(start, run, n + 1)) <==> HarmlessAt(start, run, n) && !VouchesForNothing(run[n])
  {
    StrongMeans(At(start, run, n));
    StrongMeans(At(start, run, n + 1));
    OneMoreStep(start, run, n);
    PrefixRuns(start, run, n);
    RunKeepsTokens(start, run[..n]);
    StepKeepsAddressed(At(start, run, n), run[n]);
  }

  lemma StartIsStrong(start: System, run: seq<Step>)
    requires Initial(start) && Exec(start, run).Some?
    ensures Strong(At(start, run, 0))
  {
    assert run[..0] == [];
  }

  lemma {:induction false} CarefulRunsKeepStrong(start: System, run: seq<Step>, n: nat)
    requires Initial(start) && Exec(start, run).Some? && n <= |run|
    requires forall k | 0 <= k < n :: HarmlessAt(start, run, k) && !VouchesForNothing(run[k])
    ensures Strong(At(start, run, n))
  {
    if n == 0 {
      StartIsStrong(start, run);
    } else {
      CarefulRunsKeepStrong(start, run, n - 1);
      OneMoreStrongStep(start, run, n - 1);
    }
  }

  /** Every verified account holds an address proven for it, in every state of a run in any
      interleaving, exactly when every edit in it was harmless when it wrote and no administrator
      vouched for an account without an address. */
  lemma VerifiedAccountsHoldProvenAddresses(start: System, run: seq<Step>)
    requires Initial(start) && Exec(start, run).Some?
    ensures (forall n | 0 <= n <= |run| :: Strong(At(start, run, n))) <==>
              forall k | 0 <= k < |run| :: HarmlessAt(start, run, k) && !VouchesForNothing(run[k])
  {
    if forall n | 0 <= n <= |run| :: Strong(At(start, run, n)) {
      forall k | 0 <= k < |run| ensures HarmlessAt(start, run, k) && !VouchesForNothing(run[k]) {
        assert Strong(At(start, run, k)) && Strong(At(start, run, k + 1));
        OneMoreStrongStep(start, run, k);
      }
    }
    if forall k | 0 <= k < |run| :: HarmlessAt(start, run, k) && !VouchesForNothing(run[k]) {
      forall n | 0 <= n <= |run| ensures Strong(At(start, run, n)) {
        CarefulRunsKeepStrong(start, run, n);
      }
    }
  }

  /** Without the address in the statement it fails: an administrator vouching for an account made
      without an email stamps it verified, and no address is proven. */
  lemma VouchedAccountWithoutAddressIsVerified()
    ensures exists start, run, user :: Initial(start) && Exec(start, run).Some?
              && user in Exec(start, run).value.db.users
              && Exec(start, run).value.db.users[user].verified
              && forall e :: (user, e) !in Exec(start, run).value.proven
  {
    var start := System(0, Db(map[], map[], map[]), 0, 0, map[], map[], map[], {});
    var run := [Admin(None, 1, true)];
    assert run[..|run| - 1] == [];
    assert Exec(start, run[..|run| - 1]) == Some(start);
    var g := Exec(start, run).value;
    assert Initial(start) && 0 in g.db.users && g.db.users[0].verified && forall e :: (0, e) !in g.proven;
  }
}
