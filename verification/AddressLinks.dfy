/** What becomes of links and address changes over whole runs of the account routes: each link is
    good for one redemption, within its time, and a change of address ends the links before it. */
module AddressLinks {
  import opened Options
  import opened AddressTokens

  // ---- links that are gone --------------------------------------------------------------------

  /** The token was minted and is no more. */
  ghost predicate VerificationGone(g: System, id: TokenId) {
    id < g.nextToken && id !in g.db.verifications
  }

  ghost predicate ResetGone(g: System, id: TokenId) {
    id < g.nextToken && id !in g.db.resets
  }

  /** No token is in `g'` that is not in `g`, and none has been minted. */
  ghost predicate Shrinks(g: System, g': System) {
    && g'.minted == g.minted && g'.nextToken == g.nextToken
    && (forall t | t in g'.db.verifications ::
          t in g.db.verifications && g'.db.verifications[t] == g.db.verifications[t])
    && (forall t | t in g'.db.resets :: t in g.db.resets && g'.db.resets[t] == g.db.resets[t])
  }

  lemma WriteStepsShrink(g: System, a: Step)
    requires Enabled(g, a) && IsWriteStep(a)
    ensures Shrinks(g, After(g, a))
  {
  }

  lemma OtherStepsShrink(g: System, a: Step)
    requires Enabled(g, a) && !a.Mint? && !a.DeliverWrite?
    ensures Shrinks(g, After(g, a))
  {
    if IsWriteStep(a) {
      WriteStepsShrink(g, a);
    }
  }

  lemma GoneStep(g: System, a: Step, id: TokenId)
    requires Enabled(g, a)
    ensures VerificationGone(g, id) ==> VerificationGone(After(g, a), id)
    ensures ResetGone(g, id) ==> ResetGone(After(g, a), id)
  {
    if !a.Mint? && !a.DeliverWrite? {
      OtherStepsShrink(g, a);
    }
  }

  lemma {:induction false} GoneStaysGone(g: System, run: seq<Step>, id: TokenId)
    requires Exec(g, run).Some?
    ensures VerificationGone(g, id) ==> VerificationGone(Exec(g, run).value, id)
    ensures ResetGone(g, id) ==> ResetGone(Exec(g, run).value, id)
  {
    if run != [] {
      GoneStaysGone(g, run[..|run| - 1], id);
      GoneStep(Exec(g, run[..|run| - 1]).value, run[|run| - 1], id);
    }
  }

  /** Whoever follows the link from now on is refused, in every continuation. */
  ghost predicate VerificationRefused(g: System, id: TokenId) {
    forall run, r | Exec(g, run).Some? && Enabled(Exec(g, run).value, VerifyRead(r, id)) ::
      After(Exec(g, run).value, VerifyRead(r, id)).requests[r] == Done
  }

  ghost predicate ResetRefused(g: System, id: TokenId) {
    forall run, r | Exec(g, run).Some? && Enabled(Exec(g, run).value, ResetRead(r, id)) ::
      After(Exec(g, run).value, ResetRead(r, id)).requests[r] == Done
  }

  lemma GoneIsRefused(g: System, id: TokenId)
    ensures VerificationGone(g, id) ==> VerificationRefused(g, id)
    ensures ResetGone(g, id) ==> ResetRefused(g, id)
  {
    forall run | Exec(g, run).Some?
      ensures VerificationGone(g, id) ==> VerificationGone(Exec(g, run).value, id)
      ensures ResetGone(g, id) ==> ResetGone(Exec(g, run).value, id)
    {
      GoneStaysGone(g, run, id);
    }
  }

  // ---- redeeming a link -----------------------------------------------------------------------

  /** A request that has read a token acts for the token's account, while the token is there. */
  ghost predicate ReaderOk(db: Db, q: Request) {
    && (q.Verifying? && q.id in db.verifications ==> db.verifications[q.id].user == q.user)
    && (q.Resetting? && q.id in db.resets ==> db.resets[q.id].user == q.user)
  }

  ghost predicate ReadersOk(g: System) {
    forall r | r in g.requests :: ReaderOk(g.db, g.requests[r])
  }

  lemma ReadStepKeepsReaders(g: System, a: Step)
    requires ReadersOk(g) && Enabled(g, a) && IsReadStep(a)
    ensures ReadersOk(After(g, a))
  {
    assert forall r | r in g.requests :: ReaderOk(g.db, g.requests[r]);
  }

  lemma OtherStepKeepsReaders(g: System, a: Step)
    requires TokensOk(g) && ReadersOk(g) && Enabled(g, a) && !IsReadStep(a)
    ensures ReadersOk(After(g, a))
  {
    forall r | r in After(g, a).requests ensures ReaderOk(After(g, a).db, After(g, a).requests[r]) {
      if r in g.requests {
        assert ReaderOk(g.db, g.requests[r]);
      }
    }
  }

  lemma StepKeepsReaders(g: System, a: Step)
    requires TokensOk(g) && ReadersOk(g) && Enabled(g, a)
    ensures ReadersOk(After(g, a))
  {
    if IsReadStep(a) {
      ReadStepKeepsReaders(g, a);
    } else {
      OtherStepKeepsReaders(g, a);
    }
  }

  lemma {:induction false} RunKeepsReaders(start: System, run: seq<Step>)
    requires Initial(start) && Exec(start, run).Some?
    ensures TokensOk(Exec(start, run).value) && ReadersOk(Exec(start, run).value)
  {
    RunKeepsTokens(start, run);
    if run != [] {
      RunKeepsReaders(start, run[..|run| - 1]);
      StepKeepsReaders(Exec(start, run[..|run| - 1]).value, run[|run| - 1]);
    }
  }

  /** A verification link is spent by its redemption, whether it landed or not: nobody who follows it
      later gets anywhere. One that lands spends all of the account's links with it; one that does
      not leaves every other link as it was. */
  lemma VerificationIsSpent(start: System, run: seq<Step>, r: nat)
    requires Initial(start) && Exec(start, run).Some? && Enabled(Exec(start, run).value, VerifyWrite(r))
    ensures var g := Exec(start, run).value;
            var q, g' := g.requests[r], After(g, VerifyWrite(r));
            && VerificationRefused(g', q.id)
            && (HoldsAddress(g.db.users, q.user, q.email) ==>
                  forall t | t in g.db.verifications && g.db.verifications[t].user == q.user ::
                    VerificationRefused(g', t))
            && forall t | t in g.db.verifications && t != q.id
                          && !(HoldsAddress(g.db.users, q.user, q.email) && g.db.verifications[t].user == q.user) ::
                 t in g'.db.verifications && g'.db.verifications[t] == g.db.verifications[t]
  {
    RunKeepsReaders(start, run);
    var g := Exec(start, run).value;
    var q, g' := g.requests[r], After(g, VerifyWrite(r));
    assert ReaderOk(g.db, q);
    forall t | VerificationGone(g', t) ensures VerificationRefused(g', t) {
      GoneIsRefused(g', t);
    }
    assert VerificationGone(g', q.id);
    forall t | t in g.db.verifications && g.db.verifications[t].user == q.user
               && HoldsAddress(g.db.users, q.user, q.email)
      ensures VerificationGone(g', t) {}
  }

  /** So is a reset link, with all of the account's when it lands. */
  lemma ResetIsSpent(start: System, run: seq<Step>, r: nat, password: nat)
    requires Initial(start) && Exec(start, run).Some? && Enabled(Exec(start, run).value, ResetWrite(r, password))
    ensures var g := Exec(start, run).value;
            var q, g' := g.requests[r], After(g, ResetWrite(r, password));
            && ResetRefused(g', q.id)
            && (HoldsAddress(g.db.users, q.user, q.email) ==>
                  forall t | t in g.db.resets && g.db.resets[t].user == q.user :: ResetRefused(g', t))
            && forall t | t in g.db.resets && t != q.id
                          && !(HoldsAddress(g.db.users, q.user, q.email) && g.db.resets[t].user == q.user) ::
                 t in g'.db.resets && g'.db.resets[t] == g.db.resets[t]
  {
    RunKeepsReaders(start, run);
    var g := Exec(start, run).value;
    var q, g' := g.requests[r], After(g, ResetWrite(r, password));
    assert ReaderOk(g.db, q);
    forall t | ResetGone(g', t) ensures ResetRefused(g', t) {
      GoneIsRefused(g', t);
    }
    assert ResetGone(g', q.id);
    forall t | t in g.db.resets && g.db.resets[t].user == q.user && HoldsAddress(g.db.users, q.user, q.email)
      ensures ResetGone(g', t) {}
  }

  // ---- a link's time --------------------------------------------------------------------------

  /** Tokens expire a day, or an hour, after they were minted. */
  ghost predicate Dated(g: System) {
    && (forall t | t in g.db.verifications && t in g.minted :: g.db.verifications[t].expiresAt == g.minted[t] + 86400)
    && (forall t | t in g.db.resets && t in g.minted :: g.db.resets[t].expiresAt == g.minted[t] + 3600)
    && (forall t | t in g.minted :: t < g.nextToken)
  }

  /** Tables that only lose tokens keep them dated. */
  lemma ShrinkingKeepsDated(g: System, g': System)
    requires Dated(g) && Shrinks(g, g')
    ensures Dated(g')
  {
  }

  lemma MintKeepsDated(g: System, a: Step)
    requires TokensOk(g) && Dated(g) && Enabled(g, a) && (a.Mint? || a.DeliverWrite?)
    ensures Dated(After(g, a))
  {
  }

  lemma StepKeepsDated(g: System, a: Step)
    requires TokensOk(g) && Dated(g) && Enabled(g, a)
    ensures Dated(After(g, a))
  {
    if a.Mint? || a.DeliverWrite? {
      MintKeepsDated(g, a);
    } else {
      OtherStepsShrink(g, a);
      ShrinkingKeepsDated(g, After(g, a));
    }
  }

  lemma {:induction false} RunKeepsDated(start: System, run: seq<Step>)
    requires Initial(start) && Exec(start, run).Some?
    ensures Dated(Exec(start, run).value)
  {
    if run != [] {
      RunKeepsDated(start, run[..|run| - 1]);
      RunKeepsTokens(start, run[..|run| - 1]);
      StepKeepsDated(Exec(start, run[..|run| - 1]).value, run[|run| - 1]);
    }
  }

  /** A verification link minted in the run gets its reader past the check exactly when it is still
      outstanding and was minted at most a day ago. */
  lemma VerificationIsGoodForADay(start: System, run: seq<Step>, r: nat, id: TokenId)
    requires Initial(start) && Exec(start, run).Some? && Enabled(Exec(start, run).value, VerifyRead(r, id))
    requires id in Exec(start, run).value.minted
    ensures var g := Exec(start, run).value;
            After(g, VerifyRead(r, id)).requests[r].Verifying? <==>
              id in g.db.verifications && g.now <= g.minted[id] + 24 * 60 * 60
  {
    RunKeepsDated(start, run);
  }

  /** A reset link, at most an hour ago. */
  lemma ResetIsGoodForAnHour(start: System, run: seq<Step>, r: nat, id: TokenId)
    requires Initial(start) && Exec(start, run).Some? && Enabled(Exec(start, run).value, ResetRead(r, id))
    requires id in Exec(start, run).value.minted
    ensures var g := Exec(start, run).value;
            After(g, ResetRead(r, id)).requests[r].Resetting? <==>
              id in g.db.resets && g.now <= g.minted[id] + 60 * 60
  {
    RunKeepsDated(start, run);
  }

  // ---- outstanding links ----------------------------------------------------------------------

  /** Of two verification links of one account neither is bound: both predate bound links. */
  ghost predicate OneLinkEach(g: System) {
    forall t, t' | t in g.db.verifications && t' in g.db.verifications && t != t'
                   && g.db.verifications[t].user == g.db.verifications[t'].user ::
      g.db.verifications[t].email.None?
  }

  lemma StepKeepsOneLink(g: System, a: Step)
    requires OneLinkEach(g) && Enabled(g, a)
    ensures OneLinkEach(After(g, a))
  {
  }

  /** In every run an account has at most one outstanding verification link that can verify. */
  lemma {:induction false} OneVerificationLinkPerAccount(start: System, run: seq<Step>)
    requires Initial(start) && Exec(start, run).Some?
    ensures OneLinkEach(Exec(start, run).value)
  {
    if run != [] {
      OneVerificationLinkPerAccount(start, run[..|run| - 1]);
      StepKeepsOneLink(Exec(start, run[..|run| - 1]).value, run[|run| - 1]);
    }
  }

  // ---- changing an address --------------------------------------------------------------------

  /** The request is turned down or changes nothing: clearing where verification is required or
      nothing is to be cleared, or another spelling of the address it loaded. */
  predicate NothingToChange(loaded: Option<Email>, email: Option<Email>, gate: bool) {
    match email
    case None => gate || loaded.None?
    case Some(e) => loaded.Some? && SameAddress(loaded.value, e)
  }

  /** A change of address lands exactly when there is something to change: then the account holds the
      new address, unverified, and every link of the account is refused from then on; otherwise the
      database stays as it was. Nobody else's row or link is touched. */
  lemma ChangeOfAddress(start: System, run: seq<Step>, r: nat, email: Option<Email>, gate: bool)
    requires Initial(start) && Exec(start, run).Some? && Enabled(Exec(start, run).value, ChangeWrite(r, email, gate))
    requires Exec(start, run).value.requests[r].user in Exec(start, run).value.db.users
    ensures var g := Exec(start, run).value;
            var q, g' := g.requests[r], After(g, ChangeWrite(r, email, gate));
            if NothingToChange(q.loaded, email, gate) then g'.db == g.db
            else
              && g'.db.users == g.db.users[q.user := User(email, false, g.db.users[q.user].password)]
              && LinksEnded(g, g', q.user)
  {
    RunKeepsTokens(start, run);
    var g := Exec(start, run).value;
    var q := g.requests[r];
    if q.loaded.Some? && email.Some? {
      LowerMeaning(q.loaded.value, email.value);
    }
    if !NothingToChange(q.loaded, email, gate) {
      DroppedLinksEnd(g, After(g, ChangeWrite(r, email, gate)), q.user);
    }
  }

  /** An administrator's edit to another address ends the account's links too. */
  lemma EditEndsLinks(start: System, run: seq<Step>, r: nat, email: Email, vouched: bool)
    requires Initial(start) && Exec(start, run).Some?
    requires Enabled(Exec(start, run).value, EditWrite(r, Some(email), vouched))
    requires Exec(start, run).value.requests[r].user in Exec(start, run).value.db.users
    requires var loaded := Exec(start, run).value.requests[r].loaded;
             !SameAddress(if loaded.Some? then loaded.value else "", email)
    ensures var g := Exec(start, run).value;
            LinksEnded(g, After(g, EditWrite(r, Some(email), vouched)), g.requests[r].user)
  {
    RunKeepsTokens(start, run);
    var g := Exec(start, run).value;
    var loaded := g.requests[r].loaded;
    LowerMeaning(if loaded.Some? then loaded.value else "", email);
    DroppedLinksEnd(g, After(g, EditWrite(r, Some(email), vouched)), g.requests[r].user);
  }

  /** All of the user's links are refused from `g'` on, and all others are there as in `g`. */
  ghost predicate LinksEnded(g: System, g': System, user: UserId) {
    && (forall t | t in g.db.verifications ::
          if g.db.verifications[t].user == user then VerificationRefused(g', t)
          else t in g'.db.verifications && g'.db.verifications[t] == g.db.verifications[t])
    && (forall t | t in g.db.resets ::
          if g.db.resets[t].user == user then ResetRefused(g', t)
          else t in g'.db.resets && g'.db.resets[t] == g.db.resets[t])
  }

  lemma DroppedLinksEnd(g: System, g': System, user: UserId)
    requires TokensOk(g) && g'.nextToken >= g.nextToken
    requires g'.db.verifications == Without(g.db.verifications, user) && g'.db.resets == Without(g.db.resets, user)
    ensures LinksEnded(g, g', user)
  {
    forall t ensures VerificationGone(g', t) ==> VerificationRefused(g', t) {
      GoneIsRefused(g', t);
    }
    forall t ensures ResetGone(g', t) ==> ResetRefused(g', t) {
      GoneIsRefused(g', t);
    }
  }

  /** A reset is mailed exactly when the account still holds the address that was asked for, and to
      the account's own spelling of it. */
  lemma ResetIsMailedToTheHeldAddress(g: System, r: nat, user: UserId, asked: Email)
    requires Enabled(g, DeliverRead(r, user, asked))
    ensures After(g, DeliverRead(r, user, asked)).requests[r] ==
              if asked != "" && user in g.db.users && g.db.users[user].email.Some?
                 && SameAddress(g.db.users[user].email.value, asked)
              then Delivering(user, g.db.users[user].email.value) else Done
  {
    if user in g.db.users && g.db.users[user].email.Some? {
      LowerMeaning(g.db.users[user].email.value, asked);
    }
  }

  /** Deleting an account ends its links, and nobody else's. */
  lemma DeletingEndsLinks(start: System, run: seq<Step>, user: UserId)
    requires Initial(start) && Exec(start, run).Some?
    ensures var g := Exec(start, run).value;
            && After(g, Delete(user)).db.users == g.db.users - {user}
            && LinksEnded(g, After(g, Delete(user)), user)
  {
    RunKeepsTokens(start, run);
    DroppedLinksEnd(Exec(start, run).value, After(Exec(start, run).value, Delete(user)), user);
  }

  /** A verification link can be sent again exactly for an account that has an address and has not
      verified it, and then goes to that address. */
  lemma ResendingIsForTheUnverified(g: System, r: nat, user: UserId)
    requires Enabled(g, ResendRead(r, user))
    ensures After(g, ResendRead(r, user)).requests[r] ==
              if g.db.users[user].email.None? || g.db.users[user].verified then Done
              else Mailing(user, g.db.users[user].email.value)
  {
  }
}
