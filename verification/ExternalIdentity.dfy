/** Resolving an external login to a local account: an existing link, a first-contact link on a
    trusted address, or a new account. Logins are serialised. */
module ExternalIdentity {
  import opened Options
  import opened AddressTokens

  type ProviderId = nat
  type Subject = string

  datatype Provider = Provider(id: ProviderId, posture: string, emailIsAuthoritative: bool)
  datatype Account = Account(email: Option<Email>, verified: bool)
  datatype LinkKey = LinkKey(provider: ProviderId, subject: Subject)
  datatype Link = Link(user: UserId, email: Option<Email>)

  /** The site settings row, absent on an install nobody configured. */
  datatype Site = Site(registrationOpen: bool, allowlistEnabled: bool, allowedDomains: seq<string>)

  /** What the provider asserts about the person logging in. */
  datatype Claim = Claim(subject: Subject, email: Option<Email>, emailVerified: bool)

  datatype Directory = Directory(accounts: map<UserId, Account>, links: map<LinkKey, Link>, nextUser: UserId)

  datatype Resolution =
    | Resolved(user: UserId, created: bool)
    | UnverifiedConflict
    | RegistrationClosed
    | DomainNotAllowed

  predicate EmailTrusted(p: Provider, c: Claim) {
    && c.email.Some? && c.email.value != ""
    && ((p.posture == "open" && c.emailVerified) || (p.posture == "closed" && p.emailIsAuthoritative))
  }

  /** `domain` is `allowed` or a subdomain of it. */
  predicate DomainMatches(domain: string, allowed: string) {
    domain == allowed || (|domain| > |allowed| && domain[|domain| - |allowed| - 1..] == "." + allowed)
  }

  function AfterLastAt(e: Email): Option<string> {
    if e == "" then None
    else if e[|e| - 1] == '@' then Some("")
    else match AfterLastAt(e[..|e| - 1]) case None => None case Some(d) => Some(d + [e[|e| - 1]])
  }

  predicate DomainAllowed(e: Email, allowed: seq<string>) {
    AfterLastAt(e).Some? && exists i :: 0 <= i < |allowed| && DomainMatches(Lower(AfterLastAt(e).value), allowed[i])
  }

  predicate Holds(a: Account, e: Email) {
    a.email.Some? && Lower(a.email.value) == Lower(e)
  }

  /** The refusals a new account of an open provider can meet. */
  function Admission(p: Provider, c: Claim, site: Option<Site>): Option<Resolution> {
    if p.posture == "closed" || site.None? then None
    else if !site.value.registrationOpen then Some(RegistrationClosed)
    else if site.value.allowlistEnabled
        && !(EmailTrusted(p, c) && DomainAllowed(c.email.value, site.value.allowedDomains))
    then Some(DomainNotAllowed)
    else None
  }

  class IdentityResolver {
    var accounts: map<UserId, Account>
    var links: map<LinkKey, Link>
    var nextUser: UserId

    ghost function View(): Directory
      reads this
    {
      Directory(accounts, links, nextUser)
    }

    constructor ()
      ensures View() == Directory(map[], map[], 0)
    {
      accounts, links, nextUser := map[], map[], 0;
    }

    /** `found` is the account the email lookup came up with, when one was made. */
    method ResolveIdentity(p: Provider, c: Claim, site: Option<Site>) returns (r: Resolution, found: Option<UserId>)
      modifies this
      ensures LooksUp(old(View()), p, c) ==> Lookup(old(accounts), c, found)
      ensures !LooksUp(old(View()), p, c) ==> found.None?
      ensures (View(), r) == Resolve(old(View()), p, c, site, found)
    {
      var key := LinkKey(p.id, c.subject);
      var committed := links;
      found := None;
      if key in links {
        var link := links[key];
        if link.user in accounts {
          if c.email.Some? && c.email.value != "" && link.email != c.email {
            links := links[key := link.(email := c.email)];
          }
          assert committed[key := link] == committed;
          return Resolved(link.user, false), None;
        }
        links := links - {key};
      }
      var trusted := EmailTrusted(p, c);
      if trusted {
        found := FindByEmail(c.email.value);
        if found.Some? && !accounts[found.value].verified {
          links := committed;
          return UnverifiedConflict, found;
        }
      }
      if found.Some? {
        links := links[key := Link(found.value, c.email)];
        assert links == committed[key := Link(found.value, c.email)];
        return Resolved(found.value, false), found;
      }
      var refusal := Admission(p, c, site);
      if refusal.Some? {
        links := committed;
        return refusal.value, found;
      }
      var user := nextUser;
      nextUser := nextUser + 1;
      accounts := accounts[user := Account(if trusted then c.email else None, trusted)];
      links := links[key := Link(user, c.email)];
      assert links == committed[key := Link(user, c.email)];
      return Resolved(user, true), found;
    }

    /** Some account with the address, compared without case, or None when there is none. */
    method FindByEmail(email: Email) returns (found: Option<UserId>)
      ensures Answers(accounts, email, found)
      ensures found.Some? ==>
                && found.value in accounts && accounts[found.value].email.Some?
                && SameAddress(accounts[found.value].email.value, email)
      ensures found.None? ==>
                forall u | u in accounts && accounts[u].email.Some? :: !SameAddress(accounts[u].email.value, email)
    {
      forall u | u in accounts && accounts[u].email.Some?
        ensures Holds(accounts[u], email) <==> SameAddress(accounts[u].email.value, email)
      {
        LowerMeaning(accounts[u].email.value, email);
      }
      var todo := accounts.Keys;
      while todo != {}
        invariant todo <= accounts.Keys
        invariant forall u | u in accounts && Holds(accounts[u], email) :: u in todo
        decreases todo
      {
        var u :| u in todo;
        if Holds(accounts[u], email) {
          return Some(u);
        }
        todo := todo - {u};
      }
      return None;
    }
  }

  /** Whether a login gets as far as the email lookup. */
  predicate LooksUp(d: Directory, p: Provider, c: Claim) {
    var key := LinkKey(p.id, c.subject);
    !(key in d.links && d.links[key].user in d.accounts) && EmailTrusted(p, c)
  }

  /** `m` is a correct answer of the email lookup. */
  ghost predicate Answers(accounts: map<UserId, Account>, email: Email, m: Option<UserId>) {
    && (m.Some? ==> m.value in accounts && Holds(accounts[m.value], email))
    && (m.None? ==> forall u | u in accounts :: !Holds(accounts[u], email))
  }

  ghost predicate Lookup(accounts: map<UserId, Account>, c: Claim, m: Option<UserId>) {
    if c.email.Some? then Answers(accounts, c.email.value, m) else m.None?
  }

  /** The effect and answer of one resolution, given the email lookup's answer. A refusal is raised
      before any commit, so it leaves everything as it was. */
  ghost function Resolve(d: Directory, p: Provider, c: Claim, site: Option<Site>, m: Option<UserId>)
    : (Directory, Resolution)
    requires LooksUp(d, p, c) ==> Lookup(d.accounts, c, m)
  {
    var key := LinkKey(p.id, c.subject);
    if key in d.links && d.links[key].user in d.accounts then
      var link := d.links[key];
      (if c.email.Some? && c.email.value != "" then d.(links := d.links[key := link.(email := c.email)]) else d,
       Resolved(link.user, false))
    else if EmailTrusted(p, c) && m.Some? then
      if d.accounts[m.value].verified
      then (d.(links := d.links[key := Link(m.value, c.email)]), Resolved(m.value, false))
      else (d, UnverifiedConflict)
    else if Admission(p, c, site).Some? then (d, Admission(p, c, site).value)
    else
      (Directory(d.accounts[d.nextUser := Account(if EmailTrusted(p, c) then c.email else None, EmailTrusted(p, c))],
                 d.links[key := Link(d.nextUser, c.email)], d.nextUser + 1),
       Resolved(d.nextUser, true))
  }

  // ---- serialised runs ------------------------------------------------------------------------

  datatype Step =
    | Login(p: Provider, c: Claim, site: Option<Site>, m: Option<UserId>)
    | NewAccount(a: Account)                   // registration, administrators
    | Edit(user: UserId, a: Account)           // any change of address or stamp
    | Remove(user: UserId, cascade: bool)      // links cascade, or are left orphaned

  ghost predicate Enabled(d: Directory, a: Step) {
    match a
    case Login(_, c, _, m) => Lookup(d.accounts, c, m)
    case NewAccount(_) => true
    case Edit(user, _) => user in d.accounts
    case Remove(user, _) => user in d.accounts
  }

  ghost function After(d: Directory, a: Step): Directory
    requires Enabled(d, a)
  {
    match a
    case Login(p, c, site, m) => Resolve(d, p, c, site, m).0
    case NewAccount(a) => d.(accounts := d.accounts[d.nextUser := a], nextUser := d.nextUser + 1)
    case Edit(user, a) => d.(accounts := d.accounts[user := a])
    case Remove(user, cascade) =>
      d.(accounts := d.accounts - {user},
         links := if cascade then map k | k in d.links && d.links[k].user != user :: d.links[k] else d.links)
  }

  ghost function Exec(d: Directory, run: seq<Step>): Option<Directory> {
    if run == [] then Some(d)
    else
      var mid := Exec(d, run[..|run| - 1]);
      var a := run[|run| - 1];
      if mid.Some? && Enabled(mid.value, a) then Some(After(mid.value, a)) else None
  }

  ghost predicate Valid(d: Directory) {
    (forall u | u in d.accounts :: u < d.nextUser) && (forall k | k in d.links :: d.links[k].user < d.nextUser)
  }

  /** Account `user` exists after every prefix of the run. */
  ghost predicate Survives(d: Directory, run: seq<Step>, user: UserId) {
    forall n | 0 <= n <= |run| :: Exec(d, run[..n]).Some? && user in Exec(d, run[..n]).value.accounts
  }

  lemma {:induction false} LinkStays(d: Directory, run: seq<Step>, key: LinkKey, user: UserId)
    requires Valid(d) && key in d.links && d.links[key].user == user && Survives(d, run, user)
    ensures Exec(d, run).Some? && Valid(Exec(d, run).value)
    ensures key in Exec(d, run).value.links && Exec(d, run).value.links[key].user == user
  {
    assert run[..|run|] == run;
    if run != [] {
      var front := run[..|run| - 1];
      forall n | 0 <= n <= |front| ensures Exec(d, front[..n]).Some? && user in Exec(d, front[..n]).value.accounts {
        assert front[..n] == run[..n];
      }
      LinkStays(d, front, key, user);
      assert front == run[..|front|];
    }
  }

  /** A (provider, subject) that resolved to an account resolves to it again for as long as the
      account exists, whatever happened in between to anyone's address, stamp or to other accounts. */
  lemma SubjectKeepsItsAccount(d: Directory, p: Provider, c: Claim, site: Option<Site>, m: Option<UserId>,
                               run: seq<Step>, p': Provider, c': Claim, site': Option<Site>, m': Option<UserId>)
    requires Valid(d) && Lookup(d.accounts, c, m) && Resolve(d, p, c, site, m).1.Resolved?
    requires var d1 := Resolve(d, p, c, site, m).0; Survives(d1, run, Resolve(d, p, c, site, m).1.user)
    requires p'.id == p.id && c'.subject == c.subject
    requires var d2 := Exec(Resolve(d, p, c, site, m).0, run); d2.Some? && Lookup(d2.value.accounts, c', m')
    ensures Resolve(Exec(Resolve(d, p, c, site, m).0, run).value, p', c', site', m').1 ==
              Resolved(Resolve(d, p, c, site, m).1.user, false)
  {
    var (d1, r) := Resolve(d, p, c, site, m);
    LinkStays(d1, run, LinkKey(p.id, c.subject), r.user);
    assert run[..|run|] == run;
  }

  /** A first-contact link goes to an existing account exactly when the provider's posture trusts
      the asserted address and an account holding it, compared without case, has it verified; an
      unverified holder is refused and nothing changes. */
  lemma FirstContact(d: Directory, p: Provider, c: Claim, site: Option<Site>, m: Option<UserId>)
    requires Valid(d) && Lookup(d.accounts, c, m)
    requires var key := LinkKey(p.id, c.subject); !(key in d.links && d.links[key].user in d.accounts)
    ensures var (d', r) := Resolve(d, p, c, site, m);
            var key := LinkKey(p.id, c.subject);
            && (r.Resolved? && !r.created <==> EmailTrusted(p, c) && m.Some? && d.accounts[m.value].verified)
            && (r.Resolved? && !r.created ==>
                  && r.user in d.accounts && d.accounts[r.user].verified && Holds(d.accounts[r.user], c.email.value)
                  && d'.accounts == d.accounts && key in d'.links && d'.links[key].user == r.user)
            && (r.UnverifiedConflict? <==> EmailTrusted(p, c) && m.Some? && !d.accounts[m.value].verified)
            && (!r.Resolved? ==> d' == d)
            && (r.Resolved? && r.created ==>
                  && r.user !in d.accounts && d'.accounts.Keys == d.accounts.Keys + {r.user}
                  && (d'.accounts[r.user].verified <==> EmailTrusted(p, c))
                  && (d'.accounts[r.user].email.Some? ==> EmailTrusted(p, c) && d'.accounts[r.user].email == c.email)
                  && (EmailTrusted(p, c) ==> forall u | u in d.accounts :: !Holds(d.accounts[u], c.email.value)))
  {
  }

  /** What follows the last "@": without another, and there is none exactly when there is no "@". */
  lemma {:induction false} AfterLastAtMeaning(e: Email)
    ensures AfterLastAt(e).None? <==> '@' !in e
    ensures AfterLastAt(e).Some? ==>
              var d := AfterLastAt(e).value; |d| < |e| && '@' !in d && e[|e| - |d| - 1..] == "@" + d
  {
    if e != "" {
      var front := e[..|e| - 1];
      assert e == front + [e[|e| - 1]];
      AfterLastAtMeaning(front);
    }
  }

  /** Site policy stops new accounts only, and only those of providers that are not closed: such a
      login gets an account exactly when registration is open and, under an allowlist, it asserts a
      trusted address of an allowed domain or a subdomain of one. */
  lemma PolicyStopsOnlyNewOpenAccounts(d: Directory, p: Provider, c: Claim, site: Option<Site>, m: Option<UserId>)
    requires Valid(d) && Lookup(d.accounts, c, m)
    ensures var free := Resolve(d, p, c, None, m).1;
            var r := Resolve(d, p, c, site, m).1;
            && !free.RegistrationClosed? && !free.DomainNotAllowed?
            && (r != free ==> free.Resolved? && free.created && p.posture != "closed" && site.Some?)
            && (free.Resolved? && free.created && p.posture != "closed" && site.Some? ==>
                  (r == free <==>
                    site.value.registrationOpen &&
                    (site.value.allowlistEnabled ==>
                      EmailTrusted(p, c) && InSomeDomain(c.email.value, site.value.allowedDomains))))
  {
    if c.email.Some? {
      AfterLastAtMeaning(c.email.value);
    }
  }

  predicate InSomeDomain(e: Email, domains: seq<string>) {
    exists i :: 0 <= i < |domains| && InDomain(e, domains[i])
  }

  /** The address is at `allowed` or at a subdomain of it. */
  predicate InDomain(e: Email, allowed: string) {
    '@' in e && AfterLastAt(e).Some? && DomainMatches(Lower(AfterLastAt(e).value), allowed)
  }

  // ---- logins over the accounts' own history --------------------------------------------------

  /** The accounts as the routes left them, with some links. */
  function DirectoryOf(g: System, links: map<LinkKey, Link>): Directory {
    Directory(map u | u in g.db.users :: Account(g.db.users[u].email, g.db.users[u].verified), links, g.nextUser)
  }

  /** A first-contact link to an existing account goes to one for which the asserted address was
      proven, after any run of the account routes whose administrators' edits were harmless. */
  lemma FirstContactLinksProvenAddress(start: System, run: seq<AddressTokens.Step>, links: map<LinkKey, Link>,
                                       p: Provider, c: Claim, site: Option<Site>, m: Option<UserId>)
    requires Initial(start) && AddressTokens.Exec(start, run).Some?
    requires forall k | 0 <= k < |run| :: HarmlessAt(start, run, k)
    requires var d := DirectoryOf(AddressTokens.Exec(start, run).value, links);
             var key := LinkKey(p.id, c.subject);
             Lookup(d.accounts, c, m) && !(key in links && links[key].user in d.accounts)
    ensures var g := AddressTokens.Exec(start, run).value;
            var r := Resolve(DirectoryOf(g, links), p, c, site, m).1;
            r.Resolved? && !r.created ==> EmailTrusted(p, c) && (r.user, Lower(c.email.value)) in g.proven
  {
    HarmlessRunsKeepProven(start, run, |run|);
    assert run[..|run|] == run;
  }

  // ---- which claims are believed --------------------------------------------------------------

  /** The (provider, subject) is not linked to an account that exists. */
  predicate IsFirstContact(d: Directory, p: Provider, c: Claim) {
    var key := LinkKey(p.id, c.subject);
    !(key in d.links && d.links[key].user in d.accounts)
  }

  /** On first contact, an address that an open provider does not assert as verified, that a closed
      one is not flagged authoritative for, or that any other provider asserts, reaches no existing
      account, whoever holds it: the answer is a new account without an address, unverified, or the
      site's refusal. So is a claim without an address. */
  lemma UnbelievedAddressReachesNobody(d: Directory, p: Provider, c: Claim, site: Option<Site>, m: Option<UserId>)
    requires Valid(d) && Lookup(d.accounts, c, m) && IsFirstContact(d, p, c)
    requires c.email.None? || c.email.value == ""
             || (p.posture == "open" && !c.emailVerified)
             || (p.posture == "closed" && !p.emailIsAuthoritative)
             || (p.posture != "open" && p.posture != "closed")
    ensures var (d', r) := Resolve(d, p, c, site, m);
            && (r.Resolved? ==>
                  && r.created && r.user !in d.accounts
                  && d'.accounts == d.accounts[r.user := Account(None, false)])
            && (!r.Resolved? ==> (r.RegistrationClosed? || r.DomainNotAllowed?) && d' == d)
  {
  }

  /** An address that an open provider asserts as verified, or that a closed one is authoritative
      for, decides by its holder: none makes a new verified account with it, site policy allowing, a
      holder who has verified it is linked, one who has not is a conflict. */
  lemma BelievedAddressFindsItsHolder(d: Directory, p: Provider, c: Claim, site: Option<Site>, m: Option<UserId>)
    requires Valid(d) && Lookup(d.accounts, c, m) && IsFirstContact(d, p, c) && c.email.Some? && c.email.value != ""
    requires (p.posture == "open" && c.emailVerified) || (p.posture == "closed" && p.emailIsAuthoritative)
    ensures var (d', r) := Resolve(d, p, c, site, m);
            if m.Some? then
              && m.value in d.accounts && d.accounts[m.value].email.Some?
              && SameAddress(d.accounts[m.value].email.value, c.email.value)
              && r == (if d.accounts[m.value].verified then Resolved(m.value, false) else UnverifiedConflict)
              && d'.accounts == d.accounts
            else
              && (forall u | u in d.accounts && d.accounts[u].email.Some? ::
                    !SameAddress(d.accounts[u].email.value, c.email.value))
              && !r.UnverifiedConflict? && (r.Resolved? ==>
                    && r.created && r.user !in d.accounts
                    && d'.accounts == d.accounts[r.user := Account(c.email, true)])
  {
    forall u | u in d.accounts && d.accounts[u].email.Some?
      ensures Holds(d.accounts[u], c.email.value) <==> SameAddress(d.accounts[u].email.value, c.email.value)
    {
      LowerMeaning(d.accounts[u].email.value, c.email.value);
    }
  }

  lemma SuffixMeaning(s: string, suffix: string)
    ensures (|s| >= |suffix| && s[|s| - |suffix|..] == suffix) <==> exists rest :: s == rest + suffix
  {
    var n := |s| - |suffix|;
    if n >= 0 && s[n..] == suffix {
      assert s == s[..n] + suffix;
    }
    if rest :| s == rest + suffix {
      assert s[|rest|..] == suffix;
    }
  }

  /** A domain is allowed by an entry that is that domain or one it lies under. */
  lemma DomainMatchesMeaning(domain: string, allowed: string)
    ensures DomainMatches(domain, allowed) <==> domain == allowed || exists sub :: domain == sub + ("." + allowed)
  {
    SuffixMeaning(domain, "." + allowed);
    assert |"." + allowed| == |allowed| + 1;
  }

  /** A linked login changes no account and no other link, and of its own link the address shown, to
      the one asserted if any. */
  lemma LinkedLoginUpdatesItsLink(d: Directory, p: Provider, c: Claim, site: Option<Site>, m: Option<UserId>,
                                  key: LinkKey)
    requires (LooksUp(d, p, c) ==> Lookup(d.accounts, c, m)) && !IsFirstContact(d, p, c)
    ensures var (d', r) := Resolve(d, p, c, site, m);
            var own := LinkKey(p.id, c.subject);
            && r == Resolved(d.links[own].user, false)
            && d'.accounts == d.accounts && d'.nextUser == d.nextUser && d'.links.Keys == d.links.Keys
            && (key in d.links && key != own ==> d'.links[key] == d.links[key])
            && d'.links[own].user == d.links[own].user
            && d'.links[own].email == if c.email.Some? && c.email.value != "" then c.email else d.links[own].email
  {
  }
}
