/** What the service's operations guarantee across calls: the account state
    machine, the invariant every reachable state keeps, idempotent activation and
    the session rules of login, refresh and logout. */
module Properties {
  import opened AuthTypes
  import opened UserStore
  import opened Transitions

  // ---------------------------------------------------------------------------
  // The invariant
  // ---------------------------------------------------------------------------

  /** Registration keeps emails unique and saves a session only for the record it adds. */
  lemma RegistrationKeepsInvariant(s: Stores, email: Email, hash: Hash, link: Link,
                                   mailDelivered: bool, tokens: TokenPair)
    requires Invariant(s)
    ensures Invariant(Registration(s, email, hash, link, mailDelivered, tokens).stores)
  {
  }

  /** Every operation keeps the invariant. */
  lemma ApplyKeepsInvariant(env: Collaborators, s: Stores, req: Request)
    requires Invariant(s)
    ensures Invariant(Apply(env, s, req))
  {
    if req.RegistrationRequest? {
      RegistrationKeepsInvariant(s, req.email, req.passwordHash, req.activationLink, req.mailDelivered, req.tokens);
    }
  }

  /** Every state reachable from one satisfying the invariant satisfies it. */
  lemma {:induction false} RunKeepsInvariant(env: Collaborators, s: Stores, reqs: seq<Request>)
    requires Invariant(s)
    ensures Invariant(Run(env, s, reqs))
    decreases |reqs|
  {
    if reqs != [] {
      ApplyKeepsInvariant(env, s, reqs[0]);
      RunKeepsInvariant(env, Apply(env, s, reqs[0]), reqs[1..]);
    }
  }

  // ---------------------------------------------------------------------------
  // The account state machine
  // ---------------------------------------------------------------------------

  /** `later` grew from `earlier`: no record was removed, none changed its email,
      hash or link, and none lost its activation. */
  predicate Evolves(earlier: Stores, later: Stores)
  {
    && |earlier.users| <= |later.users|
    && forall i :: 0 <= i < |earlier.users| ==>
         && later.users[i].email == earlier.users[i].email
         && later.users[i].passwordHash == earlier.users[i].passwordHash
         && later.users[i].activationLink == earlier.users[i].activationLink
         && (earlier.users[i].isActivated ==> later.users[i].isActivated)
  }

  /** No operation removes a record or undoes an activation. */
  lemma ApplyEvolves(env: Collaborators, s: Stores, req: Request)
    ensures Evolves(s, Apply(env, s, req))
  {
  }

  /** Over any run, records only accumulate and activation is never undone. */
  lemma {:induction false} RunEvolves(env: Collaborators, s: Stores, reqs: seq<Request>)
    ensures Evolves(s, Run(env, s, reqs))
    decreases |reqs|
  {
    if reqs != [] {
      var next := Apply(env, s, reqs[0]);
      ApplyEvolves(env, s, reqs[0]);
      RunEvolves(env, next, reqs[1..]);
    }
  }

  /** An account's status never moves backwards along
      Unregistered, PendingActivation, Activated. */
  lemma StatusNeverRegresses(earlier: Stores, later: Stores, email: Email)
    requires Evolves(earlier, later)
    ensures Rank(StatusOf(earlier, email)) <= Rank(StatusOf(later, email))
  {
  }

  /** No sequence of requests moves an account's status backwards. */
  lemma {:induction false} RunNeverRegresses(env: Collaborators, s: Stores, reqs: seq<Request>, email: Email)
    ensures Rank(StatusOf(s, email)) <= Rank(StatusOf(Run(env, s, reqs), email))
  {
    RunEvolves(env, s, reqs);
    StatusNeverRegresses(s, Run(env, s, reqs), email);
  }

  /** Registration of a fresh email makes it PendingActivation, even when the
      activation mail fails. */
  lemma RegistrationMakesPending(s: Stores, email: Email, hash: Hash, link: Link,
                                 mailDelivered: bool, tokens: TokenPair)
    requires !Registered(s.users, email)
    ensures StatusOf(s, email) == Unregistered
    ensures StatusOf(Registration(s, email, hash, link, mailDelivered, tokens).stores, email) == PendingActivation
  {
    FindByEmailIffRegistered(s.users, email);
    FindOneAfterAppend(s.users, ByEmail(email), UserRecord(email, hash, link, false));
  }

  /** Activation with a known link makes the account of the record carrying it
      Activated. */
  lemma ActivationMakesActivated(s: Stores, link: Link)
    requires Invariant(s)
    requires Activation(s, link).result.Ok?
    ensures var i := FindOne(s.users, ByActivationLink(link)).value;
            StatusOf(Activation(s, link).stores, s.users[i].email) == Activated
  {
  }

  // ---------------------------------------------------------------------------
  // Registration and activation
  // ---------------------------------------------------------------------------

  /** Registering an email twice: the second call is refused and changes nothing,
      and the collection holds exactly one record for the email. */
  lemma DuplicateRegistrationRejected(s: Stores, email: Email,
                                      hash1: Hash, link1: Link, mail1: bool, tokens1: TokenPair,
                                      hash2: Hash, link2: Link, mail2: bool, tokens2: TokenPair)
    requires Invariant(s)
    ensures var first := Registration(s, email, hash1, link1, mail1, tokens1).stores;
            && Registration(first, email, hash2, link2, mail2, tokens2)
                 == Outcome(first, Err(BadRequest(DuplicateEmailMessage(email))))
            && |RecordsWithEmail(first.users, email)| == 1
  {
    var first := Registration(s, email, hash1, link1, mail1, tokens1).stores;
    RegistrationKeepsInvariant(s, email, hash1, link1, mail1, tokens1);
    var i: UserId;
    if Registered(s.users, email) {
      i :| 0 <= i < |s.users| && s.users[i].email == email;
    } else {
      i := |s.users|;
    }
    assert first.users[i].email == email;
    assert RecordsWithEmail(first.users, email) == {i};
  }

  /** Activation is idempotent: the link is kept, so a second activation with it
      returns what the first returned and changes nothing more. */
  lemma ActivationIdempotent(s: Stores, link: Link)
    ensures var once := Activation(s, link);
            Activation(once.stores, link) == once
  {
  }

  // ---------------------------------------------------------------------------
  // Sessions
  // ---------------------------------------------------------------------------

  /** A user can log in with the password it registered with straight away, without
      activating: the login answers with that user, not yet activated. */
  lemma LoginAfterRegistration(env: Collaborators, s: Stores, email: Email, password: Password,
                               hash: Hash, link: Link, mailDelivered: bool,
                               tokens1: TokenPair, tokens2: TokenPair)
    requires !Registered(s.users, email)
    requires env.verify(password, hash)
    ensures var registered := Registration(s, email, hash, link, mailDelivered, tokens1).stores;
            var o := Login(env, registered, email, password, tokens2);
            && o.result == Ok(AuthData(tokens2, UserDto(|s.users|, email, false)))
            && LoggedIn(o.stores, |s.users|)
            && o.stores.sessions[|s.users|] == tokens2.refreshToken
  {
    FindByEmailIffRegistered(s.users, email);
    FindOneAfterAppend(s.users, ByEmail(email), UserRecord(email, hash, link, false));
  }

  /** After logout with a token, refreshing with it is refused, whether or not the
      token would still validate. */
  lemma RefreshAfterLogoutUnauthorized(env: Collaborators, s: Stores, refreshToken: Token, tokens: TokenPair)
    ensures Refresh(env, Logout(s, refreshToken), refreshToken, tokens)
              == Outcome(Logout(s, refreshToken), Err(Unauthorized))
  {
  }

  /** Rotation: once a refresh succeeded and handed out a different refresh token,
      the one it consumed is refused. This rests on the token being stored only under
      the user its payload names, and on saving by upsert. */
  lemma StaleRefreshTokenRejected(env: Collaborators, s: Stores, refreshToken: Token,
                                  tokens: TokenPair, next: TokenPair)
    requires Refresh(env, s, refreshToken, tokens).result.Ok?
    requires tokens.refreshToken != refreshToken
    requires forall id :: id in s.sessions && s.sessions[id] == refreshToken ==>
               env.validateRefreshToken(refreshToken) == Some(id)
    ensures var after := Refresh(env, s, refreshToken, tokens).stores;
            Refresh(env, after, refreshToken, next) == Outcome(after, Err(Unauthorized))
  {
  }

  /** Registration, login, refresh, logout and a refresh with the logged-out token,
      one after another: each of the first three succeeds and answers for the new
      user, and the last is refused. */
  lemma SessionLifecycle(env: Collaborators, s: Stores, email: Email, password: Password,
                         hash: Hash, link: Link, t1: TokenPair, t2: TokenPair, t3: TokenPair, t4: TokenPair)
    requires !Registered(s.users, email)
    requires env.verify(password, hash)
    requires t2.refreshToken != ""
    requires env.validateRefreshToken(t2.refreshToken) == Some(|s.users|)
    ensures var r1 := Registration(s, email, hash, link, true, t1);
            var r2 := Login(env, r1.stores, email, password, t2);
            var r3 := Refresh(env, r2.stores, t2.refreshToken, t3);
            var s4 := Logout(r3.stores, t3.refreshToken);
            && r1.result == Ok(AuthData(t1, UserDto(|s.users|, email, false)))
            && r2.result == Ok(AuthData(t2, UserDto(|s.users|, email, false)))
            && r3.result == Ok(AuthData(t3, UserDto(|s.users|, email, false)))
            && !LoggedIn(s4, |s.users|)
            && Refresh(env, s4, t3.refreshToken, t4).result == Err(Unauthorized)
  {
  }
}
