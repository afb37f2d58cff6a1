/** The user service's operations as transitions of the two stores. Each takes the
    stores before the call and yields the stores after it, together with what the
    call returns or the error it throws. The values the service obtains from its
    collaborators (the bcrypt digest, the uuid, the token pair, whether the mail
    went out) are parameters. */
module Transitions {
  import opened AuthTypes
  import opened UserStore
  import opened TokenStore

  function DuplicateEmailMessage(email: Email): string
  {
    "User with this email " + email + " already exists"
  }

  const ActivationLinkIncorrect := "Activation link is incorrect"
  const NoUserWithEmail := "No user found with this email"
  const IncorrectPassword := "Incorrect password"

  /** `registration(email, password)`, where `passwordHash` is what bcrypt made of
      the password, `activationLink` the fresh uuid, `mailDelivered` whether the
      activation mail was accepted and `tokens` the pair the token service issues. */
  function Registration(s: Stores, email: Email, passwordHash: Hash, activationLink: Link,
                        mailDelivered: bool, tokens: TokenPair): (o: Outcome<AuthData>)
    // a taken email is refused before anything is written
    ensures Registered(s.users, email) ==> o == Outcome(s, Err(BadRequest(DuplicateEmailMessage(email))))
    // otherwise exactly one record is added: the given email, hash and link, not activated
    ensures !Registered(s.users, email) ==>
              o.stores.users == s.users + [UserRecord(email, passwordHash, activationLink, false)]
    // a failed mail leaves the new record in place and no session
    ensures o.result.Ok? <==> !Registered(s.users, email) && mailDelivered
    ensures !Registered(s.users, email) && !mailDelivered ==> o.result == Err(MailError)
    ensures o.result.Err? ==> o.stores.sessions == s.sessions
    // on success the caller gets the issued tokens and the new user, whose session is saved
    ensures o.result.Ok? ==>
              && o.result.value == AuthData(tokens, UserDto(|s.users|, email, false))
              && o.stores.sessions == SaveToken(s.sessions, |s.users|, tokens.refreshToken)
  {
    if FindOne(s.users, ByEmail(email)).Some? then
      Outcome(s, Err(BadRequest(DuplicateEmailMessage(email))))
    else
      var id := |s.users|;
      var users := s.users + [UserRecord(email, passwordHash, activationLink, false)];
      if !mailDelivered then
        Outcome(Stores(users, s.sessions), Err(MailError))
      else
        var dto := ToDto(id, users[id]);
        Outcome(Stores(users, SaveToken(s.sessions, dto.id, tokens.refreshToken)), Ok(AuthData(tokens, dto)))
  }

  /** `activate(activationLink)`. */
  function Activation(s: Stores, activationLink: Link): (o: Outcome<()>)
    // an unknown link is refused and nothing changes
    ensures o.result.Ok? <==> exists i :: 0 <= i < |s.users| && s.users[i].activationLink == activationLink
    ensures o.result.Err? ==> o == Outcome(s, Err(BadRequest(ActivationLinkIncorrect)))
    // the session store is never touched and no record is added or removed
    ensures o.stores.sessions == s.sessions
    ensures |o.stores.users| == |s.users|
    // the first record carrying the link becomes activated; no other field or record changes
    ensures o.result.Ok? ==>
              var i := FindOne(s.users, ByActivationLink(activationLink)).value;
              && o.stores.users[i] == s.users[i].(isActivated := true)
              && forall j :: 0 <= j < |s.users| && j != i ==> o.stores.users[j] == s.users[j]
  {
    match FindOne(s.users, ByActivationLink(activationLink))
    case None => Outcome(s, Err(BadRequest(ActivationLinkIncorrect)))
    case Some(i) =>
      var user := s.users[i].(isActivated := true);
      Outcome(Stores(s.users[i := user], s.sessions), Ok(()))
  }

  /** `login(email, password)`. */
  function Login(env: Collaborators, s: Stores, email: Email, password: Password, tokens: TokenPair)
    : (o: Outcome<AuthData>)
    // user records are never touched; a failure touches nothing
    ensures o.stores.users == s.users
    ensures o.result.Err? ==> o.stores == s
    // an unknown email, then a wrong password, are refused; activation is not consulted
    ensures !Registered(s.users, email) ==> o.result == Err(BadRequest(NoUserWithEmail))
    ensures Registered(s.users, email) ==>
              var id := FindOne(s.users, ByEmail(email)).value;
              && (o.result.Ok? <==> env.verify(password, s.users[id].passwordHash))
              && (o.result.Err? ==> o.result == Err(BadRequest(IncorrectPassword)))
              // on success the session of that user is saved and the caller gets its DTO
              && (o.result.Ok? ==>
                    && o.result.value == AuthData(tokens, UserDto(id, email, s.users[id].isActivated))
                    && o.stores.sessions == SaveToken(s.sessions, id, tokens.refreshToken))
  {
    match FindOne(s.users, ByEmail(email))
    case None => Outcome(s, Err(BadRequest(NoUserWithEmail)))
    case Some(id) =>
      if !env.verify(password, s.users[id].passwordHash) then
        Outcome(s, Err(BadRequest(IncorrectPassword)))
      else
        var dto := ToDto(id, s.users[id]);
        Outcome(Stores(s.users, SaveToken(s.sessions, dto.id, tokens.refreshToken)), Ok(AuthData(tokens, dto)))
  }

  /** `logout(refreshToken)`: the token's session goes away; nothing else changes. */
  function Logout(s: Stores, refreshToken: Token): (s': Stores)
    ensures s'.users == s.users
    ensures !FindToken(s'.sessions, refreshToken)
    ensures forall id :: id in s'.sessions <==> id in s.sessions && s.sessions[id] != refreshToken
    ensures forall id :: id in s'.sessions ==> s'.sessions[id] == s.sessions[id]
  {
    Stores(s.users, RemoveToken(s.sessions, refreshToken))
  }

  /** `refresh(refreshToken)`, where `tokens` is the pair the token service issues. */
  function Refresh(env: Collaborators, s: Stores, refreshToken: Token, tokens: TokenPair)
    : (o: Outcome<AuthData>)
    // user records are never touched; a failure touches nothing
    ensures o.stores.users == s.users
    ensures o.result.Err? ==> o.stores == s
    // a missing token, one that does not validate, or one not in the store is refused
    ensures refreshToken == "" ==> o.result == Err(Unauthorized)
    ensures env.validateRefreshToken(refreshToken).None? ==> o.result == Err(Unauthorized)
    ensures !FindToken(s.sessions, refreshToken) ==> o.result == Err(Unauthorized)
    // a token passing all three checks succeeds exactly when its payload names a user
    ensures refreshToken != "" && FindToken(s.sessions, refreshToken) &&
            env.validateRefreshToken(refreshToken).Some? ==>
              var id := env.validateRefreshToken(refreshToken).value;
              && (o.result.Ok? <==> id < |s.users|)
              && (o.result.Err? ==> o.result == Err(InternalError))
              // the new pair is issued for that user, read afresh from the store,
              // and its refresh token replaces that user's session
              && (o.result.Ok? ==>
                    && o.result.value == AuthData(tokens, ToDto(id, s.users[id]))
                    && o.stores.sessions == SaveToken(s.sessions, id, tokens.refreshToken))
  {
    if refreshToken == "" then
      Outcome(s, Err(Unauthorized))
    else
      var userData := env.validateRefreshToken(refreshToken);
      var tokenFromDb := FindToken(s.sessions, refreshToken);
      if userData.None? || !tokenFromDb then
        Outcome(s, Err(Unauthorized))
      else if userData.value >= |s.users| then
        Outcome(s, Err(InternalError))
      else
        var dto := ToDto(userData.value, s.users[userData.value]);
        Outcome(Stores(s.users, SaveToken(s.sessions, dto.id, tokens.refreshToken)), Ok(AuthData(tokens, dto)))
  }

  /** One request to the service, with the values its collaborators supply. */
  datatype Request =
    | RegistrationRequest(email: Email, passwordHash: Hash, activationLink: Link,
                          mailDelivered: bool, tokens: TokenPair)
    | ActivationRequest(activationLink: Link)
    | LoginRequest(email: Email, password: Password, tokens: TokenPair)
    | LogoutRequest(refreshToken: Token)
    | RefreshRequest(refreshToken: Token, tokens: TokenPair)

  /** The stores after serving one request, whatever it returned. */
  function Apply(env: Collaborators, s: Stores, req: Request): Stores
  {
    match req
    case RegistrationRequest(email, hash, link, mailDelivered, tokens) =>
      Registration(s, email, hash, link, mailDelivered, tokens).stores
    case ActivationRequest(link) => Activation(s, link).stores
    case LoginRequest(email, password, tokens) => Login(env, s, email, password, tokens).stores
    case LogoutRequest(token) => Logout(s, token)
    case RefreshRequest(token, tokens) => Refresh(env, s, token, tokens).stores
  }

  /** The stores after serving a sequence of requests one after another. */
  function Run(env: Collaborators, s: Stores, reqs: seq<Request>): Stores
    decreases |reqs|
  {
    if reqs == [] then s else Run(env, Apply(env, s, reqs[0]), reqs[1..])
  }

  /** The per-email account state the service moves through. */
  datatype AccountStatus = Unregistered | PendingActivation | Activated

  function StatusOf(s: Stores, email: Email): AccountStatus
  {
    match FindOne(s.users, ByEmail(email))
    case None => Unregistered
    case Some(i) => if s.users[i].isActivated then Activated else PendingActivation
  }

  function Rank(status: AccountStatus): nat
  {
    match status
    case Unregistered => 0
    case PendingActivation => 1
    case Activated => 2
  }

  /** A user is logged in while the session store holds a token for it. */
  predicate LoggedIn(s: Stores, id: UserId)
  {
    id in s.sessions
  }

  /** What every reachable state satisfies: emails are unique and every session
      belongs to a user of the collection. */
  predicate Invariant(s: Stores)
  {
    && EmailsUnique(s.users)
    && forall id :: id in s.sessions ==> id < |s.users|
  }
}
