/** The user service as an object over the two stores: each operation runs the
    source's guards in the source's order and then updates `users` or `sessions` in
    place. Every method is proved to leave the object in the state, and to return
    the value, that the matching transition of module Transitions prescribes, and
    to keep the invariant of every reachable state. */
module Service {
  import opened AuthTypes
  import opened UserStore
  import opened TokenStore
  import opened Transitions
  import Properties

  class UserService {
    /** bcrypt.compare and the token service's refresh-token validation. */
    const collaborators: Collaborators
    /** The user collection, in collection order; a record's position is its id. */
    var users: seq<UserRecord>
    /** The refresh-token collection: one token per user id. */
    var sessions: map<UserId, Token>

    function State(): Stores
      reads this
    {
      Stores(users, sessions)
    }

    ghost predicate Valid()
      reads this
    {
      Invariant(State())
    }

    constructor (collaborators: Collaborators)
      ensures Valid()
      ensures this.collaborators == collaborators
      ensures users == [] && sessions == map[]
    {
      this.collaborators := collaborators;
      users := [];
      sessions := map[];
    }

    method Registration(email: Email, passwordHash: Hash, activationLink: Link,
                        mailDelivered: bool, tokens: TokenPair) returns (r: Result<AuthData>)
      requires Valid()
      modifies this
      ensures Valid()
      ensures Outcome(State(), r)
                == Transitions.Registration(old(State()), email, passwordHash, activationLink, mailDelivered, tokens)
    {
      Properties.ApplyKeepsInvariant(collaborators, State(),
        RegistrationRequest(email, passwordHash, activationLink, mailDelivered, tokens));
      var candidate := FindOne(users, ByEmail(email));
      if candidate.Some? {
        return Err(BadRequest(DuplicateEmailMessage(email)));
      }
      var id := |users|;
      users := users + [UserRecord(email, passwordHash, activationLink, false)];
      if !mailDelivered {
        return Err(MailError);
      }
      var userDto := ToDto(id, users[id]);
      sessions := SaveToken(sessions, userDto.id, tokens.refreshToken);
      r := Ok(AuthData(tokens, userDto));
    }

    method Activate(activationLink: Link) returns (r: Result<()>)
      requires Valid()
      modifies this
      ensures Valid()
      ensures Outcome(State(), r) == Activation(old(State()), activationLink)
    {
      Properties.ApplyKeepsInvariant(collaborators, State(), ActivationRequest(activationLink));
      var found := FindOne(users, ByActivationLink(activationLink));
      if found.None? {
        return Err(BadRequest(ActivationLinkIncorrect));
      }
      var user := users[found.value];
      user := user.(isActivated := true);
      users := users[found.value := user];
      r := Ok(());
    }

    method Login(email: Email, password: Password, tokens: TokenPair) returns (r: Result<AuthData>)
      requires Valid()
      modifies this
      ensures Valid()
      ensures Outcome(State(), r) == Transitions.Login(collaborators, old(State()), email, password, tokens)
    {
      Properties.ApplyKeepsInvariant(collaborators, State(), LoginRequest(email, password, tokens));
      var found := FindOne(users, ByEmail(email));
      if found.None? {
        return Err(BadRequest(NoUserWithEmail));
      }
      var user := users[found.value];
      var isPassEquals := collaborators.verify(password, user.passwordHash);
      if !isPassEquals {
        return Err(BadRequest(IncorrectPassword));
      }
      var userDto := ToDto(found.value, user);
      sessions := SaveToken(sessions, userDto.id, tokens.refreshToken);
      r := Ok(AuthData(tokens, userDto));
    }

    method Logout(refreshToken: Token)
      requires Valid()
      modifies this
      ensures Valid()
      ensures State() == Transitions.Logout(old(State()), refreshToken)
    {
      Properties.ApplyKeepsInvariant(collaborators, State(), LogoutRequest(refreshToken));
      sessions := RemoveToken(sessions, refreshToken);
    }

    method Refresh(refreshToken: Token, tokens: TokenPair) returns (r: Result<AuthData>)
      requires Valid()
      modifies this
      ensures Valid()
      ensures Outcome(State(), r) == Transitions.Refresh(collaborators, old(State()), refreshToken, tokens)
    {
      Properties.ApplyKeepsInvariant(collaborators, State(), RefreshRequest(refreshToken, tokens));
      if refreshToken == "" {
        return Err(Unauthorized);
      }
      var userData := collaborators.validateRefreshToken(refreshToken);
      var tokenFromDb := FindToken(sessions, refreshToken);
      if userData.None? || !tokenFromDb {
        return Err(Unauthorized);
      }
      if userData.value >= |users| {
        return Err(InternalError);
      }
      var userDto := ToDto(userData.value, users[userData.value]);
      sessions := SaveToken(sessions, userDto.id, tokens.refreshToken);
      r := Ok(AuthData(tokens, userDto));
    }

    /** `getAllUsers()`: the whole collection, in collection order. */
    method GetAllUsers() returns (all: seq<UserRecord>)
      ensures |all| == |users|
      ensures forall i :: 0 <= i < |all| ==> all[i] == users[i]
    {
      all := users;
    }
  }
}
