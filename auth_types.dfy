/** Values the user service works with: user records as the user collection holds
    them, the DTO handed out in tokens and responses, token pairs, the errors an
    operation can end with, and the two stores the service changes. */
module AuthTypes {

  type Email = string
  type Password = string
  /** The digest bcrypt produced for a password; opaque to this model. */
  type Hash = string
  /** The uuid carried in the activation URL. */
  type Link = string
  /** A signed token; the empty string stands for a missing one as well. */
  type Token = string
  /** A user's identity. Users are never deleted, so a record's position in the
      collection serves as its id. */
  type UserId = nat

  datatype Option<T> = None | Some(value: T)

  /** How an operation fails. BadRequest and Unauthorized are the API errors the
      service throws; MailError is a rejection from the mail collaborator that the
      service lets through; InternalError is the TypeError the service raises when a
      validated refresh token names a user that is not in the collection. */
  datatype Failure =
    | BadRequest(message: string)
    | Unauthorized
    | MailError
    | InternalError

  datatype Result<T> = Ok(value: T) | Err(error: Failure)

  /** A document of the user collection. */
  datatype UserRecord = UserRecord(
    email: Email,
    passwordHash: Hash,
    activationLink: Link,
    isActivated: bool)

  /** The projection of a record that goes into tokens and responses. */
  datatype UserDto = UserDto(id: UserId, email: Email, isActivated: bool)

  /** `new UserDto(user)`: the record's id, email and activation flag. */
  function ToDto(id: UserId, user: UserRecord): (dto: UserDto)
    ensures dto.id == id && dto.email == user.email && dto.isActivated == user.isActivated
  {
    UserDto(id, user.email, user.isActivated)
  }

  datatype TokenPair = TokenPair(accessToken: Token, refreshToken: Token)

  /** What registration, login and refresh return: the two tokens and the user. */
  datatype AuthData = AuthData(tokens: TokenPair, user: UserDto)

  /** The collaborators whose internals are not modelled: bcrypt.compare, and the
      token service's refresh-token validation, which yields the id in the payload
      of a token whose signature and expiry check out. */
  datatype Collaborators = Collaborators(
    verify: (Password, Hash) -> bool,
    validateRefreshToken: Token -> Option<UserId>)

  /** The user collection (in collection order) and the refresh-token collection,
      which holds at most one token per user id. */
  datatype Stores = Stores(users: seq<UserRecord>, sessions: map<UserId, Token>)

  /** The stores after an operation, with what the operation returned. */
  datatype Outcome<T> = Outcome(stores: Stores, result: Result<T>)
}
