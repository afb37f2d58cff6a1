/** The refresh-token collection. The token service that owns it is not part of
    this model; the three operations below are the semantics this model assumes
    for it: one entry per user id, saved by upsert, found and removed by value. */
module TokenStore {
  import opened AuthTypes

  type Sessions = map<UserId, Token>

  /** `tokenService.saveToken(id, token)`: insert, or overwrite the entry of `id`. */
  function SaveToken(sessions: Sessions, id: UserId, refreshToken: Token): (r: Sessions)
    ensures r.Keys == sessions.Keys + {id}
    ensures r[id] == refreshToken
    ensures forall other :: other in sessions && other != id ==> r[other] == sessions[other]
  {
    sessions[id := refreshToken]
  }

  /** `tokenService.findToken(token)`: some entry holds this token. */
  predicate FindToken(sessions: Sessions, refreshToken: Token): (found: bool)
    ensures found <==> exists id :: id in sessions && sessions[id] == refreshToken
  {
    refreshToken in sessions.Values
  }

  /** `tokenService.removeToken(token)`: drop every entry holding this token. */
  function RemoveToken(sessions: Sessions, refreshToken: Token): (r: Sessions)
    ensures !FindToken(r, refreshToken)
    ensures forall id :: id in r <==> id in sessions && sessions[id] != refreshToken
    ensures forall id :: id in r ==> r[id] == sessions[id]
  {
    map id | id in sessions && sessions[id] != refreshToken :: sessions[id]
  }
}
