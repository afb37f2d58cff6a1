/** The user collection as the service queries it: `findOne` by email or by
    activation link, returning the first matching record in collection order. */
module UserStore {
  import opened AuthTypes

  /** The two filters the service passes to `UserModel.findOne`. */
  datatype Query = ByEmail(email: Email) | ByActivationLink(link: Link)

  predicate Matches(q: Query, user: UserRecord)
  {
    match q
    case ByEmail(e) => user.email == e
    case ByActivationLink(l) => user.activationLink == l
  }

  /** Some record of the collection carries this email. */
  predicate Registered(users: seq<UserRecord>, email: Email)
  {
    exists i :: 0 <= i < |users| && users[i].email == email
  }

  /** `UserModel.findOne(q)`: the id of the first record that matches, or nothing. */
  function FindOne(users: seq<UserRecord>, q: Query): (r: Option<UserId>)
    ensures r.Some? ==> r.value < |users| && Matches(q, users[r.value])
    ensures r.Some? ==> forall j :: 0 <= j < r.value ==> !Matches(q, users[j])
    ensures r.None? <==> forall j :: 0 <= j < |users| ==> !Matches(q, users[j])
    decreases |users|
  {
    if |users| == 0 then None
    else if Matches(q, users[0]) then Some(0)
    else
      match FindOne(users[1..], q)
      case None => None
      case Some(k) => Some(k + 1)
  }

  /** No two records share an email: what registration's duplicate check keeps. */
  predicate EmailsUnique(users: seq<UserRecord>)
  {
    forall i, j :: 0 <= i < |users| && 0 <= j < |users| && users[i].email == users[j].email ==> i == j
  }

  /** The ids of the records that carry this email. */
  function RecordsWithEmail(users: seq<UserRecord>, email: Email): set<UserId>
  {
    set i | 0 <= i < |users| && users[i].email == email
  }

  /** Looking up by email finds a record exactly when the email is registered. */
  lemma FindByEmailIffRegistered(users: seq<UserRecord>, email: Email)
    ensures FindOne(users, ByEmail(email)).Some? <==> Registered(users, email)
  {
  }

  /** Appending a record that matches to a collection with no match makes the
      lookup find the appended record. */
  lemma {:induction false} FindOneAfterAppend(users: seq<UserRecord>, q: Query, user: UserRecord)
    requires FindOne(users, q).None?
    ensures FindOne(users + [user], q) == if Matches(q, user) then Some(|users|) else None
  {
    var all := users + [user];
    assert forall j :: 0 <= j < |users| ==> all[j] == users[j];
    assert all[|users|] == user;
    var r := FindOne(all, q);
    if Matches(q, user) {
      assert r.Some?;
    }
  }
}
