/**
 * The `user` table of the backend: rows keyed by id and, uniquely, by
 * e-mail address, which the services always store and look up lower-cased.
 */
module Users {
  import opened Common
  import opened Crypto
  import opened JsText

  datatype User = User(id: string, email: string, password: Digest, isVerified: bool)

  /** The columns `select { id, email, isVerified }` exposes. */
  datatype PublicUser = PublicUser(id: string, email: string, isVerified: bool)

  function Public(u: User): PublicUser {
    PublicUser(u.id, u.email, u.isVerified)
  }

  /** `findUnique({ where: { email } })`: the position of the row with that address. */
  function FindByEmail(users: seq<User>, email: string): (r: Option<nat>)
    ensures r.Some? ==> r.value < |users| && users[r.value].email == email
    ensures r.None? ==> forall i :: 0 <= i < |users| ==> users[i].email != email
  {
    if |users| == 0 then None
    else if users[|users| - 1].email == email then Some(|users| - 1)
    else FindByEmail(users[..|users| - 1], email)
  }

  /**
   * `findUnique({ where: { id } })`: the position of the row with that id.
   * Deliberately parallel to `FindByEmail`: the two unique columns are looked up
   * by separate queries, and each lookup keeps its own contract.
   */
  function FindById(users: seq<User>, id: string): (r: Option<nat>)
    ensures r.Some? ==> r.value < |users| && users[r.value].id == id
    ensures r.None? ==> forall i :: 0 <= i < |users| ==> users[i].id != id
  {
    if |users| == 0 then None
    else if users[|users| - 1].id == id then Some(|users| - 1)
    else FindById(users[..|users| - 1], id)
  }

  /** The unique constraints of the table, and the lower-cased addresses the services store. */
  predicate UsersValid(users: seq<User>) {
    && (forall i :: 0 <= i < |users| ==> IsLowerCased(users[i].email))
    && forall i, j :: 0 <= i < j < |users| ==> users[i].id != users[j].id && users[i].email != users[j].email
  }

  /** With unique keys a lookup finds the one row that has the key. */
  lemma FindUnique(users: seq<User>, i: nat)
    requires UsersValid(users) && i < |users|
    ensures FindByEmail(users, users[i].email) == Some(i)
    ensures FindById(users, users[i].id) == Some(i)
  {
    forall j | 0 <= j < |users| && j != i
      ensures users[j].email != users[i].email && users[j].id != users[i].id
    {
      if j < i {
        assert users[j].id != users[i].id && users[j].email != users[i].email;
      }
    }
  }

  class UserTable {
    var users: seq<User>

    ghost predicate Valid()
      reads this
    {
      UsersValid(users)
    }

    constructor ()
      ensures users == [] && Valid()
    {
      users := [];
    }
  }
}
