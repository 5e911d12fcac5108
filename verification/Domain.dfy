/** internal/domain: the user record and the columns a reader may rely on. */
module Domain {
  import opened Options

  datatype User = User(
    id: string, username: string, email: string, password: string, fullName: string,
    avatar: Option<string>, role: Option<string>, isActive: bool, emailVerified: bool,
    createdAt: nat, updatedAt: nat)

  /** The eight columns on which the cache and the table are meant to agree. */
  datatype Public = Public(
    id: string, username: string, email: string, fullName: string,
    avatar: Option<string>, role: Option<string>, isActive: bool, emailVerified: bool)

  function Pub(u: User): Public {
    Public(u.id, u.username, u.email, u.fullName, u.avatar, u.role, u.isActive, u.emailVerified)
  }

  lemma PublicColumns(u: User, v: User)
    ensures Pub(u) == Pub(v) <==>
            u.id == v.id && u.username == v.username && u.email == v.email && u.fullName == v.fullName &&
            u.avatar == v.avatar && u.role == v.role && u.isActive == v.isActive && u.emailVerified == v.emailVerified
  {
  }
}
