/**
 * The role authority: the mock user table, the current user, role
 * switching and the permission test. The current role is passed to the
 * permission test explicitly instead of being read from a shared context.
 */
module UserContext {
  import opened Common

  datatype UserRole = Director | Doctor | SocialWorker | Nurse | Admin

  datatype User = User(id: string, name: string, role: UserRole, avatar: Option<string>)

  /** The argument of `hasPermission`: one role or a list of roles. */
  datatype Requirement = OneRole(role: UserRole) | AnyRole(roles: seq<UserRole>)

  /** `MOCK_USERS[role]`: the table holds one user per role, filed under that role. */
  function MockUser(role: UserRole): (u: User)
    ensures u.role == role
  {
    match role
    case Director => User("u1", "د. عبدالله (المدير)", Director, Some("https://i.pravatar.cc/150?u=director"))
    case Doctor => User("u2", "د. محمد (طبيب)", Doctor, Some("https://i.pravatar.cc/150?u=doctor"))
    case SocialWorker => User("u3", "أ. علي (أخصائي اجتماعي)", SocialWorker, Some("https://i.pravatar.cc/150?u=social"))
    case Nurse => User("u4", "سعيد (ممرض)", Nurse, Some("https://i.pravatar.cc/150?u=nurse"))
    case Admin => User("u5", "مدير النظام", Admin, Some("https://i.pravatar.cc/150?u=admin"))
  }

  /** Different roles are played by different mock users. */
  lemma MockUsersDistinct(r1: UserRole, r2: UserRole)
    ensures r1 != r2 ==> MockUser(r1).id != MockUser(r2).id
  {
  }

  /** `hasPermission(required)` for a user whose role is `current`. */
  function HasPermission(required: Requirement, current: UserRole): (ok: bool)
    ensures required.OneRole? ==> (ok <==> current == required.role)
    ensures required.AnyRole? ==> (ok <==> exists i :: 0 <= i < |required.roles| && required.roles[i] == current)
  {
    match required
    case OneRole(r) => current == r
    case AnyRole(rs) => current in rs
  }

  /** There is no role hierarchy: only the named role satisfies a one-role check. */
  lemma NoHierarchy(required: UserRole, current: UserRole)
    requires required != current
    ensures !HasPermission(OneRole(required), current)
  {
  }

  /** An empty list of roles is satisfied by nobody. */
  lemma EmptyListDenies(current: UserRole)
    ensures !HasPermission(AnyRole([]), current)
  {
  }

  /** A one-element list behaves like the single-role check. */
  lemma SingletonListIsOneRole(required: UserRole, current: UserRole)
    ensures HasPermission(AnyRole([required]), current) == HasPermission(OneRole(required), current)
  {
  }

  /** The `currentUser` state cell of the user provider. */
  class UserSession {
    var currentUser: User

    /** The session starts as the director. */
    constructor ()
      ensures currentUser == MockUser(Director)
      ensures currentUser.role == Director
    {
      currentUser := MockUser(Director);
    }

    /** `switchRole(role)`: the current user becomes the mock user of that role. */
    method SwitchRole(role: UserRole)
      modifies this
      ensures currentUser == MockUser(role)
      ensures currentUser.role == role
    {
      currentUser := MockUser(role);
    }
  }
}
