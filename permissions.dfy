/**
 * The role-based permission table: every permission string of the system, the list each role
 * holds, and the membership checks the middleware builds on.
 */
module Permissions {

  datatype Role = ADMIN | AGENT | USER

  // User management
  const CREATE_USER := "create:user"
  const READ_USER := "read:user"
  const UPDATE_USER := "update:user"
  const DELETE_USER := "delete:user"
  const LIST_USERS := "list:users"
  // Property management
  const CREATE_PROPERTY := "create:property"
  const READ_PROPERTY := "read:property"
  const UPDATE_PROPERTY := "update:property"
  const DELETE_PROPERTY := "delete:property"
  const LIST_PROPERTIES := "list:properties"
  // File management
  const UPLOAD_FILE := "upload:file"
  const READ_FILE := "read:file"
  const DELETE_FILE := "delete:file"
  const SHARE_FILE := "share:file"
  // Analytics
  const VIEW_ANALYTICS := "view:analytics"
  const EXPORT_ANALYTICS := "export:analytics"
  // Settings
  const MANAGE_SETTINGS := "manage:settings"

  /** `Object.values(Permissions)`, in declaration order. */
  const AllPermissions: seq<string> := [
    CREATE_USER, READ_USER, UPDATE_USER, DELETE_USER, LIST_USERS,
    CREATE_PROPERTY, READ_PROPERTY, UPDATE_PROPERTY, DELETE_PROPERTY, LIST_PROPERTIES,
    UPLOAD_FILE, READ_FILE, DELETE_FILE, SHARE_FILE,
    VIEW_ANALYTICS, EXPORT_ANALYTICS,
    MANAGE_SETTINGS
  ]

  const UserManagement: set<string> := {CREATE_USER, READ_USER, UPDATE_USER, DELETE_USER, LIST_USERS}

  /**
   * `RolePermissions[role]`: each role's list draws only on the declared permissions, names none
   * twice, and ADMIN's holds them all.
   */
  function RolePermissions(role: Role): (r: seq<string>)
    ensures forall p :: p in r ==> p in AllPermissions
    ensures forall a, b :: 0 <= a < b < |r| ==> r[a] != r[b]
    ensures role == ADMIN ==> forall p :: p in AllPermissions ==> p in r
  {
    match role
    case ADMIN => AllPermissions
    case AGENT => [
      READ_USER, CREATE_PROPERTY, READ_PROPERTY, UPDATE_PROPERTY, LIST_PROPERTIES,
      UPLOAD_FILE, READ_FILE, SHARE_FILE, VIEW_ANALYTICS, EXPORT_ANALYTICS
    ]
    case USER => [READ_PROPERTY, LIST_PROPERTIES, READ_FILE]
  }

  /** `hasPermission`: `includes` on the role's list. */
  function HasPermission(role: Role, permission: string): (b: bool)
    ensures b ==> permission in AllPermissions
    ensures role == ADMIN ==> (b <==> permission in AllPermissions)
  {
    permission in RolePermissions(role)
  }

  /** `hasAllPermissions`: `every` over the requested list, left to right. */
  function HasAllPermissions(role: Role, permissions: seq<string>): (r: bool)
    ensures r <==> forall k :: 0 <= k < |permissions| ==> HasPermission(role, permissions[k])
  {
    if permissions == [] then true
    else HasPermission(role, permissions[0]) && HasAllPermissions(role, permissions[1..])
  }

  /** `hasAnyPermission`: `some` over the requested list, left to right. */
  function HasAnyPermission(role: Role, permissions: seq<string>): (r: bool)
    ensures r <==> exists k :: 0 <= k < |permissions| && HasPermission(role, permissions[k])
  {
    if permissions == [] then false
    else HasPermission(role, permissions[0]) || HasAnyPermission(role, permissions[1..])
  }

  /** The seventeen permission strings are pairwise distinct. */
  lemma PermissionsAreDistinct()
    ensures |AllPermissions| == 17
    ensures forall a, b :: 0 <= a < b < |AllPermissions| ==> AllPermissions[a] != AllPermissions[b]
  {
  }

  /** ADMIN holds every permission of the system. */
  lemma AdminHoldsEverything(p: string)
    requires p in AllPermissions
    ensures HasPermission(ADMIN, p)
  {
  }

  /** Each role's list is drawn from the declared permissions, so nothing else is ever granted. */
  lemma OnlyDeclaredPermissionsGranted(role: Role, p: string)
    ensures HasPermission(role, p) ==> p in AllPermissions
  {
  }

  /** USER's permissions are a subset of AGENT's, which are a subset of ADMIN's. */
  lemma RolesAreNested(p: string)
    ensures HasPermission(USER, p) ==> HasPermission(AGENT, p)
    ensures HasPermission(AGENT, p) ==> HasPermission(ADMIN, p)
  {
  }

  /** AGENT cannot delete files and, of user management, may only read users. */
  lemma AgentRestrictions()
    ensures !HasPermission(AGENT, DELETE_FILE)
    ensures forall p :: p in UserManagement && p != READ_USER ==> !HasPermission(AGENT, p)
    ensures HasPermission(AGENT, READ_USER)
  {
  }

  /** USER can neither upload, share nor delete files. */
  lemma UserRestrictions()
    ensures !HasPermission(USER, UPLOAD_FILE) && !HasPermission(USER, SHARE_FILE) && !HasPermission(USER, DELETE_FILE)
  {
  }

  /** The empty request: `every` is vacuously true and `some` is false. */
  lemma EmptyRequest(role: Role)
    ensures HasAllPermissions(role, [])
    ensures !HasAnyPermission(role, [])
  {
  }

  /** For a non-empty request, holding all of it implies holding some of it. */
  lemma {:induction false} AllImpliesAny(role: Role, permissions: seq<string>)
    requires permissions != []
    requires HasAllPermissions(role, permissions)
    ensures HasAnyPermission(role, permissions)
  {
    assert HasPermission(role, permissions[0]);
  }

  /** Both checks depend only on the set of requested permissions, not on order or repetition. */
  lemma {:induction false} OnlyTheSetMatters(role: Role, ps: seq<string>, qs: seq<string>)
    requires forall p :: p in ps <==> p in qs
    ensures HasAllPermissions(role, ps) == HasAllPermissions(role, qs)
    ensures HasAnyPermission(role, ps) == HasAnyPermission(role, qs)
  {
    if HasAllPermissions(role, ps) {
      forall k | 0 <= k < |qs| ensures HasPermission(role, qs[k]) {
        assert qs[k] in ps;
        var m :| 0 <= m < |ps| && ps[m] == qs[k];
      }
    }
    if HasAllPermissions(role, qs) {
      forall k | 0 <= k < |ps| ensures HasPermission(role, ps[k]) {
        assert ps[k] in qs;
        var m :| 0 <= m < |qs| && qs[m] == ps[k];
      }
    }
    if HasAnyPermission(role, ps) {
      var k :| 0 <= k < |ps| && HasPermission(role, ps[k]);
      assert ps[k] in qs;
      var m :| 0 <= m < |qs| && qs[m] == ps[k];
    }
    if HasAnyPermission(role, qs) {
      var k :| 0 <= k < |qs| && HasPermission(role, qs[k]);
      assert qs[k] in ps;
      var m :| 0 <= m < |ps| && ps[m] == qs[k];
    }
  }
}
