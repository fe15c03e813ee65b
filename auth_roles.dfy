/** The dashboard's role checks (`Auth.hasRole`, `Auth.hasPermission`). */
module AuthRoles {
  import opened Common

  /** The logged-in user, reduced to what the checks read. */
  datatype User = User(role: string)

  /** The roles the permission table lists. */
  const TableRoles: set<string> := {"admin", "manager", "staff", "customer"}

  /**
   * The names every plain JavaScript object inherits from
   * `Object.prototype`. Looking one of them up in the permission table yields
   * a function (or, for `__proto__`, the prototype object itself): a truthy
   * value without an `includes` method.
   */
  const PrototypeNames: set<string> := {
    "constructor", "hasOwnProperty", "isPrototypeOf", "propertyIsEnumerable",
    "toLocaleString", "toString", "valueOf", "__proto__",
    "__defineGetter__", "__defineSetter__", "__lookupGetter__", "__lookupSetter__"}

  /** `permissions[role] || []` for a role that is not inherited: the permission table. */
  function PermissionsOf(role: string): seq<string> {
    if role == "admin" then ["all"]
    else if role == "manager" then ["view", "create", "update", "delete_own"]
    else if role == "staff" then ["view", "create"]
    else if role == "customer" then ["view_own"]
    else []
  }

  /** `Auth.hasRole(role)`. */
  function HasRole(current: Option<User>, role: string): (ok: bool)
    ensures ok ==> current.Some?
  {
    current.Some? && current.value.role == role
  }

  /**
   * `Auth.hasPermission(permission)`: `None` when the call throws a
   * `TypeError`, which it does for a role named like an inherited member,
   * since `includes` is then called on a value that lacks it.
   */
  function HasPermission(current: Option<User>, permission: string): (r: Option<bool>)
    ensures current.None? ==> r == Some(false)
    ensures r.None? <==> current.Some? && current.value.role in PrototypeNames
  {
    if current.None? then Some(false)
    else if current.value.role in PrototypeNames then None
    else
      var granted := PermissionsOf(current.value.role);
      Some("all" in granted || permission in granted)
  }

  /** An administrator holds every permission. */
  lemma AdminHasAll(permission: string)
    ensures HasPermission(Some(User("admin")), permission) == Some(true)
  {
  }

  /** Managers, staff and customers hold exactly the permissions listed for them. */
  lemma RolePermissions(permission: string)
    ensures HasPermission(Some(User("manager")), permission) == Some(true) <==> permission in {"view", "create", "update", "delete_own"}
    ensures HasPermission(Some(User("staff")), permission) == Some(true) <==> permission in {"view", "create"}
    ensures HasPermission(Some(User("customer")), permission) == Some(true) <==> permission == "view_own"
  {
  }

  /**
   * A role outside the table holds no permission at all, except that a role
   * named like a member of `Object.prototype` makes the check throw.
   */
  lemma UnknownRoleHasNone(role: string, permission: string)
    requires role !in TableRoles
    ensures role !in PrototypeNames ==> HasPermission(Some(User(role)), permission) == Some(false)
    ensures role in PrototypeNames ==> HasPermission(Some(User(role)), permission).None?
  {
  }

  /** `hasRole(r)` holds exactly when there is a user and that user's role is r. */
  lemma HasRoleIff(current: Option<User>, role: string)
    ensures HasRole(current, role) <==> current == Some(User(role))
  {
  }
}
