/** The `IsAdminRole` permission class (booking/permissions.py). */
module Permissions {
  import opened Base
  import opened Accounts
  import opened Db

  /** The permission decision for a request user: `request.user` must be
      present and authenticated, and the attribute `role` must equal
      `admin`, compared as exact strings. `roleAttr` is what
      `getattr(user, "role", None)` produced. */
  predicate HasPermission(authenticated: bool, roleAttr: Option<string>)
  {
    authenticated && roleAttr == Some(ROLE_ADMIN)
  }

  /** `IsAdminRole.has_permission` for a caller of this store. */
  predicate IsAdminRole(s: Store, caller: Caller)
    requires s.Knows(caller)
  {
    HasPermission(caller.Authenticated?,
                  if caller.Authenticated? then Attr(s.users[caller.id], "role") else None)
  }

  /** The decision is an exact, case-sensitive match: an attribute that is
      missing, or that spells `admin` any other way, is refused, and
      anonymous callers are refused whatever they carry. */
  lemma HasPermissionExactMatch(authenticated: bool, roleAttr: Option<string>)
    ensures HasPermission(authenticated, roleAttr) <==> authenticated && roleAttr.Some? && roleAttr.value == "admin"
    ensures HasPermission(authenticated, Some("Admin")) == false
    ensures HasPermission(false, roleAttr) == false
    ensures HasPermission(authenticated, None) == false
  {
  }

  /** The class looks up `role`, but the user model only has `roles`: the
      lookup always falls back to `None`, so no caller of any store is ever
      granted the permission, administrators included. */
  lemma IsAdminRoleNeverGrants(s: Store, caller: Caller)
    requires s.Knows(caller)
    ensures !IsAdminRole(s, caller)
    ensures caller.Authenticated? && s.users[caller.id].roles == ROLE_ADMIN ==> !IsAdminRole(s, caller)
  {
  }
}
