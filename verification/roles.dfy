/** The closed set of user roles (the ROLES constant of the User model). */
module Roles {

  type RoleName = string

  const ADMIN: RoleName := "admin"
  const PLANNER: RoleName := "planner"
  const VENDOR: RoleName := "vendor"

  /** `Object.values(ROLES)`. */
  const ROLE_VALUES: seq<RoleName> := [ADMIN, PLANNER, VENDOR]

  /** Membership in `Object.values(ROLES)`. */
  predicate IsRole(r: string)
  {
    r in ROLE_VALUES
  }
}
