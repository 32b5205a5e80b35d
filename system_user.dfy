/**
 * The well-known subjects of the authentication layer. Their enumeration
 * (fastapi_user_auth/auth/schemas.py) is not part of this model; the values
 * below are the ones it is taken to hold.
 */
module SystemUser {
  /** The super-user, who sees every permission option. */
  const Root := "root"
  /** The identity used when a request carries none. */
  const Guest := "guest"
  /** Subjects of users are prefixed with `u:`, those of roles with `r:`. */
  const UserPrefix := "u:"
  const RolePrefix := "r:"
}
