/** User accounts: `UserProfile` with its `roles` field and the one-to-one
    `Admin` profile (rental_app/models.py). */
module Accounts {
  import opened Base

  type UserId = nat
  type AdminId = nat

  const ROLE_ADMIN: string := "admin"
  const ROLE_CUSTOMER: string := "customer"
  /** The choice keys of `UserProfile.roles`. */
  const ROLE_CHOICES: set<string> := {ROLE_ADMIN, ROLE_CUSTOMER}
  /** The column default of `UserProfile.roles`. */
  const ROLE_DEFAULT: string := ROLE_CUSTOMER

  /** What `set_password` stores: a one-way hash of the raw password, never
      the raw text itself. The hash function is outside the model. */
  datatype PasswordHash = Hashed(of: string)

  /** A `UserProfile` row. The role lives in the field named `roles`. */
  datatype User = User(
    email: string,
    fullName: string,
    phoneNumber: string,
    licenseNumber: string,
    roles: string,
    agreeTerms: bool,
    password: PasswordHash,
    createdAt: nat)

  /** An `Admin` row: a one-to-one link to a user. */
  datatype AdminProfile = AdminProfile(user: UserId, createdAt: nat)

  /** The principal behind a request: Django's `AnonymousUser`, or the user
      the bearer token resolved to. */
  datatype Caller = Anonymous | Authenticated(id: UserId)

  /** `getattr(user, name, None)` for the string-valued columns this model
      keeps (`AbstractUser`'s `username`, `first_name` and `last_name` are
      not among them). A name the class does not define at all, such as
      `role`, yields `None`. */
  function Attr(u: User, name: string): (r: Option<string>)
    ensures name == "roles" ==> r == Some(u.roles)
    ensures name == "role" ==> r == None
  {
    if name == "email" then Some(u.email)
    else if name == "full_name" then Some(u.fullName)
    else if name == "phone_number" then Some(u.phoneNumber)
    else if name == "license_number" then Some(u.licenseNumber)
    else if name == "roles" then Some(u.roles)
    else None
  }
}
