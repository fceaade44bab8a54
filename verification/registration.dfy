/** Account registration: `RegisterSerializer` (rental_app/serializers.py)
    as the registration endpoint drives it. */
module Registration {
  import opened Base
  import opened Accounts
  import opened Db
  import opened Http

  /** A registration body. Only these fields are accepted; in particular
      there is no `email`. */
  datatype RegisterData = RegisterData(
    fullName: Option<string>,
    phoneNumber: Option<string>,
    licenseNumber: Option<string>,
    roles: Option<string>,
    agreeTerms: Option<bool>,
    password: Option<string>,
    password2: Option<string>)

  /** The column default of `UserProfile.email`, which registration never
      overrides. */
  const EMAIL_DEFAULT: string := ""

  /** A required, non-blank text field of at most `maxLength` characters. */
  predicate RequiredText(v: Option<string>, maxLength: nat)
  {
    v.Some? && 0 < |v.value| <= maxLength
  }

  /** The field errors of `is_valid`, collected before `validate` runs.
      `passwordOk` stands for the configured password validators. */
  function RegisterFieldErrors(s: Store, d: RegisterData, passwordOk: string -> bool): (errs: set<string>)
    ensures errs == {} <==>
      && RequiredText(d.fullName, 200) && RequiredText(d.phoneNumber, 200)
      && RequiredText(d.licenseNumber, 10) && !s.LicenseTaken(d.licenseNumber.value)
      && (d.roles.Some? ==> d.roles.value in ROLE_CHOICES)
      && d.password.Some? && |d.password.value| > 0 && passwordOk(d.password.value)
      && d.password2.Some? && |d.password2.value| > 0
  {
    (if RequiredText(d.fullName, 200) then {} else {"full_name"})
    + (if RequiredText(d.phoneNumber, 200) then {} else {"phone_number"})
    + (if RequiredText(d.licenseNumber, 10) && !s.LicenseTaken(d.licenseNumber.value) then {} else {"license_number"})
    + (if d.roles.None? || d.roles.value in ROLE_CHOICES then {} else {"roles"})
    + (if d.password.Some? && |d.password.value| > 0 && passwordOk(d.password.value) then {} else {"password"})
    + (if d.password2.Some? && |d.password2.value| > 0 then {} else {"password2"})
  }

  /** `RegisterSerializer.validate`: the password pair is compared before
      the terms are checked; a missing or false `agree_terms` fails. The
      result is the key of the error, if any. */
  function Validate(password: string, password2: string, agreeTerms: Option<bool>): (err: Option<string>)
    ensures password != password2 ==> err == Some("password")
    ensures password == password2 ==> (err.None? <==> agreeTerms == Some(true))
    ensures err.Some? ==> err.value in {"password", "agree_terms"}
  {
    if password != password2 then Some("password")
    else if agreeTerms != Some(true) then Some("agree_terms")
    else None
  }

  /** The row `create` builds: the given fields, the role defaulting to
      `customer`, the email left at its column default, and the password
      stored only as its hash. `password2` has no column to go to. */
  function NewUser(s: Store, d: RegisterData): User
    requires d.fullName.Some? && d.phoneNumber.Some? && d.licenseNumber.Some? && d.password.Some?
  {
    User(EMAIL_DEFAULT, d.fullName.value, d.phoneNumber.value, d.licenseNumber.value,
         if d.roles.Some? then d.roles.value else ROLE_DEFAULT,
         d.agreeTerms == Some(true), Hashed(d.password.value), s.now)
  }

  /** The registration endpoint. Field errors answer 400; then a password
      mismatch, then missing terms, answer 400 keyed by the field. A valid
      body saves the user; an `admin` role also creates the one admin
      profile. Saving fails with an integrity error (500) when the default
      email is already taken. */
  function RegisterView(s: Store, d: RegisterData, passwordOk: string -> bool): (r: Reply)
    requires s.Valid()
    ensures RegisterFieldErrors(s, d, passwordOk) != {} ==>
      r == Reply(HTTP_400_BAD_REQUEST, FieldErrors(RegisterFieldErrors(s, d, passwordOk)), s)
    ensures RegisterFieldErrors(s, d, passwordOk) == {} && d.password.value != d.password2.value ==>
      r == Reply(HTTP_400_BAD_REQUEST, FieldErrors({"password"}), s)
    ensures RegisterFieldErrors(s, d, passwordOk) == {} && d.password.value == d.password2.value
            && d.agreeTerms != Some(true) ==>
      r == Reply(HTTP_400_BAD_REQUEST, FieldErrors({"agree_terms"}), s)
    ensures r.status == HTTP_201_CREATED <==>
      RegisterFieldErrors(s, d, passwordOk) == {} && d.password.value == d.password2.value
      && d.agreeTerms == Some(true) && !s.EmailTaken(EMAIL_DEFAULT)
    ensures r.status != HTTP_201_CREATED ==> r.store == s
    ensures r.status == HTTP_201_CREATED ==>
      var uid := s.nextId;
      && r.body == UserData(uid)
      && uid !in s.users && uid in r.store.users
      && r.store.users == s.users[uid := r.store.users[uid]]
      && r.store.users[uid].password == Hashed(d.password.value)
      && r.store.users[uid].roles == (if d.roles.Some? then d.roles.value else ROLE_CUSTOMER)
      && r.store.users[uid].email == EMAIL_DEFAULT
      && r.store.users[uid].fullName == d.fullName.value
      && r.store.users[uid].phoneNumber == d.phoneNumber.value
      && r.store.users[uid].licenseNumber == d.licenseNumber.value
      && r.store.users[uid].agreeTerms
      && r.store.bookings == s.bookings && r.store.vehicles == s.vehicles
      && r.store.reports == s.reports && r.store.images == s.images
      && (r.store.users[uid].roles != ROLE_ADMIN ==> r.store.admins == s.admins)
      && (r.store.users[uid].roles == ROLE_ADMIN ==>
            r.store.admins.Keys == s.admins.Keys + {s.nextId + 1} && s.nextId + 1 !in s.admins
            && r.store.admins[s.nextId + 1].user == uid
            && (forall a :: a in s.admins ==> r.store.admins[a] == s.admins[a]))
  {
    var errs := RegisterFieldErrors(s, d, passwordOk);
    if errs != {} then
      Reply(HTTP_400_BAD_REQUEST, FieldErrors(errs), s)
    else
      match Validate(d.password.value, d.password2.value, d.agreeTerms)
      case Some(key) => Reply(HTTP_400_BAD_REQUEST, FieldErrors({key}), s)
      case None =>
        var u := NewUser(s, d);
        if s.EmailTaken(u.email) then
          Reply(HTTP_500_SERVER_ERROR, Crash("IntegrityError: UNIQUE constraint failed: email"), s)
        else
          var uid := s.nextId;
          var t := s.InsertUser(u);
          Reply(HTTP_201_CREATED, UserData(uid), if u.roles == ROLE_ADMIN then t.InsertAdmin(uid) else t)
  }

  /** The admin profiles belonging to `uid`. */
  function AdminProfilesOf(s: Store, uid: UserId): set<AdminId>
  {
    set a | a in s.admins && s.admins[a].user == uid
  }

  /** A registration with role `admin` creates exactly one admin profile
      for the new user; any other role creates none. */
  lemma RegisterAdminProfileIffAdmin(s: Store, d: RegisterData, passwordOk: string -> bool)
    requires s.Valid()
    ensures var r := RegisterView(s, d, passwordOk);
      r.status == HTTP_201_CREATED ==>
        && (r.store.users[s.nextId].roles == ROLE_ADMIN ==> |AdminProfilesOf(r.store, s.nextId)| == 1)
        && (r.store.users[s.nextId].roles != ROLE_ADMIN ==> AdminProfilesOf(r.store, s.nextId) == {})
  {
    var r := RegisterView(s, d, passwordOk);
    if r.status == HTTP_201_CREATED {
      if r.store.users[s.nextId].roles == ROLE_ADMIN {
        OneProfileOfNewAdmin(s, r.store, s.nextId, s.nextId + 1);
      } else {
        NoProfileOfNewUser(s, r.store, s.nextId);
      }
    }
  }

  /** A user id that was not stored has no admin profile while the admin
      table is unchanged. */
  lemma NoProfileOfNewUser(s: Store, t: Store, uid: UserId)
    requires s.Linked() && uid !in s.users && t.admins == s.admins
    ensures AdminProfilesOf(t, uid) == {}
  {
    assert forall a :: a in s.admins ==> s.admins[a].user in s.users;
  }

  /** Adding one profile `k` for a user id that was not stored gives that
      user exactly the profile `k`. */
  lemma OneProfileOfNewAdmin(s: Store, t: Store, uid: UserId, k: AdminId)
    requires s.Linked() && uid !in s.users
    requires t.admins.Keys == s.admins.Keys + {k} && k !in s.admins && t.admins[k].user == uid
    requires forall a :: a in s.admins ==> t.admins[a] == s.admins[a]
    ensures AdminProfilesOf(t, uid) == {k}
  {
    assert forall a :: a in s.admins ==> s.admins[a].user in s.users;
  }

  /** Registration keeps the database integrity. */
  lemma RegisterKeepsValid(s: Store, d: RegisterData, passwordOk: string -> bool)
    requires s.Valid()
    ensures RegisterView(s, d, passwordOk).store.Valid()
  {
    var r := RegisterView(s, d, passwordOk);
    if r.status == HTTP_201_CREATED {
      var u := NewUser(s, d);
      InsertUserKeepsValid(s, u);
      var t := s.InsertUser(u);
      if u.roles == ROLE_ADMIN {
        assert forall a :: a in t.admins ==> t.admins[a].user != s.nextId;
        InsertAdminKeepsValid(t, s.nextId);
      }
    }
  }

  /** Once a user holds the default email, no registration succeeds. */
  lemma DefaultEmailTakenBlocksRegistration(s: Store, d: RegisterData, passwordOk: string -> bool)
    requires s.Valid() && s.EmailTaken(EMAIL_DEFAULT)
    ensures RegisterView(s, d, passwordOk).status != HTTP_201_CREATED
  {
  }

  /** Registration never sets an email, so the first registered user takes
      the default email and every later registration fails on the unique
      email column. */
  lemma LaterRegistrationsFail(s: Store, d: RegisterData, passwordOk: string -> bool)
    requires s.Valid()
    ensures var r := RegisterView(s, d, passwordOk);
      r.status == HTTP_201_CREATED ==>
        && r.store.Valid()
        && forall d2: RegisterData :: RegisterView(r.store, d2, passwordOk).status != HTTP_201_CREATED
  {
    RegisterKeepsValid(s, d, passwordOk);
    var r := RegisterView(s, d, passwordOk);
    if r.status == HTTP_201_CREATED {
      assert r.store.EmailTaken(EMAIL_DEFAULT) by {
        assert s.nextId in r.store.users && r.store.users[s.nextId].email == EMAIL_DEFAULT;
      }
      forall d2: RegisterData {
        DefaultEmailTakenBlocksRegistration(r.store, d2, passwordOk);
      }
    }
  }
}
