/** The `UserModel` entity: a user record, its bean-validation constraints and the
    uniqueness of e-mail addresses across the user table. */
module UserModel {
  import opened Wrappers

  /** A user row. `id` is a primitive `long` that the store assigns (0 until saved);
      every other column is a nullable Java `String`. The `products` back-reference is
      not part of the value: it is the inverse of `Product.user`. */
  datatype User = User(
    id: int,
    firstName: Option<string>,
    lastName: Option<string>,
    email: Option<string>,
    password: Option<string>)

  /** `@NotBlank`: not null, and something is left after Java's `trim`, which strips
      every character up to and including the space (U+0020). */
  predicate NotBlank(s: Option<string>)
  {
    s.Some? && exists i :: 0 <= i < |s.value| && s.value[i] > ' '
  }

  /** `@Size(min = 8)`: null passes; otherwise at least eight characters. */
  predicate SizeAtLeast(s: Option<string>, min: nat)
  {
    s.None? || |s.value| >= min
  }

  /** `@Email`: null and the empty string pass; otherwise the text splits at its last '@'
      into a non-empty local part and a non-empty domain. */
  predicate WellFormedEmail(s: Option<string>)
  {
    s.None? || |s.value| == 0 ||
    exists i :: 0 < i < |s.value| - 1 && s.value[i] == '@' && '@' !in s.value[i + 1..]
  }

  /** All the constraints the registration body is validated against. */
  predicate UserValid(u: User)
  {
    && NotBlank(u.firstName)
    && NotBlank(u.lastName)
    && NotBlank(u.email) && WellFormedEmail(u.email)
    && NotBlank(u.password) && SizeAtLeast(u.password, 8)
  }

  /** The names of the fields that carry at least one violation: the key set of the
      per-field message map a failed validation reports. */
  function UserFieldErrors(u: User): (fields: set<string>)
    ensures fields == {} <==> UserValid(u)
    ensures fields <= {"firstName", "lastName", "email", "password"}
    ensures "firstName" in fields <==> !NotBlank(u.firstName)
    ensures "lastName" in fields <==> !NotBlank(u.lastName)
    ensures "email" in fields <==> !NotBlank(u.email) || !WellFormedEmail(u.email)
    ensures "password" in fields <==> !NotBlank(u.password) || !SizeAtLeast(u.password, 8)
  {
    (if NotBlank(u.firstName) then {} else {"firstName"})
    + (if NotBlank(u.lastName) then {} else {"lastName"})
    + (if NotBlank(u.email) && WellFormedEmail(u.email) then {} else {"email"})
    + (if NotBlank(u.password) && SizeAtLeast(u.password, 8) then {} else {"password"})
  }

  /** The columns declared `nullable = false` hold a value. */
  predicate Persistable(u: User)
  {
    u.firstName.Some? && u.lastName.Some? && u.email.Some? && u.password.Some?
  }

  /** The `unique = true` constraint on the e-mail column. */
  predicate EmailsUnique(users: map<int, User>)
  {
    forall j, k | j in users && k in users && j != k :: users[j].email != users[k].email
  }

  /** Some stored user already has this e-mail (`findByEmail(...).isPresent()`). */
  predicate EmailTaken(users: map<int, User>, email: Option<string>)
  {
    exists k | k in users :: users[k].email == email
  }

  /** Some stored user other than the row under key `k` has this e-mail: what the unique
      constraint refuses when a user is written under `k`. */
  predicate EmailTakenByOther(users: map<int, User>, k: int, email: Option<string>)
  {
    exists j | j in users && j != k :: users[j].email == email
  }

  /** A validated body satisfies every not-null column of the table. */
  lemma ValidUserIsPersistable(u: User)
    requires UserValid(u)
    ensures Persistable(u)
  {
  }

  /** Writing a user under key `k`, new or stored, keeps e-mails unique when no other row
      holds its e-mail; under a new key that is exactly "the e-mail is not taken". */
  lemma WriteKeepsEmailsUnique(users: map<int, User>, k: int, u: User)
    requires EmailsUnique(users)
    requires !EmailTakenByOther(users, k, u.email)
    ensures EmailsUnique(users[k := u])
    ensures k !in users ==> (EmailTakenByOther(users, k, u.email) <==> EmailTaken(users, u.email))
  {
  }
}
