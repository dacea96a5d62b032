/**
 * The User record of backend/src/models/User.js: its defaults, the
 * `beforeCreate` and `beforeUpdate` hooks, and the password check.  bcrypt is
 * an opaque function parameter (`hash`, `compare`); Math.random's referral
 * suffix is a parameter; the schema's email validator is a parameter too,
 * since it is the ORM's and not this repository's.
 */
module UserModel {
  import opened Wrappers

  datatype Role = Customer | Admin   // the ENUM values 'user' and 'admin'

  datatype User = User(
    name: string,
    email: string,
    password: string,
    phone: Option<string>,
    role: Role,
    referralCode: string,
    referredBy: Option<string>,
    credits: real)

  /** The attributes passed to `User.create`; `None` is an attribute left out. */
  datatype Draft = Draft(
    name: Option<string>,
    email: Option<string>,
    password: Option<string>,
    phone: Option<string>,
    role: Option<Role>,
    referralCode: Option<string>,
    referredBy: Option<string>,
    credits: Option<real>)

  const ReferralPrefix: string := "REF-"

  predicate HasReferralPrefix(s: string) {
    |s| >= |ReferralPrefix| && s[..|ReferralPrefix|] == ReferralPrefix
  }

  /** The generated code: the prefix and a random suffix. */
  function GeneratedReferralCode(suffix: string): (r: string)
    ensures HasReferralPrefix(r) && r[|ReferralPrefix|..] == suffix
  {
    ReferralPrefix + suffix
  }

  /** `beforeCreate`: hash a non-empty password; generate a referral code when
      none (or an empty one) is given. */
  function BeforeCreate(password: string, referralCode: Option<string>, hash: string -> string, suffix: string): (r: (string, string))
    ensures r.0 == (if password != "" then hash(password) else password)
    ensures referralCode.Some? && referralCode.value != "" ==> r.1 == referralCode.value
    ensures (referralCode.None? || referralCode.value == "") ==> r.1 == GeneratedReferralCode(suffix)
  {
    var pw := if password != "" then hash(password) else password;
    var code := if referralCode.Some? && referralCode.value != "" then referralCode.value
                else GeneratedReferralCode(suffix);
    (pw, code)
  }

  /** `User.create(draft)`: the schema's null and email checks (`None` is the
      validation error), the defaults, then `beforeCreate`. */
  function Create(d: Draft, emailValid: string -> bool, hash: string -> string, suffix: string): (r: Option<User>)
    ensures r.Some? <==> d.name.Some? && d.email.Some? && emailValid(d.email.value) && d.password.Some?
    ensures r.Some? ==>
              && r.value.name == d.name.value && r.value.email == d.email.value
              && r.value.phone == d.phone && r.value.referredBy == d.referredBy
              && r.value.role == (if d.role.Some? then d.role.value else Customer)
              && r.value.credits == (if d.credits.Some? then d.credits.value else 0.0)
              && (d.referralCode.None? ==> HasReferralPrefix(r.value.referralCode))
  {
    if d.name.None? || d.email.None? || !emailValid(d.email.value) || d.password.None? then None
    else
      var (pw, code) := BeforeCreate(d.password.value, d.referralCode, hash, suffix);
      Some(User(d.name.value, d.email.value, pw, d.phone,
                match d.role case Some(r) => r case None => Customer,
                code, d.referredBy,
                match d.credits case Some(c) => c case None => 0.0))
  }

  /** `beforeUpdate`: re-hash only when the password field changed. */
  function BeforeUpdate(stored: User, updated: User, hash: string -> string): (r: User)
    ensures updated.password == stored.password ==> r == updated
    ensures updated.password != stored.password ==> r == updated.(password := hash(updated.password))
  {
    if updated.password != stored.password then updated.(password := hash(updated.password)) else updated
  }

  /** Saving a record whose password was not touched leaves the stored hash as it
      is, so an unrelated update (such as a credit change) never re-hashes. */
  lemma UnrelatedUpdateKeepsHash(stored: User, credits: real, hash: string -> string)
    ensures BeforeUpdate(stored, stored.(credits := credits), hash).password == stored.password
  {
  }

  /** `validPassword(candidate)`: bcrypt's comparison against the stored hash. */
  predicate ValidPassword(u: User, candidate: string, compare: (string, string) -> bool) {
    compare(candidate, u.password)
  }
}
