/**
 * backend/src/controllers/authController.js: `signup`, which creates the user,
 * the user's cart and, when the request names an existing referral code, pays
 * the referral bonus to both sides; and `login`, which checks the credentials.
 * Tokens and cookies are left out; bcrypt is the opaque `hash` and `compare`.
 */
module AuthController {
  import opened Wrappers
  import opened JsValues
  import opened UserModel
  import opened Db
  import CartController

  datatype AuthError =
    | UserExists           // 400
    | MissingCredentials   // 400
    | InvalidCredentials   // 401
    | ServerError          // an exception caught by the handler (status 500)

  /** The credit each side of a referral receives. */
  const ReferralBonus: real := 50.0

  /** The body of a signup request; `None` is a field left out. */
  datatype SignupRequest = SignupRequest(
    name: Option<string>,
    email: Option<string>,
    password: Option<string>,
    phone: Option<string>,
    referralCode: Option<string>)

  /** The referrer: looked up only when the request carries a non-empty code;
      an unmatched code names nobody. */
  function Referrer(users: map<UserId, User>, code: Option<string>): (r: Option<UserId>)
    requires UniqueUserColumns(users)
    ensures r.Some? <==> Supplied(code) && exists u :: u in users && users[u].referralCode == code.value
    ensures r.Some? ==> r.value in users && users[r.value].referralCode == code.value
  {
    if Supplied(code) then UserByReferralCode(users, code.value) else None
  }

  /** The attributes signup passes to `User.create`: `referred_by` is the
      referrer's own code, or null. */
  function SignupDraft(users: map<UserId, User>, req: SignupRequest, referrer: Option<UserId>): (d: Draft)
    requires referrer.Some? ==> referrer.value in users
    ensures d.referralCode.None? && d.role.None? && d.credits.None?
    ensures d.referredBy == (if referrer.Some? then Some(users[referrer.value].referralCode) else None)
  {
    Draft(req.name, req.email, req.password, req.phone, None, None,
          if referrer.Some? then Some(users[referrer.value].referralCode) else None, None)
  }

  /** The tables after a successful signup of `u` as user `nextUserId`: the user
      row, the user's cart, and with a referrer the two credit changes and the
      completed Referral row. */
  function Registered(t: Tables, u: User, referrer: Option<UserId>): Tables
    requires referrer.Some? ==> referrer.value in t.users
  {
    var id := t.nextUserId;
    var t1 := t.(users := t.users[id := u], nextUserId := id + 1,
                 carts := t.carts[t.nextCartId := id], nextCartId := t.nextCartId + 1);
    match referrer
    case None => t1
    case Some(ref) =>
      t1.(users := t1.users[ref := t.users[ref].(credits := t.users[ref].credits + ReferralBonus)]
                           [id := u.(credits := ReferralBonus)],
          referrals := t.referrals + [Referral(ref, id, ReferralCompleted)])
  }

  /** signup on the tables `t`: the result and the new tables.  A request
      without an email is refused by the ORM's `where` check; an email already
      registered is `UserExists`; a record the schema refuses, or a generated
      referral code that is already taken, is an ORM error; nothing is written
      on any of these paths. */
  function SignupSpec(t: Tables, req: SignupRequest, emailValid: string -> bool, hash: string -> string,
                      suffix: string): (Result<UserId, AuthError>, Tables)
    requires ValidTables(t)
  {
    if req.email.None? then (Err(ServerError), t)
    else if UserByEmail(t.users, req.email.value).Some? then (Err(UserExists), t)
    else
      var referrer := Referrer(t.users, req.referralCode);
      match Create(SignupDraft(t.users, req, referrer), emailValid, hash, suffix)
      case None => (Err(ServerError), t)
      case Some(u) =>
        if UserByReferralCode(t.users, u.referralCode).Some? then (Err(ServerError), t)
        else (Ok(t.nextUserId), Registered(t, u, referrer))
  }

  /** signup, step by step in the controller's order: the email lookup, the
      referrer lookup and the checks of `User.create`, then the writes. */
  method Signup(db: Database, req: SignupRequest, emailValid: string -> bool, hash: string -> string,
                suffix: string) returns (r: Result<UserId, AuthError>)
    requires db.Valid()
    modifies db`users, db`nextUserId, db`carts, db`nextCartId, db`referrals
    ensures (r, db.Contents()) == SignupSpec(old(db.Contents()), req, emailValid, hash, suffix)
    ensures db.Valid()
  {
    ghost var t := db.Contents();
    SignupKeepsValid(t, req, emailValid, hash, suffix);
    if req.email.None? {
      return Err(ServerError);
    }
    var existing := UserByEmail(db.users, req.email.value);
    if existing.Some? {
      return Err(UserExists);
    }
    var referrer: Option<UserId> := None;
    if Supplied(req.referralCode) {
      referrer := UserByReferralCode(db.users, req.referralCode.value);
    }
    var created := Create(SignupDraft(db.users, req, referrer), emailValid, hash, suffix);
    if created.None? {
      return Err(ServerError);
    }
    if UserByReferralCode(db.users, created.value.referralCode).Some? {
      return Err(ServerError);
    }
    r := Ok(db.nextUserId);
    Register(db, created.value, referrer, hash);
  }

  /** The writes of a successful signup: `User.create`, `Cart.create`, and with a
      referrer the two `save` calls (each through `beforeUpdate`, which leaves
      the hash alone) and `Referral.create`. */
  method Register(db: Database, u: User, referrer: Option<UserId>, hash: string -> string)
    requires referrer.Some? ==> referrer.value in db.users
    modifies db`users, db`nextUserId, db`carts, db`nextCartId, db`referrals
    ensures db.Contents() == Registered(old(db.Contents()), u, referrer)
  {
    var id := db.nextUserId;
    db.users := db.users[id := u];
    db.nextUserId := id + 1;
    db.carts := db.carts[db.nextCartId := id];
    db.nextCartId := db.nextCartId + 1;
    if referrer.Some? {
      var ref := referrer.value;
      var stored := db.users[ref];
      db.users := db.users[ref := BeforeUpdate(stored, stored.(credits := stored.credits + ReferralBonus), hash)];
      var newUser := db.users[id];
      db.users := db.users[id := BeforeUpdate(newUser, newUser.(credits := ReferralBonus), hash)];
      db.referrals := db.referrals + [Referral(ref, id, ReferralCompleted)];
    }
  }

  /** Inserting a user whose email and referral code are new keeps the unique
      columns and the credit floor. */
  lemma InsertUserValid(users: map<UserId, User>, id: UserId, u: User)
    requires UniqueUserColumns(users) && CreditsNonNegative(users)
    requires id !in users && u.credits >= 0.0
    requires forall v :: v in users ==> users[v].email != u.email && users[v].referralCode != u.referralCode
    ensures UniqueUserColumns(users[id := u]) && CreditsNonNegative(users[id := u])
  {
  }

  /** Raising one user's credits keeps the unique columns and the credit floor. */
  lemma CreditUserValid(users: map<UserId, User>, id: UserId, credits: real)
    requires UniqueUserColumns(users) && CreditsNonNegative(users)
    requires id in users && credits >= 0.0
    ensures UniqueUserColumns(users[id := users[id].(credits := credits)])
    ensures CreditsNonNegative(users[id := users[id].(credits := credits)])
  {
  }

  /** The users table after a registration: one new key, unique columns and the
      credit floor kept. */
  lemma {:induction false} RegisteredUsersValid(t: Tables, u: User, referrer: Option<UserId>)
    requires UniqueUserColumns(t.users) && CreditsNonNegative(t.users)
    requires (forall v :: v in t.users ==> v < t.nextUserId) && u.credits == 0.0
    requires referrer.Some? ==> referrer.value in t.users
    requires forall v :: v in t.users ==> t.users[v].email != u.email && t.users[v].referralCode != u.referralCode
    ensures var users := Registered(t, u, referrer).users;
            && users.Keys == t.users.Keys + {t.nextUserId}
            && UniqueUserColumns(users) && CreditsNonNegative(users)
  {
    var id := t.nextUserId;
    InsertUserValid(t.users, id, u);
    var us := t.users[id := u];
    if referrer.Some? {
      var ref := referrer.value;
      CreditUserValid(us, ref, t.users[ref].credits + ReferralBonus);
      var us2 := us[ref := t.users[ref].(credits := t.users[ref].credits + ReferralBonus)];
      CreditUserValid(us2, id, ReferralBonus);
      assert Registered(t, u, referrer).users == us2[id := us2[id].(credits := ReferralBonus)];
    }
  }

  /** A cart for a user who has none keeps the cart constraints, and the rows
      stay valid under the larger cart table. */
  lemma {:induction false} CartAddedValid(t: Tables, users: map<UserId, User>, id: UserId)
    requires (forall c :: c in t.carts ==> c < t.nextCartId && t.carts[c] in t.users)
    requires OneCartPerUser(t.carts) && ValidLines(t.cartItems, t.carts, t.nextItemId)
    requires id !in t.users && t.users.Keys <= users.Keys && id in users
    ensures var carts := t.carts[t.nextCartId := id];
            && (forall c :: c in carts ==> c < t.nextCartId + 1 && carts[c] in users)
            && OneCartPerUser(carts) && ValidLines(t.cartItems, carts, t.nextItemId)
  {
  }

  /** A completed referral of a user who had none keeps the referral constraints. */
  lemma {:induction false} ReferralAddedValid(refs: seq<Referral>, users: map<UserId, User>,
                                              users': map<UserId, User>, ref: UserId, id: UserId)
    requires ValidReferrals(refs, users) && id !in users && users.Keys <= users'.Keys
    requires ref in users' && id in users'
    ensures ValidReferrals(refs + [Referral(ref, id, ReferralCompleted)], users')
  {
    var refs' := refs + [Referral(ref, id, ReferralCompleted)];
    forall i | 0 <= i < |refs'| ensures refs'[i].referrerId in users' && refs'[i].referredUserId in users' {
      if i < |refs| {
        assert refs'[i] == refs[i];
      }
    }
    forall i, j | 0 <= i < j < |refs'| ensures refs'[i].referredUserId != refs'[j].referredUserId {
      assert refs'[i] == refs[i];
      if j < |refs| {
        assert refs'[j] == refs[j];
      }
    }
  }

  /** Registering a user whose email and referral code are new keeps every
      table constraint: the new cart belongs to a user who had none, and the
      new referral is the new user's only inbound one. */
  lemma {:induction false} RegisteredValid(t: Tables, u: User, referrer: Option<UserId>)
    requires ValidTables(t) && u.credits == 0.0
    requires referrer.Some? ==> referrer.value in t.users
    requires forall v :: v in t.users ==> t.users[v].email != u.email && t.users[v].referralCode != u.referralCode
    ensures ValidTables(Registered(t, u, referrer))
  {
    var t' := Registered(t, u, referrer);
    assert t.nextUserId !in t.users;
    RegisteredUsersValid(t, u, referrer);
    CartAddedValid(t, t'.users, t.nextUserId);
    if referrer.Some? {
      ReferralAddedValid(t.referrals, t.users, t'.users, referrer.value, t.nextUserId);
    }
  }

  /** signup keeps every table constraint, on every path. */
  lemma {:induction false} SignupKeepsValid(t: Tables, req: SignupRequest, emailValid: string -> bool,
                                            hash: string -> string, suffix: string)
    requires ValidTables(t)
    ensures ValidTables(SignupSpec(t, req, emailValid, hash, suffix).1)
  {
    if req.email.Some? && UserByEmail(t.users, req.email.value).None? {
      var referrer := Referrer(t.users, req.referralCode);
      var created := Create(SignupDraft(t.users, req, referrer), emailValid, hash, suffix);
      if created.Some? && UserByReferralCode(t.users, created.value.referralCode).None? {
        RegisteredValid(t, created.value, referrer);
      }
    }
  }

  /** When signup succeeds, and when it fails: a failure writes nothing, an
      existing email is always `UserExists`, and success needs a new email, a
      record the schema accepts and a free referral code. */
  lemma {:induction false} SignupOutcome(t: Tables, req: SignupRequest, emailValid: string -> bool,
                                         hash: string -> string, suffix: string)
    requires ValidTables(t)
    ensures var (r, t') := SignupSpec(t, req, emailValid, hash, suffix);
            && (r.Err? ==> t' == t)
            && (req.email.None? ==> r == Err(ServerError))
            && (req.email.Some? && (exists v :: v in t.users && t.users[v].email == req.email.value) ==>
                  r == Err(UserExists))
            && (r.Ok? ==> && req.email.Some? && emailValid(req.email.value)
                          && req.name.Some? && req.password.Some?
                          && r.value == t.nextUserId && r.value !in t.users
                          && (forall v :: v in t.users ==> t.users[v].email != req.email.value))
  {
  }

  /** The stored record of a new user: the request's name, email and phone, the
      hashed password (an empty one is kept as it is), the default role, a
      generated `REF-` code no one else has, and no other user changed except a
      matched referrer. */
  lemma {:induction false} SignupStoresUser(t: Tables, req: SignupRequest, emailValid: string -> bool,
                                            hash: string -> string, suffix: string)
    requires ValidTables(t)
    requires SignupSpec(t, req, emailValid, hash, suffix).0.Ok?
    ensures var (r, t') := SignupSpec(t, req, emailValid, hash, suffix);
            var u := t'.users[r.value];
            var ref := Referrer(t.users, req.referralCode);
            && r.value in t'.users && t'.users.Keys == t.users.Keys + {r.value}
            && t'.nextUserId == t.nextUserId + 1
            && u.name == req.name.value && u.email == req.email.value && u.phone == req.phone
            && u.password == (if req.password.value != "" then hash(req.password.value) else "")
            && u.role == Customer
            && u.referralCode == GeneratedReferralCode(suffix)
            && (forall v :: v in t.users ==> t.users[v].referralCode != u.referralCode)
            && (forall v :: v in t.users && Some(v) != ref ==> t'.users[v] == t.users[v])
  {
  }

  /** The referral rule.  With a matched code the referrer gains 50, the new
      user holds exactly 50, `referred_by` is the code, and one completed
      Referral row is appended.  With no code, an empty one or an unmatched one,
      no credit changes, `referred_by` is null and no Referral row is written. */
  lemma {:induction false} SignupCreditsReferral(t: Tables, req: SignupRequest, emailValid: string -> bool,
                                                 hash: string -> string, suffix: string)
    requires ValidTables(t)
    requires SignupSpec(t, req, emailValid, hash, suffix).0.Ok?
    ensures var (r, t') := SignupSpec(t, req, emailValid, hash, suffix);
            var id := r.value;
            match Referrer(t.users, req.referralCode)
            case Some(ref) =>
              && Supplied(req.referralCode) && ref in t.users && ref != id
              && t.users[ref].referralCode == req.referralCode.value
              && t'.users[ref] == t.users[ref].(credits := t.users[ref].credits + ReferralBonus)
              && t'.users[id].credits == ReferralBonus
              && t'.users[id].referredBy == req.referralCode
              && t'.referrals == t.referrals + [Referral(ref, id, ReferralCompleted)]
            case None =>
              && (!Supplied(req.referralCode) ||
                  forall v :: v in t.users ==> t.users[v].referralCode != req.referralCode.value)
              && (forall v :: v in t.users ==> t'.users[v] == t.users[v])
              && t'.users[id].credits == 0.0
              && t'.users[id].referredBy.None?
              && t'.referrals == t.referrals
  {
  }

  /** Every successful signup gives the new user a cart, and that cart is empty. */
  lemma {:induction false} SignupCreatesCart(t: Tables, req: SignupRequest, emailValid: string -> bool,
                                             hash: string -> string, suffix: string)
    requires ValidTables(t)
    requires SignupSpec(t, req, emailValid, hash, suffix).0.Ok?
    ensures var (r, t') := SignupSpec(t, req, emailValid, hash, suffix);
            && OneCartPerUser(t'.carts)
            && CartOf(t'.carts, r.value) == Some(t.nextCartId)
            && t'.cartItems == t.cartItems
            && CartLines(t'.carts, t'.cartItems, r.value) == []
  {
    SignupKeepsValid(t, req, emailValid, hash, suffix);
    var (r, t') := SignupSpec(t, req, emailValid, hash, suffix);
    assert t'.carts[t.nextCartId] == r.value;
    CartController.FreshCartIsEmpty(t);
  }

  /** login: a missing or empty email or password is `MissingCredentials`; an
      unknown email or a password bcrypt does not match is
      `InvalidCredentials`; otherwise the user with that email. */
  function Login(users: map<UserId, User>, email: Option<string>, password: Option<string>,
                 compare: (string, string) -> bool): (r: Result<UserId, AuthError>)
    requires UniqueUserColumns(users)
    ensures r == Err(MissingCredentials) <==> !Supplied(email) || !Supplied(password)
    ensures r.Ok? <==>
              && Supplied(email) && Supplied(password)
              && exists u :: u in users && users[u].email == email.value && compare(password.value, users[u].password)
    ensures r.Ok? ==> r.value in users && users[r.value].email == email.value
    ensures r.Err? ==> r.error in {MissingCredentials, InvalidCredentials}
  {
    if !Supplied(email) || !Supplied(password) then Err(MissingCredentials)
    else match UserByEmail(users, email.value)
      case None => Err(InvalidCredentials)
      case Some(u) =>
        if !ValidPassword(users[u], password.value, compare) then Err(InvalidCredentials) else Ok(u)
  }

  /** A user who signed up with a non-empty password logs in with it, as long as
      bcrypt accepts a password against its own hash; a candidate bcrypt refuses
      against that hash is turned away. */
  lemma {:induction false} SignupThenLogin(t: Tables, req: SignupRequest, emailValid: string -> bool,
                                           hash: string -> string, suffix: string,
                                           compare: (string, string) -> bool, other: string)
    requires ValidTables(t) && !emailValid("")
    requires SignupSpec(t, req, emailValid, hash, suffix).0.Ok?
    requires Supplied(req.password) && compare(req.password.value, hash(req.password.value))
    ensures var (r, t') := SignupSpec(t, req, emailValid, hash, suffix);
            && UniqueUserColumns(t'.users)
            && Login(t'.users, req.email, req.password, compare) == Ok(r.value)
            && (other != "" && !compare(other, hash(req.password.value)) ==>
                  Login(t'.users, req.email, Some(other), compare) == Err(InvalidCredentials))
  {
    SignupKeepsValid(t, req, emailValid, hash, suffix);
    SignupStoresUser(t, req, emailValid, hash, suffix);
    var (r, t') := SignupSpec(t, req, emailValid, hash, suffix);
    assert req.email.value != "";
    var found := UserByEmail(t'.users, req.email.value);
    assert t'.users[r.value].email == req.email.value;
    assert found == Some(r.value);
  }

  /** The `message` of each error response. */
  function Message(e: AuthError): (m: string)
    ensures m != ""
    ensures e == MissingCredentials <==> m == "Please provide an email and password"
    ensures e == InvalidCredentials <==> m == "Invalid credentials"
  {
    match e
    case UserExists => "User already exists"
    case MissingCredentials => "Please provide an email and password"
    case InvalidCredentials => "Invalid credentials"
    case ServerError => "Server Error"
  }

  /** No two errors share a message. */
  lemma MessagesDistinct(e1: AuthError, e2: AuthError)
    ensures Message(e1) == Message(e2) <==> e1 == e2
  {
    if e1 != e2 {
      assert Message(e1)[0] != Message(e2)[0];
    }
  }

  /** The `user` object a successful signup or login sends back. */
  datatype UserView = UserView(id: UserId, name: string, email: string, role: Role, referralCode: string,
                               credits: real)

  function ViewOf(id: UserId, u: User): UserView {
    UserView(id, u.name, u.email, u.role, u.referralCode, u.credits)
  }
}
