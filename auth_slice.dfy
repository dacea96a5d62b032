/**
 * frontend/src/redux/slices/authSlice.js: who is signed in, as the store
 * keeps it, and the reducer cases of the `login`, `signup`, `logout` and
 * `checkAuth` thunks and of `clearError`.  A payload of `None` is a `null`
 * or missing `user` in the response.
 */
module AuthSlice {
  import opened Wrappers
  import opened Requests
  import opened JsValues
  import opened UserModel
  import AuthController
  import Db

  type UserView = AuthController.UserView

  datatype AuthState = AuthState(user: Option<UserView>, isAuthenticated: bool, loading: bool, error: Option<string>)

  /** `initialState`: loading, because the app checks the session on mount. */
  const Initial: AuthState := AuthState(None, false, true, None)

  datatype AuthAction =
    | ClearError
    | LoginPending | LoginFulfilled(user: Option<UserView>) | LoginRejected(payload: Option<string>)
    | SignupPending | SignupFulfilled(user: Option<UserView>) | SignupRejected(payload: Option<string>)
    | LogoutPending | LogoutFulfilled | LogoutRejected(payload: Option<string>)
    | CheckAuthPending | CheckAuthFulfilled(user: Option<UserView>) | CheckAuthRejected(payload: Option<string>)

  /** The slice reducer; `logout.pending` and `logout.rejected` have no case. */
  function Reduce(s: AuthState, a: AuthAction): AuthState {
    match a
    case ClearError => s.(error := None)
    case LoginPending => s.(loading := true, error := None)
    case LoginFulfilled(u) => s.(loading := false, isAuthenticated := true, user := u)
    case LoginRejected(p) => s.(loading := false, error := p)
    case SignupPending => s.(loading := true, error := None)
    case SignupFulfilled(u) => s.(loading := false, isAuthenticated := true, user := u)
    case SignupRejected(p) => s.(loading := false, error := p)
    case LogoutPending => s
    case LogoutFulfilled => s.(user := None, isAuthenticated := false)
    case LogoutRejected(_) => s
    case CheckAuthPending => s.(loading := true)
    case CheckAuthFulfilled(u) => s.(loading := false, user := u, isAuthenticated := u.Some?)
    case CheckAuthRejected(_) => s.(loading := false, isAuthenticated := false, user := None)
  }

  /** Actions dispatched one after another. */
  function ReduceAll(s: AuthState, actions: seq<AuthAction>): AuthState
    decreases |actions|
  {
    if actions == [] then s else ReduceAll(Reduce(s, actions[0]), actions[1..])
  }

  /** The login cases, one by one: pending clears the error and starts
      loading; fulfilled signs the payload in; rejected records its payload and
      keeps whoever was signed in. */
  lemma LoginCases(s: AuthState, u: Option<UserView>, p: Option<string>)
    ensures Reduce(s, LoginPending) == s.(loading := true, error := None)
    ensures var s' := Reduce(s, LoginFulfilled(u));
            !s'.loading && s'.isAuthenticated && s'.user == u && s'.error == s.error
    ensures var s' := Reduce(s, LoginRejected(p));
            !s'.loading && s'.error == p && s'.user == s.user && s'.isAuthenticated == s.isAuthenticated
  {
  }

  /** Signup goes through the same three transitions as login. */
  lemma SignupLikeLogin(s: AuthState, u: Option<UserView>, p: Option<string>)
    ensures Reduce(s, SignupPending) == Reduce(s, LoginPending)
    ensures Reduce(s, SignupFulfilled(u)) == Reduce(s, LoginFulfilled(u))
    ensures Reduce(s, SignupRejected(p)) == Reduce(s, LoginRejected(p))
  {
  }

  /** Signing out, the session check, and clearError. */
  lemma SessionCases(s: AuthState, u: Option<UserView>, p: Option<string>)
    ensures var s' := Reduce(s, LogoutFulfilled);
            s'.user.None? && !s'.isAuthenticated && s'.loading == s.loading && s'.error == s.error
    ensures Reduce(s, LogoutPending) == s && Reduce(s, LogoutRejected(p)) == s
    ensures var s' := Reduce(s, CheckAuthFulfilled(u));
            !s'.loading && s'.user == u && (s'.isAuthenticated <==> u.Some?) && s'.error == s.error
    ensures var s' := Reduce(s, CheckAuthRejected(p));
            !s'.loading && s'.user.None? && !s'.isAuthenticated && s'.error == s.error
    ensures Reduce(s, ClearError) == s.(error := None)
  {
  }

  /** Signed in exactly when a user is held. */
  predicate Consistent(s: AuthState) {
    s.isAuthenticated <==> s.user.Some?
  }

  /** A login or signup that succeeds carries the user the server sent. */
  predicate WellFormedAction(a: AuthAction) {
    (a.LoginFulfilled? || a.SignupFulfilled?) ==> a.user.Some?
  }

  /** Every action keeps a held user and the signed-in flag in step, provided
      each successful login or signup carries a user, as the server's always
      does; the initial state is in step. */
  lemma {:induction false} ReduceAllConsistent(s: AuthState, actions: seq<AuthAction>)
    requires Consistent(s)
    requires forall i :: 0 <= i < |actions| ==> WellFormedAction(actions[i])
    ensures Consistent(ReduceAll(s, actions))
    decreases |actions|
  {
    if actions != [] {
      assert WellFormedAction(actions[0]);
      var rest := actions[1..];
      assert forall i :: 0 <= i < |rest| ==> rest[i] == actions[i + 1];
      ReduceAllConsistent(Reduce(s, actions[0]), rest);
    }
  }

  /** The initial state is in step. */
  lemma InitialConsistent()
    ensures Consistent(Initial) && Initial.loading && Initial.error.None?
  {
  }

  /** A login that succeeds without a user in the payload would sign in
      nobody: the flag and the held user then disagree. */
  lemma LoginWithoutUser(s: AuthState)
    ensures !Consistent(Reduce(s, LoginFulfilled(None)))
  {
  }

  const LoginFallback: string := "Login failed"

  /** What the `login` thunk dispatches for the server's reply. */
  function LoginActions(reply: Result<Option<UserView>, Failure>): seq<AuthAction> {
    [LoginPending, if reply.Ok? then LoginFulfilled(reply.value) else LoginRejected(RejectValue(reply.error, LoginFallback))]
  }

  /** The reply of the backend's login to the thunk's request. */
  function LoginReply(users: map<Db.UserId, User>, email: Option<string>, password: Option<string>,
                      compare: (string, string) -> bool): Result<Option<UserView>, Failure>
    requires Db.UniqueUserColumns(users)
  {
    match AuthController.Login(users, email, password, compare)
    case Ok(id) => Ok(Some(AuthController.ViewOf(id, users[id])))
    case Err(e) => Err(ErrorResponse(Some(AuthController.Message(e))))
  }

  /** Logging in against the backend: good credentials sign in the user with
      that email and leave no error; missing or wrong ones leave whoever was
      signed in and show the server's message. */
  lemma LoginFlow(s: AuthState, users: map<Db.UserId, User>, email: Option<string>, password: Option<string>,
                  compare: (string, string) -> bool)
    requires Db.UniqueUserColumns(users)
    ensures var s' := ReduceAll(s, LoginActions(LoginReply(users, email, password, compare)));
            var r := AuthController.Login(users, email, password, compare);
            && !s'.loading
            && (r.Ok? ==> && s'.isAuthenticated && s'.user.Some? && s'.user.value.id in users
                          && s'.user.value.email == email.value && s'.error.None?)
            && (r.Err? ==> && s'.user == s.user && s'.isAuthenticated == s.isAuthenticated
                           && (s'.error == Some("Please provide an email and password") <==>
                               !Supplied(email) || !Supplied(password))
                           && (s'.error == Some("Invalid credentials") <==> Supplied(email) && Supplied(password)))
  {
    var acts := LoginActions(LoginReply(users, email, password, compare));
    var s1 := Reduce(s, LoginPending);
    assert ReduceAll(s, acts) == ReduceAll(s1, acts[1..]);
    assert acts[1..][1..] == [];
    assert ReduceAll(s1, acts[1..]) == Reduce(s1, acts[1]);
  }

  /** The store's auth slice, updated in place by each dispatched action. */
  class AuthStore {
    var user: Option<UserView>
    var isAuthenticated: bool
    var loading: bool
    var error: Option<string>

    function Contents(): AuthState
      reads this
    {
      AuthState(user, isAuthenticated, loading, error)
    }

    constructor ()
      ensures Contents() == Initial
    {
      user, isAuthenticated, loading, error := None, false, true, None;
    }

    /** One reducer case. */
    method Dispatch(a: AuthAction)
      modifies this
      ensures Contents() == Reduce(old(Contents()), a)
    {
      match a
      case ClearError =>
        error := None;
      case LoginPending =>
        loading := true;
        error := None;
      case LoginFulfilled(u) =>
        loading := false;
        isAuthenticated := true;
        user := u;
      case LoginRejected(p) =>
        loading := false;
        error := p;
      case SignupPending =>
        loading := true;
        error := None;
      case SignupFulfilled(u) =>
        loading := false;
        isAuthenticated := true;
        user := u;
      case SignupRejected(p) =>
        loading := false;
        error := p;
      case LogoutPending =>
      case LogoutFulfilled =>
        user := None;
        isAuthenticated := false;
      case LogoutRejected(_) =>
      case CheckAuthPending =>
        loading := true;
      case CheckAuthFulfilled(u) =>
        loading := false;
        user := u;
        isAuthenticated := u.Some?;
      case CheckAuthRejected(_) =>
        loading := false;
        isAuthenticated := false;
        user := None;
    }

    /** Dispatching a sequence of actions in order. */
    method DispatchAll(actions: seq<AuthAction>)
      modifies this
      ensures Contents() == ReduceAll(old(Contents()), actions)
    {
      var i := 0;
      while i < |actions|
        invariant 0 <= i <= |actions|
        invariant ReduceAll(old(Contents()), actions) == ReduceAll(Contents(), actions[i..])
      {
        assert actions[i..][1..] == actions[i + 1..];
        Dispatch(actions[i]);
        i := i + 1;
      }
      assert actions[|actions|..] == [];
    }
  }
}
