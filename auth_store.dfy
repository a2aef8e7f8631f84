/** The authentication store. */
module AuthStore {
  import opened Wrappers
  import opened Users

  datatype AuthState = AuthState(user: Option<User>, isLoading: bool, isLoggedIn: bool)

  /** The logged-in flag mirrors whether a user is present. */
  predicate Valid(s: AuthState) { s.isLoggedIn <==> s.user.Some? }

  const Initial := AuthState(None, true, false)

  /** `setUser(user)`: the user and the flag change, loading does not. */
  function SetUser(s: AuthState, user: Option<User>): (r: AuthState)
    ensures r.user == user && r.isLoggedIn == user.Some?
    ensures r.isLoading == s.isLoading
  {
    s.(user := user, isLoggedIn := user.Some?)
  }

  /** `setLoading(b)`: only the loading flag changes. */
  function SetLoading(s: AuthState, b: bool): (r: AuthState)
    ensures r.isLoading == b && r.user == s.user && r.isLoggedIn == s.isLoggedIn
  {
    s.(isLoading := b)
  }

  /** `logout()` */
  function Logout(s: AuthState): (r: AuthState)
    ensures r.user == None && !r.isLoading && !r.isLoggedIn
  {
    AuthState(None, false, false)
  }

  datatype Action = DoSetUser(user: Option<User>) | DoSetLoading(loading: bool) | DoLogout

  function Step(s: AuthState, a: Action): AuthState {
    match a
    case DoSetUser(u) => SetUser(s, u)
    case DoSetLoading(b) => SetLoading(s, b)
    case DoLogout => Logout(s)
  }

  function Run(s: AuthState, acts: seq<Action>): AuthState
    decreases |acts|
  {
    if acts == [] then s else Run(Step(s, acts[0]), acts[1..])
  }

  /** `isLoggedIn <=> user != null` holds initially and after any actions. */
  lemma {:induction false} LoggedInIffUser(s: AuthState, acts: seq<Action>)
    requires Valid(s)
    ensures Valid(Run(s, acts))
    decreases |acts|
  {
    if acts != [] {
      LoggedInIffUser(Step(s, acts[0]), acts[1..]);
    }
  }

  lemma InitialValid()
    ensures Valid(Initial) && Initial.isLoading
  {
  }
}
