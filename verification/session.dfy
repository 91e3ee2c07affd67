/** The authentication session of `src/contexts/AuthContext.tsx` as a
    record-to-record transition system. Every backend call is an input: it
    either succeeds with a value or fails with an optional server message. The
    browser's `localStorage` is the `Storage` record of the two keys the
    context touches. */
module Session {
  import opened Wrappers

  /** The session user; `role` is kept as the raw string the backend sends. */
  datatype User = User(id: string, name: string, email: string, role: string)

  datatype AuthState = AuthState(
    user: Option<User>,
    token: Option<string>,
    isAuthenticated: bool,
    isLoading: bool,
    error: Option<string>)

  /** The `token` and `user` keys of `localStorage`. */
  datatype Storage = Storage(token: Option<string>, user: Option<User>)

  datatype World = World(state: AuthState, storage: Storage)

  /** The settled outcome of one backend call: a value, or a rejection whose
      `response.data.message` may be absent. */
  datatype Reply<T> = Ok(value: T) | Failed(message: Option<string>)

  /** What `/auth/login` and `/auth/register` hand back. */
  datatype Credentials = Credentials(user: User, token: string)

  const SESSION_EXPIRED := "Session expired. Please login again."
  const LOGIN_FAILED := "Failed to login. Please check your credentials."
  const REGISTER_FAILED := "Failed to register. Please try again."
  const PROFILE_FAILED := "Failed to update profile."
  const PASSWORD_FAILED := "Failed to update password."

  const SIGNED_OUT := AuthState(None, None, false, false, None)

  /** The message a failed call records: the server's, unless it is absent or
      empty. */
  function FailureText<T>(reply: Reply<T>, fallback: string): string
    requires reply.Failed?
  {
    OrElse(reply.message, fallback)
  }

  /** `initialState`, read when the module loads. */
  function InitialState(storage: Storage): (r: AuthState)
    ensures r.user.None? && !r.isAuthenticated && r.isLoading && r.error.None?
    ensures r.token == storage.token
  {
    AuthState(None, storage.token, false, true, None)
  }

  /** `initAuth`: with a stored token, fetch the user; on failure drop the
      stored credentials. `me` is the outcome of `getCurrentUser`. */
  function Bootstrap(storage: Storage, me: Reply<User>): (r: World)
    ensures !r.state.isLoading
    ensures r.state.isAuthenticated <==> Truthy(storage.token) && me.Ok?
    ensures r.state.isAuthenticated ==>
      r.state.user == Some(me.value) && r.state.token == storage.token
      && r.state.error.None? && r.storage == storage
    ensures Truthy(storage.token) && me.Failed? ==>
      r.storage == Storage(None, None) && r.state.user.None? && r.state.token.None?
      && r.state.error == Some(SESSION_EXPIRED)
    ensures !Truthy(storage.token) ==>
      r.state.user.None? && r.state.error.None? && r.storage == storage
  {
    if Truthy(storage.token) then
      match me
      case Ok(u) => World(AuthState(Some(u), storage.token, true, false, None), storage)
      case Failed(_) => World(AuthState(None, None, false, false, Some(SESSION_EXPIRED)), Storage(None, None))
    else
      World(InitialState(storage).(isLoading := false), storage)
  }

  /** The shared body of `login` and `register`. */
  function SignIn(w: World, reply: Reply<Credentials>, fallback: string): World {
    match reply
    case Ok(c) =>
      World(AuthState(Some(c.user), Some(c.token), true, false, None),
            Storage(Some(c.token), Some(c.user)))
    case Failed(_) =>
      World(w.state.(isLoading := false, error := Some(FailureText(reply, fallback))), w.storage)
  }

  /** `login`: success persists and installs the credentials; failure keeps
      the previous user, token and authentication flag and records a message. */
  function Login(w: World, reply: Reply<Credentials>): (r: World)
    ensures reply.Ok? ==>
      && r.state == AuthState(Some(reply.value.user), Some(reply.value.token), true, false, None)
      && r.storage == Storage(Some(reply.value.token), Some(reply.value.user))
    ensures reply.Failed? ==>
      && r.state.user == w.state.user && r.state.token == w.state.token
      && r.state.isAuthenticated == w.state.isAuthenticated
      && !r.state.isLoading && r.storage == w.storage
      && r.state.error == Some(OrElse(reply.message, LOGIN_FAILED))
  {
    SignIn(w, reply, LOGIN_FAILED)
  }

  /** `register`: the same as `login` with its own default message. */
  function Register(w: World, reply: Reply<Credentials>): (r: World)
    ensures reply.Ok? ==>
      && r.state == AuthState(Some(reply.value.user), Some(reply.value.token), true, false, None)
      && r.storage == Storage(Some(reply.value.token), Some(reply.value.user))
    ensures reply.Failed? ==>
      && r.state.user == w.state.user && r.state.token == w.state.token
      && r.state.isAuthenticated == w.state.isAuthenticated
      && !r.state.isLoading && r.storage == w.storage
      && r.state.error == Some(OrElse(reply.message, REGISTER_FAILED))
  {
    SignIn(w, reply, REGISTER_FAILED)
  }

  /** `logout`: forget everything, in memory and in storage. */
  function Logout(w: World): (r: World)
    ensures r.state.user.None? && r.state.token.None?
    ensures !r.state.isAuthenticated && !r.state.isLoading && r.state.error.None?
    ensures r.storage.token.None? && r.storage.user.None?
  {
    World(SIGNED_OUT, Storage(None, None))
  }

  /** `updateProfile`: nothing without a user; success replaces only the user
      (in memory and in storage); failure records a message. */
  function UpdateProfile(w: World, reply: Reply<User>): (r: World)
    ensures w.state.user.None? ==> r == w
    ensures w.state.user.Some? && reply.Ok? ==>
      r.state == w.state.(user := Some(reply.value), isLoading := false, error := None)
      && r.storage == w.storage.(user := Some(reply.value))
    ensures w.state.user.Some? && reply.Failed? ==>
      r.state == w.state.(isLoading := false, error := Some(OrElse(reply.message, PROFILE_FAILED)))
      && r.storage == w.storage
  {
    if w.state.user.None? then w
    else
      match reply
      case Ok(u) =>
        World(w.state.(user := Some(u), isLoading := false, error := None),
              w.storage.(user := Some(u)))
      case Failed(_) =>
        World(w.state.(isLoading := false, error := Some(FailureText(reply, PROFILE_FAILED))), w.storage)
  }

  /** `updatePassword`: nothing without a user; never touches the user or the
      storage. */
  function UpdatePassword(w: World, reply: Reply<()>): (r: World)
    ensures r.state.user == w.state.user && r.state.token == w.state.token
    ensures r.state.isAuthenticated == w.state.isAuthenticated && r.storage == w.storage
    ensures w.state.user.None? ==> r == w
    ensures w.state.user.Some? ==> !r.state.isLoading
    ensures w.state.user.Some? ==>
      r.state.error == (if reply.Ok? then None else Some(OrElse(reply.message, PASSWORD_FAILED)))
  {
    if w.state.user.None? then w
    else
      match reply
      case Ok(_) => World(w.state.(isLoading := false, error := None), w.storage)
      case Failed(_) =>
        World(w.state.(isLoading := false, error := Some(FailureText(reply, PASSWORD_FAILED))), w.storage)
  }

  /** One completed context call. */
  datatype Event =
    | LoginEvent(credentialsReply: Reply<Credentials>)
    | RegisterEvent(registerReply: Reply<Credentials>)
    | LogoutEvent
    | ProfileEvent(profileReply: Reply<User>)
    | PasswordEvent(passwordReply: Reply<()>)

  function Step(w: World, e: Event): World {
    match e
    case LoginEvent(reply) => Login(w, reply)
    case RegisterEvent(reply) => Register(w, reply)
    case LogoutEvent => Logout(w)
    case ProfileEvent(reply) => UpdateProfile(w, reply)
    case PasswordEvent(reply) => UpdatePassword(w, reply)
  }

  function Run(w: World, events: seq<Event>): World
    decreases |events|
  {
    if events == [] then w else Run(Step(w, events[0]), events[1..])
  }

  /** An authenticated session has a user and a token, and the token is the
      one in storage. */
  predicate Consistent(w: World) {
    w.state.isAuthenticated ==>
      w.state.user.Some? && w.state.token.Some? && w.storage.token == w.state.token
  }

  /** Every completed call keeps the session consistent. */
  lemma StepPreservesConsistency(w: World, e: Event)
    requires Consistent(w)
    ensures Consistent(Step(w, e))
  {
  }

  /** From application start (module load, then `initAuth`), every sequence of
      completed calls leaves the session consistent. */
  lemma {:induction false} RunFromStartConsistent(storage: Storage, me: Reply<User>, events: seq<Event>)
    ensures Consistent(Run(Bootstrap(storage, me), events))
  {
    RunPreservesConsistency(Bootstrap(storage, me), events);
  }

  lemma {:induction false} RunPreservesConsistency(w: World, events: seq<Event>)
    requires Consistent(w)
    ensures Consistent(Run(w, events))
    decreases |events|
  {
    if events != [] {
      StepPreservesConsistency(w, events[0]);
      RunPreservesConsistency(Step(w, events[0]), events[1..]);
    }
  }

  /** No call rejects: every failed backend call (profile and password calls
      are only made with a user) ends with a non-empty message in `error` and
      loading over. */
  lemma FailuresAreRecorded(w: World, e: Event)
    requires (e.LoginEvent? && e.credentialsReply.Failed?)
          || (e.RegisterEvent? && e.registerReply.Failed?)
          || (w.state.user.Some? && e.ProfileEvent? && e.profileReply.Failed?)
          || (w.state.user.Some? && e.PasswordEvent? && e.passwordReply.Failed?)
    ensures Step(w, e).state.error.Some? && Step(w, e).state.error.value != ""
    ensures !Step(w, e).state.isLoading
  {
  }
}
