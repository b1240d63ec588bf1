/**
 * The client's session state and the reducer the auth provider dispatches
 * to. The token is the string the server issued; the stored token the
 * provider starts from is a parameter of the initial state.
 */
module AuthReducer {
  import opened Wrappers
  import opened AuthRules

  type Token = string

  datatype AuthState = AuthState(user: Option<PublicUser>, token: Option<Token>, isLoading: bool,
                                 isAuthenticated: bool)

  /** Before the stored token has been checked: loading and not signed in. */
  function InitialState(stored: Option<Token>): AuthState
  {
    AuthState(None, stored, true, false)
  }

  datatype Action =
    | LoginStart
    | LoginSuccess(sessionUser: PublicUser, sessionToken: Token)
    | LoginFail
    | Logout
    | LoadUserSuccess(loaded: PublicUser)
    | LoadUserFail
    | UpdateUser(updated: PublicUser)
    | Unknown

  /** The state every way of ending a session leads to. */
  const SignedOut := AuthState(None, None, false, false)

  /** A signed-in state has a user. */
  predicate Coherent(s: AuthState)
  {
    s.isAuthenticated ==> s.user.Some?
  }

  function Reduce(s: AuthState, a: Action): (next: AuthState)
    ensures Coherent(s) ==> Coherent(next)
    ensures next.isAuthenticated <==> a.LoginSuccess? || a.LoadUserSuccess? || (s.isAuthenticated && (a.LoginStart? || a.UpdateUser? || a.Unknown?))
  {
    match a
    case LoginStart => s.(isLoading := true)
    case LoginSuccess(user, token) => s.(user := Some(user), token := Some(token), isAuthenticated := true, isLoading := false)
    case LoginFail => s.(user := None, token := None, isAuthenticated := false, isLoading := false)
    case Logout => s.(user := None, token := None, isAuthenticated := false, isLoading := false)
    case LoadUserSuccess(user) => s.(user := Some(user), isAuthenticated := true, isLoading := false)
    case LoadUserFail => s.(user := None, token := None, isAuthenticated := false, isLoading := false)
    case UpdateUser(user) => s.(user := Some(user))
    case Unknown => s
  }

  /** LOGIN_START raises the loading flag and changes nothing else. */
  lemma LoginStartOnlyLoading(s: AuthState)
    ensures Reduce(s, LoginStart).isLoading
    ensures Reduce(s, LoginStart).(isLoading := s.isLoading) == s
  {
  }

  /** LOGIN_SUCCESS takes user and token from the payload and signs in. */
  lemma LoginSuccessSignsIn(s: AuthState, user: PublicUser, token: Token)
    ensures Reduce(s, LoginSuccess(user, token)) == AuthState(Some(user), Some(token), false, true)
  {
  }

  /** LOGIN_FAIL, LOGOUT and LOAD_USER_FAIL all lead to the same signed-out state,
      whatever the state before. */
  lemma SignOutForgetsEverything(s: AuthState, a: Action)
    requires a.LoginFail? || a.Logout? || a.LoadUserFail?
    ensures Reduce(s, a) == SignedOut
  {
  }

  /** LOAD_USER_SUCCESS signs in with the loaded user and keeps whatever token
      the state had, even none. */
  lemma LoadUserKeepsToken(s: AuthState, user: PublicUser)
    ensures var next := Reduce(s, LoadUserSuccess(user));
            next.user == Some(user) && next.isAuthenticated && !next.isLoading && next.token == s.token
  {
  }

  /** UPDATE_USER replaces the user and nothing else. */
  lemma UpdateUserOnlyUser(s: AuthState, user: PublicUser)
    ensures Reduce(s, UpdateUser(user)) == s.(user := Some(user))
  {
  }

  lemma UnknownIsIdentity(s: AuthState)
    ensures Reduce(s, Unknown) == s
  {
  }

  /** The state after a run of dispatches, the first one first. */
  function ReduceAll(s: AuthState, actions: seq<Action>): AuthState
    decreases |actions|
  {
    if actions == [] then s else ReduceAll(Reduce(s, actions[0]), actions[1..])
  }

  /** From a coherent state (the initial one is), however the dispatches go, a signed-in state has a user. */
  lemma {:induction false} AlwaysCoherent(s: AuthState, actions: seq<Action>)
    requires Coherent(s)
    ensures Coherent(ReduceAll(s, actions))
    decreases |actions|
  {
    if actions != [] {
      AlwaysCoherent(Reduce(s, actions[0]), actions[1..]);
    }
  }

  /** After a run of dispatches the session is signed in exactly when some sign-in
      action came after the last sign-out action, or none of either came and
      the start state was signed in. */
  lemma {:induction false} SignedInIffLastSessionAction(s: AuthState, actions: seq<Action>)
    ensures ReduceAll(s, actions).isAuthenticated <==>
              if exists i :: 0 <= i < |actions| && SessionAction(actions[i])
              then SignIn(actions[LastSessionAction(actions)])
              else s.isAuthenticated
    decreases |actions|
  {
    if actions != [] {
      var next := Reduce(s, actions[0]);
      var rest := actions[1..];
      SignedInIffLastSessionAction(next, rest);
      if exists i :: 0 <= i < |rest| && SessionAction(rest[i]) {
        var k :| 0 <= k < |rest| && SessionAction(rest[k]);
        assert SessionAction(actions[k + 1]);
        LastSessionActionTail(actions);
      } else {
        assert forall i :: 1 <= i < |actions| ==> !SessionAction(actions[i]) by {
          forall i | 1 <= i < |actions| ensures !SessionAction(actions[i]) {
            assert actions[i] == rest[i - 1];
          }
        }
        if SessionAction(actions[0]) {
          assert LastSessionAction(actions) == 0;
        } else {
          assert !exists i :: 0 <= i < |actions| && SessionAction(actions[i]);
        }
      }
    }
  }

  /** The actions that decide whether the session is signed in. */
  predicate SessionAction(a: Action)
  {
    a.LoginSuccess? || a.LoadUserSuccess? || a.LoginFail? || a.Logout? || a.LoadUserFail?
  }

  predicate SignIn(a: Action)
  {
    a.LoginSuccess? || a.LoadUserSuccess?
  }

  /** The position of the last session action, 0 when there is none. */
  function LastSessionAction(actions: seq<Action>): (k: nat)
    ensures actions != [] ==> k < |actions|
    ensures (exists i :: 0 <= i < |actions| && SessionAction(actions[i])) ==>
              SessionAction(actions[k]) && forall j :: k < j < |actions| ==> !SessionAction(actions[j])
    decreases |actions|
  {
    if actions == [] then 0
    else if SessionAction(actions[|actions| - 1]) then |actions| - 1
    else
      var front := actions[..|actions| - 1];
      assert forall i :: 0 <= i < |front| ==> front[i] == actions[i];
      LastSessionAction(front)
  }

  /** When the tail has a session action, the last one of the whole run is the last one of the tail. */
  lemma LastSessionActionTail(actions: seq<Action>)
    requires actions != []
    requires exists i :: 1 <= i < |actions| && SessionAction(actions[i])
    ensures LastSessionAction(actions) >= 1
    ensures LastSessionAction(actions[1..]) == LastSessionAction(actions) - 1
  {
    var k := LastSessionAction(actions);
    var rest := actions[1..];
    assert exists i :: 0 <= i < |rest| && SessionAction(rest[i]) by {
      var i :| 1 <= i < |actions| && SessionAction(actions[i]);
      assert rest[i - 1] == actions[i];
    }
    var k' := LastSessionAction(rest);
    assert actions[k' + 1] == rest[k'];
    if k >= 1 {
      assert rest[k - 1] == actions[k];
    }
  }

  /** A login the server accepts, dispatched with its token, signs in the account
      of the email that was given. */
  lemma AcceptedLoginSignsIn(s: AuthState, users: seq<UserRow>, email: string, token: Token)
    requires Login(users, true, email, true).Ok?
    ensures var next := Reduce(s, LoginSuccess(Public(Login(users, true, email, true).value), token));
            next.isAuthenticated && next.user.Some? && next.user.value.email == email
            && next.token == Some(token)
  {
  }
}
