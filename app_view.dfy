/**
 * The top-level view router of the front end: which screen is current and
 * who is signed in. The screen drawn is a function of those two fields.
 */
module AppView {
  import opened Remote

  /** The values of `currentView`. */
  datatype View = LoginView | RegisterView | TodoView

  /** What the router draws; `TodoScreen` receives the signed-in user. */
  datatype Screen = LoginScreen | RegisterScreen | TodoScreen(username: string) | NoScreen

  /**
   * The three guarded branches of the router. The task list needs a truthy
   * user, so an empty user name draws nothing.
   */
  function ScreenFor(view: View, user: Option<string>): (s: Screen)
    ensures s == LoginScreen <==> view == LoginView
    ensures s == RegisterScreen <==> view == RegisterView
    ensures s.TodoScreen? <==> view == TodoView && user.Some? && user.value != ""
    ensures s.TodoScreen? ==> s.username == user.value
  {
    match view
    case LoginView => LoginScreen
    case RegisterView => RegisterScreen
    case TodoView => if user.Some? && user.value != "" then TodoScreen(user.value) else NoScreen
  }

  class AppState {
    var currentView: View
    var user: Option<string>

    /** The login screen, nobody signed in. */
    constructor ()
      ensures currentView == LoginView && user == None
      ensures Screen() == LoginScreen
    {
      currentView, user := LoginView, None;
    }

    /** The screen drawn for the current state. */
    function Screen(): (s: Screen)
      reads this
      ensures s == LoginScreen <==> currentView == LoginView
      ensures s == RegisterScreen <==> currentView == RegisterView
      ensures s.TodoScreen? <==> currentView == TodoView && user.Some? && user.value != ""
      ensures s.TodoScreen? ==> user == Some(s.username)
    {
      ScreenFor(currentView, user)
    }

    /** `handleLogin(username)`: remembers the user and shows the task list. */
    method HandleLogin(username: string)
      modifies this
      ensures user == Some(username) && currentView == TodoView
      ensures username != "" ==> Screen() == TodoScreen(username)
    {
      user := Some(username);
      currentView := TodoView;
    }

    /** `handleLogout`: forgets the user and shows the login screen. */
    method HandleLogout()
      modifies this
      ensures user == None && currentView == LoginView
      ensures Screen() == LoginScreen
    {
      user := None;
      currentView := LoginView;
    }

    /** The login screen's register link. */
    method ShowRegister()
      modifies this`currentView
      ensures currentView == RegisterView
      ensures Screen() == RegisterScreen
    {
      currentView := RegisterView;
    }

    /** The register screen's back link. */
    method ShowLogin()
      modifies this`currentView
      ensures currentView == LoginView
      ensures Screen() == LoginScreen
    {
      currentView := LoginView;
    }
  }

  /** Logging in and then out returns the router to its initial state, from any state. */
  method LoginThenLogout(app: AppState, username: string)
    modifies app
    ensures app.currentView == LoginView && app.user == None
  {
    app.HandleLogin(username);
    assert username != "" ==> app.Screen() == TodoScreen(username);
    app.HandleLogout();
  }
}
