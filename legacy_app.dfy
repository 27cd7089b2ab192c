/**
 * The older application shell: an authenticated flag and a show-register
 * flag, no loading gate, and a login handler that leaves the form choice
 * as it was.
 */
module LegacyApp {
  import Session
  import App

  /** Authenticated wins over the form choice; there is no loading screen. */
  function SelectScreen(authenticated: bool, showRegister: bool): (s: App.Screen)
    ensures s != App.LoadingScreen
    ensures s == App.TasksScreen <==> authenticated
    ensures s == App.RegisterScreen <==> !authenticated && showRegister
    ensures s == App.LoginScreen <==> !authenticated && !showRegister
  {
    if authenticated then App.TasksScreen
    else if showRegister then App.RegisterScreen
    else App.LoginScreen
  }

  /** Once the newer shell's loading gate is cleared, both shells show the same screen for the same flags. */
  lemma SameScreenOnceLoaded(loggedIn: bool, showRegister: bool)
    ensures SelectScreen(loggedIn, showRegister) == App.SelectScreen(false, loggedIn, showRegister)
  {
  }

  class LegacyShell {
    var isAuthenticated: bool
    var showRegister: bool
    const storage: Session.TokenStorage

    /** The first render shows the login form, even when a token is stored. */
    constructor (storage: Session.TokenStorage)
      ensures this.storage == storage
      ensures !isAuthenticated && !showRegister
      ensures Screen() == App.LoginScreen
    {
      this.storage := storage;
      isAuthenticated, showRegister := false, false;
    }

    function Screen(): App.Screen
      reads this
    {
      SelectScreen(isAuthenticated, showRegister)
    }

    /** The mount effect: authenticated when a non-empty token is stored. */
    method Init()
      modifies this`isAuthenticated
      ensures isAuthenticated == (old(isAuthenticated) || Session.Truthy(storage.token))
    {
      if Session.Truthy(storage.token) {
        isAuthenticated := true;
      }
    }

    /** `handleLogin`: authenticated; `showRegister` is left as it was. */
    method HandleLogin()
      modifies this`isAuthenticated
      ensures isAuthenticated
    {
      isAuthenticated := true;
    }

    method HandleLogout()
      modifies this`isAuthenticated, storage`token
      ensures !isAuthenticated && storage.token.None?
    {
      storage.RemoveItem();
      isAuthenticated := false;
    }

    /** `handleRegisterSuccess`, and the register form's `onSwitchToLogin`. */
    method HandleRegisterSuccess()
      modifies this`showRegister
      ensures !showRegister
    {
      showRegister := false;
    }

    /** The login form's `onSwitchToRegister`. */
    method SwitchToRegister()
      modifies this`showRegister
      ensures showRegister
    {
      showRegister := true;
    }
  }
}
