/**
 * The application shell: which screen is shown (loading, login, register,
 * tasks), decided by a logged-in flag, a show-register flag and a loading
 * gate that is cleared once the stored token has been looked at.
 */
module App {
  import Session

  datatype Screen = LoadingScreen | LoginScreen | RegisterScreen | TasksScreen

  /** The render: the loading gate first, then login or register, then the tasks. */
  function SelectScreen(loading: bool, loggedIn: bool, showRegister: bool): (s: Screen)
    ensures s == LoadingScreen <==> loading
    ensures s == TasksScreen <==> !loading && loggedIn
    ensures s == RegisterScreen <==> !loading && !loggedIn && showRegister
    ensures s == LoginScreen <==> !loading && !loggedIn && !showRegister
  {
    if loading then LoadingScreen
    else if !loggedIn then (if showRegister then RegisterScreen else LoginScreen)
    else TasksScreen
  }

  class AppShell {
    var userLoggedIn: bool
    var showRegister: bool
    var loading: bool
    const storage: Session.TokenStorage

    /** The first render: logged out, login form chosen, behind the loading gate. */
    constructor (storage: Session.TokenStorage)
      ensures this.storage == storage
      ensures !userLoggedIn && !showRegister && loading
      ensures Screen() == LoadingScreen
    {
      this.storage := storage;
      userLoggedIn, showRegister, loading := false, false, true;
    }

    function Screen(): Screen
      reads this
    {
      SelectScreen(loading, userLoggedIn, showRegister)
    }

    /** The mount effect: logged in when a non-empty token is stored; the gate is cleared. */
    method Init()
      modifies this`userLoggedIn, this`loading
      ensures !loading
      ensures userLoggedIn == (old(userLoggedIn) || Session.Truthy(storage.token))
    {
      if Session.Truthy(storage.token) {
        userLoggedIn := true;
      }
      loading := false;
    }

    /** `handleLogin`: logged in, and the register form is no longer chosen. */
    method HandleLogin()
      modifies this`userLoggedIn, this`showRegister
      ensures userLoggedIn && !showRegister
    {
      userLoggedIn := true;
      showRegister := false;
    }

    /** `handleLogout`: the token is removed and the user logged out; the form choice stays. */
    method HandleLogout()
      modifies this`userLoggedIn, storage`token
      ensures !userLoggedIn && storage.token.None?
    {
      storage.RemoveItem();
      userLoggedIn := false;
    }

    method SwitchToRegister()
      modifies this`showRegister
      ensures showRegister
    {
      showRegister := true;
    }

    /** `switchToLogin`, also the register form's `onRegisterSuccess`. */
    method SwitchToLogin()
      modifies this`showRegister
      ensures !showRegister
    {
      showRegister := false;
    }
  }
}
