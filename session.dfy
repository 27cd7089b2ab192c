/**
 * The browser's `localStorage`, reduced to the one key the client uses:
 * the session token is kept under "token" and is the only state shared by
 * the login form and the application shell.
 */
module Session {
  import opened Wrappers

  class TokenStorage {
    /** `localStorage.getItem("token")`: `None` when the key is absent. */
    var token: Option<string>

    constructor (stored: Option<string>)
      ensures token == stored
    {
      token := stored;
    }

    /** `localStorage.setItem("token", value)`. */
    method SetItem(value: string)
      modifies this`token
      ensures token == Some(value)
    {
      token := Some(value);
    }

    /** `localStorage.removeItem("token")`. */
    method RemoveItem()
      modifies this`token
      ensures token == None
    {
      token := None;
    }
  }

  /** JavaScript truthiness of a stored token: present and non-empty. */
  predicate Truthy(stored: Option<string>) {
    stored.Some? && stored.value != []
  }
}
