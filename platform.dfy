/**
 * The page the client runs in, reduced to what the router and the request layer touch:
 * the session token kept in local storage, and a log of the side effects they cause
 * (a logout of the user store, a page reload, an error pop-up).
 */
module Platform {
  import opened JsValues

  datatype Effect =
    | LoggedOut              // useUserStoreHook().logout() was called
    | Reloaded               // location.reload() / window.location.reload() was called
    | ErrorShown(text: string)  // ElMessage.error(text) was called

  /** Number of error pop-ups in a sequence of effects. */
  function ShownCount(effects: seq<Effect>): (n: nat)
    ensures n <= |effects|
    ensures n == 0 <==> forall i :: 0 <= i < |effects| ==> !effects[i].ErrorShown?
    decreases |effects|
  {
    if effects == [] then 0
    else ShownCount(effects[..|effects| - 1]) + (if effects[|effects| - 1].ErrorShown? then 1 else 0)
  }

  class Host {
    /** What getToken() returns: the stored token, or None when local storage holds none. */
    var token: Option<string>
    /** Every effect caused so far, oldest first. */
    var effects: seq<Effect>

    constructor (token: Option<string>)
      ensures this.token == token && effects == []
    {
      this.token := token;
      effects := [];
    }

    method GetToken() returns (t: Option<string>)
      ensures t == token
    {
      t := token;
    }

    method SetToken(t: Option<string>)
      modifies this
      ensures token == t && effects == old(effects)
    {
      token := t;
    }

    /**
     * The body of the user store's logout is not part of this model: the call is recorded,
     * and the stored token may be anything afterwards.
     */
    method Logout()
      modifies this
      ensures effects == old(effects) + [LoggedOut]
    {
      effects := effects + [LoggedOut];
    }

    method Reload()
      modifies this
      ensures effects == old(effects) + [Reloaded] && token == old(token)
    {
      effects := effects + [Reloaded];
    }

    method ShowError(text: string)
      modifies this
      ensures effects == old(effects) + [ErrorShown(text)] && token == old(token)
    {
      effects := effects + [ErrorShown(text)];
    }
  }
}
