/**
 * The browser state the two page scripts read and write: the durable store
 * (`localStorage`), the volatile store (`sessionStorage`), the current URL, and
 * the effects the scripts leave behind (navigation, reloads, alerts, the
 * access dialog).
 */
module Browser {
  import opened Wrappers
  import opened Json

  /** What `await fetch(...)` and `await response.json()` produce together. */
  datatype FetchReply =
    | NetworkFailure                        // the request never completes: fetch rejects
    | Reply(ok: bool, body: Option<Value>)  // `ok` is the status check; body None: not JSON, json() rejects

  class Page {
    var localStore: map<string, string>
    var sessionStore: map<string, string>
    var origin: string
    var pathname: string
    /** The decoded query parameters of `location.search`, in order. */
    var search: seq<(string, string)>
    /** The last value assigned to `location.href`, if any. */
    var href: Option<string>
    /** How many times `location.reload()` was called. */
    var reloads: nat
    /** Every `alert(...)` message, oldest first. */
    var alerts: seq<string>
    /** Whether the access-code dialog has been put on the page. */
    var dialogShown: bool

    constructor (local: map<string, string>, session: map<string, string>,
                 origin: string, pathname: string, search: seq<(string, string)>)
      ensures localStore == local && sessionStore == session
      ensures this.origin == origin && this.pathname == pathname && this.search == search
      ensures href == None && reloads == 0 && alerts == [] && !dialogShown
    {
      localStore := local;
      sessionStore := session;
      this.origin := origin;
      this.pathname := pathname;
      this.search := search;
      href := None;
      reloads := 0;
      alerts := [];
      dialogShown := false;
    }
  }

  /** `new URLSearchParams(search).get(name)`: the first value given for `name`. */
  function GetParam(search: seq<(string, string)>, name: string): (r: Option<string>)
    ensures r.None? <==> forall i :: 0 <= i < |search| ==> search[i].0 != name
    ensures r.Some? ==> exists i :: 0 <= i < |search| && search[i] == (name, r.value) &&
                                    forall j :: 0 <= j < i ==> search[j].0 != name
  {
    if search == [] then None
    else if search[0].0 == name then Some(search[0].1)
    else
      var r := GetParam(search[1..], name);
      assert forall i :: 1 <= i < |search| ==> search[i] == search[1..][i - 1];
      r
  }
}
