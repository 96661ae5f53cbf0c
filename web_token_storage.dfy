/** The browser-side token store: one entry of `localStorage`, and nothing
    at all where there is no `window` (server-side rendering). */
module TokenStorage {
  import opened Wrappers

  const TokenKey := "access_token"

  class TokenStore {
    /** `typeof window !== "undefined"` */
    const hasWindow: bool
    /** `localStorage`, shared with whatever else the page stores. */
    var local: map<string, string>

    constructor (hasWindow: bool, local: map<string, string>)
      ensures this.hasWindow == hasWindow && this.local == local
    {
      this.hasWindow := hasWindow;
      this.local := local;
    }

    /** `getAccessToken`; `None` is `null`. */
    function GetAccessToken(): (r: Option<string>)
      reads this
      ensures !hasWindow ==> r.None?
      ensures r.Some? <==> hasWindow && TokenKey in local
      ensures r.Some? ==> r.value == local[TokenKey]
    {
      if hasWindow && TokenKey in local then Some(local[TokenKey]) else None
    }

    /** `hasAccessToken`: a stored empty string still counts. */
    function HasAccessToken(): (r: bool)
      reads this
      ensures r <==> GetAccessToken().Some?
      ensures hasWindow && local == map[TokenKey := ""] ==> r
    {
      GetAccessToken() != None
    }

    /** `setAccessToken`: the token replaces any earlier one; no other
        entry changes. */
    method SetAccessToken(token: string)
      modifies this
      ensures local == if hasWindow then old(local)[TokenKey := token] else old(local)
      ensures hasWindow ==> GetAccessToken() == Some(token)
      ensures !hasWindow ==> GetAccessToken().None?
    {
      if !hasWindow {
        return;
      }
      local := local[TokenKey := token];
    }

    /** `clearAccessToken`: afterwards there is no token; no other entry changes. */
    method ClearAccessToken()
      modifies this
      ensures local == if hasWindow then old(local) - {TokenKey} else old(local)
      ensures GetAccessToken().None? && !HasAccessToken()
    {
      if !hasWindow {
        return;
      }
      local := local - {TokenKey};
    }
  }

  /** A session in a browser: the second login's token replaces the first,
      and logging out removes it. */
  method Session(store: TokenStore, first: string, second: string) returns (afterLogins: Option<string>, afterLogout: bool)
    requires store.hasWindow
    modifies store
    ensures afterLogins == Some(second)
    ensures !afterLogout
    ensures forall k :: k != TokenKey ==> (k in store.local <==> k in old(store.local))
    ensures forall k :: k != TokenKey && k in store.local ==> store.local[k] == old(store.local)[k]
  {
    store.SetAccessToken(first);
    store.SetAccessToken(second);
    afterLogins := store.GetAccessToken();
    store.ClearAccessToken();
    afterLogout := store.HasAccessToken();
  }
}
