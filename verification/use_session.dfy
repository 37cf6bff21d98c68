/** The `useSession` hook of `src/hooks/useSession.ts`: two state cells,
    `session` and `isLoading`, filled once from `sessionStorage` by the
    mount effect and reset by `clearSession`. */
module UseSession {
  import opened Common
  import opened Records
  import WebStorage
  import Session

  class SessionHook {
    var session: Option<Record>
    var isLoading: bool
    const store: WebStorage.Storage
    const codec: Codec<Record>

    /** The first render: no session yet, still loading. */
    constructor (store: WebStorage.Storage, codec: Codec<Record>)
      ensures session.None? && isLoading
      ensures this.store == store && this.codec == codec
    {
      session := None;
      isLoading := true;
      this.store := store;
      this.codec := codec;
    }

    /** The mount effect's `loadSession`: a stored value that is present,
        non-empty and parses becomes the session; otherwise the session is
        left as it was (a parse failure is caught and logged). Loading ends
        on every path. */
    method LoadSession()
      modifies this
      ensures !isLoading
      ensures var stored := store.GetItem(Session.SESSION_KEY);
              session == if stored.Some? && stored.value != "" && codec.decode(stored.value).Some?
                         then codec.decode(stored.value) else old(session)
      ensures store.items == old(store.items)
    {
      var sessionData := store.GetItem(Session.SESSION_KEY);
      if sessionData.Some? && sessionData.value != "" {
        var parsed := codec.decode(sessionData.value);
        if parsed.Some? {
          session := parsed;
        }
      }
      isLoading := false;
    }

    /** `clearSession()`: the stored session and the state both go. */
    method ClearSession()
      modifies this, store
      ensures session.None?
      ensures store.items == old(store.items) - {Session.SESSION_KEY}
      ensures isLoading == old(isLoading)
    {
      Session.ClearUserSession(store);
      session := None;
    }

    /** `isAuthenticated`: `!!session`, and a user object is always truthy. */
    function IsAuthenticated(): (b: bool)
      reads this
      ensures b <==> session.Some?
    {
      session.Some?
    }
  }

  /** The mount sequence: construct, then run the load effect. Afterwards
      loading is over and the session is exactly what `getUserSession()`
      reads in a browser. */
  method Mount(store: WebStorage.Storage, codec: Codec<Record>) returns (hook: SessionHook)
    ensures fresh(hook) && hook.store == store && hook.codec == codec
    ensures !hook.isLoading
    ensures hook.session == Session.SessionOf(true, store.items, codec)
    ensures hook.IsAuthenticated() <==> Session.SessionOf(true, store.items, codec).Some?
  {
    hook := new SessionHook(store, codec);
    hook.LoadSession();
  }
}
