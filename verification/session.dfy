/** The signed-in user's session of `src/lib/session.ts`: the user object,
    serialised, under one key of `sessionStorage`. */
module Session {
  import opened Common
  import opened Records
  import WebStorage

  /** The `sessionStorage` key the user is kept under. */
  const SESSION_KEY := "userSession"

  /** `saveUserSession(userData)`: the serialised user replaces whatever
      was stored under the key; no other key changes. */
  method SaveUserSession(store: WebStorage.Storage, codec: Codec<Record>, user: Record)
    modifies store
    ensures store.items == old(store.items)[SESSION_KEY := codec.encode(user)]
  {
    store.SetItem(SESSION_KEY, codec.encode(user));
  }

  /** `clearUserSession()`: the key is removed; no other key changes. */
  method ClearUserSession(store: WebStorage.Storage)
    modifies store
    ensures store.items == old(store.items) - {SESSION_KEY}
  {
    store.RemoveItem(SESSION_KEY);
  }

  /** What `getUserSession()` answers for these stored items: nothing
      without a window, nothing when the key is missing or holds the empty
      string, nothing when the value does not parse, and otherwise the
      parsed user. */
  function SessionOf(hasWindow: bool, items: map<string, string>, codec: Codec<Record>): (r: Option<Record>)
    ensures !hasWindow ==> r.None?
    ensures SESSION_KEY !in items || items[SESSION_KEY] == "" ==> r.None?
    ensures r.Some? <==> hasWindow && SESSION_KEY in items && items[SESSION_KEY] != ""
                         && codec.decode(items[SESSION_KEY]).Some?
    ensures r.Some? ==> r == codec.decode(items[SESSION_KEY])
  {
    if !hasWindow then None
    else if SESSION_KEY !in items || items[SESSION_KEY] == "" then None
    else codec.decode(items[SESSION_KEY])
  }

  /** `getUserSession()` on a live store: a session is found only with a
      window, and only as the parse of the value under the session key. */
  function GetUserSession(hasWindow: bool, store: WebStorage.Storage, codec: Codec<Record>): (r: Option<Record>)
    reads store
    ensures r.Some? ==> hasWindow && SESSION_KEY in store.items && r == codec.decode(store.items[SESSION_KEY])
    ensures hasWindow && store.GetItem(SESSION_KEY).Some? && store.GetItem(SESSION_KEY).value != "" ==>
              r == codec.decode(store.GetItem(SESSION_KEY).value)
  {
    SessionOf(hasWindow, store.items, codec)
  }

  /** Without a window the answer does not depend on the store at all. */
  lemma NoWindowNoSession(a: map<string, string>, b: map<string, string>, codec: Codec<Record>)
    ensures SessionOf(false, a, codec) == SessionOf(false, b, codec) == None
  {
  }

  /** Saving a user and reading the session back gives that user. */
  lemma SaveThenGet(items: map<string, string>, codec: Codec<Record>, user: Record)
    requires Faithful(codec)
    ensures SessionOf(true, items[SESSION_KEY := codec.encode(user)], codec) == Some(user)
  {
  }

  /** After clearing, there is no session, whatever was stored before. */
  lemma ClearThenGet(hasWindow: bool, items: map<string, string>, codec: Codec<Record>)
    ensures SessionOf(hasWindow, items - {SESSION_KEY}, codec) == None
  {
  }

  /** Only the session key matters: other keys may change freely. */
  lemma OnlyTheKeyIsRead(hasWindow: bool, a: map<string, string>, b: map<string, string>, codec: Codec<Record>)
    requires SESSION_KEY in a <==> SESSION_KEY in b
    requires SESSION_KEY in a ==> a[SESSION_KEY] == b[SESSION_KEY]
    ensures SessionOf(hasWindow, a, codec) == SessionOf(hasWindow, b, codec)
  {
  }
}
