/** The authentication service of `src/services/auth.ts`, with the user
    profile store of `src/services/user.ts` it relies on. The identity
    provider's answers (`createUserWithEmailAndPassword`,
    `signInWithEmailAndPassword`, `signInWithPopup`, `signOut`) and the
    clock are parameters; the `users` collection is the class `UserStore`. */
module Auth {
  import opened Common
  import opened Records
  import WebStorage
  import Session

  const USER_NOT_FOUND := "User document not found"
  const CREATE_FAILED := "Error creating user document"
  const READ_BACK_FAILED := "Error getting user data"
  const NO_SESSION_STORAGE := "sessionStorage is not defined"
  const DEFAULT_ROLE := "user"
  const FIREBASE_PREFIX := "firebase:"
  const FIREBASE_DB := "firebaseLocalStorageDb"

  /** The signed-in user as the identity provider reports it; absent
      (`null`) fields are `None`. */
  datatype AuthUser = AuthUser(uid: string, email: Option<string>, displayName: Option<string>, photoURL: Option<string>)

  /** The values the registration form submits. */
  datatype RegisterData = RegisterData(name: string, email: string, password: string, role: string)

  /** `s || fallback` for an optional string. */
  function Or(s: Option<string>, fallback: string): (r: string)
    ensures s.Some? && s.value != "" ==> r == s.value
    ensures s.None? || s.value == "" ==> r == fallback
  {
    if s.Some? && s.value != "" then s.value else fallback
  }

  /** The document `createUserDocument` writes: the `User` fields except
      `id`, which the document key carries instead. */
  function NewProfile(name: string, email: string, role: string, avatar: string, now: Timestamp): (r: Record)
    ensures r.Keys == {NAME, EMAIL, ROLE, AVATAR, CREATED_AT} && ID !in r
    ensures r[NAME] == Str(name) && r[EMAIL] == Str(email) && r[ROLE] == Str(role)
  {
    map[NAME := Str(name), EMAIL := Str(email), ROLE := Str(role), AVATAR := Str(avatar), CREATED_AT := Time(now)]
  }

  /** The `users` collection, by user id. Reads and writes of some ids fail
      with an error. */
  class UserStore {
    var docs: map<string, Record>
    const readErrors: map<string, string>
    const writeErrors: map<string, string>

    constructor (docs: map<string, Record>, readErrors: map<string, string>, writeErrors: map<string, string>)
      ensures this.docs == docs && this.readErrors == readErrors && this.writeErrors == writeErrors
    {
      this.docs := docs;
      this.readErrors := readErrors;
      this.writeErrors := writeErrors;
    }

    /** `getUserDocument(userId)`: the stored fields with `id` set to the
        user id (the explicit `id` wins over a stored one). */
    function GetUserDocument(uid: string): (r: Result<Record>)
      reads this
      ensures uid in readErrors ==> r == Failure(readErrors[uid])
      ensures uid !in readErrors && uid !in docs ==> r == Failure(USER_NOT_FOUND)
      ensures r.Success? <==> uid !in readErrors && uid in docs
      ensures r.Success? ==> ID in r.data && r.data[ID] == Str(uid)
      ensures r.Success? ==> forall k :: k in docs[uid] && k != ID ==> k in r.data && r.data[k] == docs[uid][k]
      ensures r.Success? ==> r.data.Keys == docs[uid].Keys + {ID}
    {
      if uid in readErrors then Failure(readErrors[uid])
      else if uid in docs then Success(docs[uid] + map[ID := Str(uid)])
      else Failure(USER_NOT_FOUND)
    }

    /** `createUserDocument(userId, userData)`: (over)writes the profile. */
    method CreateUserDocument(uid: string, name: string, email: string, role: string, avatar: string, now: Timestamp)
      returns (r: Result<()>)
      modifies this`docs
      ensures uid in writeErrors ==> r == Failure(writeErrors[uid]) && docs == old(docs)
      ensures uid !in writeErrors ==> r == Success(()) && docs == old(docs)[uid := NewProfile(name, email, role, avatar, now)]
    {
      if uid in writeErrors {
        r := Failure(writeErrors[uid]);
      } else {
        docs := docs[uid := NewProfile(name, email, role, avatar, now)];
        r := Success(());
      }
    }
  }

  // ---------------------------------------------------------------------
  // The user object built at login
  // ---------------------------------------------------------------------

  /** `userDoc.success && userDoc.data?.field ? userDoc.data.field : fallback` */
  function ProfileField(doc: Result<Record>, field: string, fallback: Value): (v: Value)
    ensures doc.Success? && HasTruthy(doc.data, field) ==> v == doc.data[field]
    ensures !(doc.Success? && HasTruthy(doc.data, field)) ==> v == fallback
  {
    if doc.Success? && HasTruthy(doc.data, field) then doc.data[field] else fallback
  }

  /** The `userData` object of the two login flows: computed defaults, then
      the whole profile document spread over them. `fallbackName` is the
      name used when neither the profile nor the provider has one. */
  function LoginUserData(user: AuthUser, doc: Result<Record>, fallbackName: string, now: Timestamp): (r: Record)
    ensures {ID, EMAIL, NAME, ROLE, CREATED_AT} <= r.Keys
    ensures doc.Success? ==> forall k :: k in doc.data ==> k in r && r[k] == doc.data[k]
  {
    var defaults := map[
      ID := Str(user.uid),
      EMAIL := Str(Or(user.email, "")),
      NAME := ProfileField(doc, NAME, Str(Or(user.displayName, fallbackName))),
      ROLE := ProfileField(doc, ROLE, Str(DEFAULT_ROLE)),
      CREATED_AT := ProfileField(doc, CREATED_AT, Time(now))];
    defaults + (if doc.Success? then doc.data else map[])
  }

  /** The name used by email login when there is no other: the part of the
      typed email before the first `@`. */
  function EmailFallbackName(email: string): (name: string)
    ensures name <= email
    ensures forall k :: 0 <= k < |name| ==> name[k] != '@'
    ensures |name| < |email| ==> email[|name|] == '@'
  {
    BeforeFirst(email, '@')
  }

  /** The login object has exactly the five fields the `User` interface
      requires plus those of a found profile. A stored `name` or `role`
      wins even when it is falsy, because the spread comes last; the
      provider's name or the default role is used only when the profile
      lacks the field. */
  lemma LoginUserDataFields(user: AuthUser, doc: Result<Record>, fallbackName: string, now: Timestamp)
    ensures var r := LoginUserData(user, doc, fallbackName, now);
            && (doc.Success? ==> r.Keys == doc.data.Keys + {ID, EMAIL, NAME, ROLE, CREATED_AT})
            && (doc.Failure? ==> r.Keys == {ID, EMAIL, NAME, ROLE, CREATED_AT})
            && (doc.Success? ==>
                  && r[NAME] == (if NAME in doc.data then doc.data[NAME] else Str(Or(user.displayName, fallbackName)))
                  && r[ROLE] == (if ROLE in doc.data then doc.data[ROLE] else Str(DEFAULT_ROLE)))
  {
  }

  /** Without a profile, the login object is built from the provider's
      data alone: its email or `''`, its display name or the fallback name,
      role `user`, and the current time. */
  lemma LoginWithoutProfile(user: AuthUser, error: string, fallbackName: string, now: Timestamp)
    ensures LoginUserData(user, Failure(error), fallbackName, now) ==
              map[ID := Str(user.uid), EMAIL := Str(Or(user.email, "")),
                  NAME := Str(Or(user.displayName, fallbackName)), ROLE := Str(DEFAULT_ROLE),
                  CREATED_AT := Time(now)]
  {
  }

  /** When the profile comes from `getUserDocument`, the login object's id
      is the provider's uid, whatever the stored document says. */
  lemma LoginIdIsUid(users: UserStore, user: AuthUser, fallbackName: string, now: Timestamp)
    ensures var r := LoginUserData(user, users.GetUserDocument(user.uid), fallbackName, now);
            ID in r && r[ID] == Str(user.uid)
  {
  }

  // ---------------------------------------------------------------------
  // Registration, login and logout
  // ---------------------------------------------------------------------

  /** `registerWithEmailAndPassword(data)`, with `signUp` the provider's
      answer. The profile is written with an empty avatar and read back;
      the session is saved, and the call succeeds, only when the read-back
      succeeds. */
  method RegisterWithEmailAndPassword(data: RegisterData, signUp: Result<AuthUser>, now: Timestamp,
                                      users: UserStore, session: WebStorage.Storage, codec: Codec<Record>)
    returns (r: Result<Record>)
    modifies users, session
    ensures signUp.Failure? ==>
              r == Failure(signUp.error) && users.docs == old(users.docs) && session.items == old(session.items)
    ensures signUp.Success? && signUp.data.uid in users.writeErrors ==>
              r == Failure(CREATE_FAILED) && users.docs == old(users.docs) && session.items == old(session.items)
    ensures signUp.Success? && signUp.data.uid !in users.writeErrors ==>
              var uid := signUp.data.uid;
              && users.docs == old(users.docs)[uid := NewProfile(data.name, data.email, data.role, "", now)]
              && (uid in users.readErrors ==> r == Failure(READ_BACK_FAILED) && session.items == old(session.items))
              && (uid !in users.readErrors ==>
                    && r == Success(NewProfile(data.name, data.email, data.role, "", now)[ID := Str(uid)])
                    && session.items == old(session.items)[Session.SESSION_KEY := codec.encode(r.data)])
  {
    if signUp.Failure? {
      return Failure(signUp.error);
    }
    var user := signUp.data;
    var created := users.CreateUserDocument(user.uid, data.name, data.email, data.role, "", now);
    if created.Failure? {
      return Failure(CREATE_FAILED);
    }
    var userDoc := users.GetUserDocument(user.uid);
    if userDoc.Success? {
      assert userDoc.data == NewProfile(data.name, data.email, data.role, "", now)[ID := Str(user.uid)];
      Session.SaveUserSession(session, codec, userDoc.data);
      return Success(userDoc.data);
    }
    r := Failure(READ_BACK_FAILED);
  }

  /** `registerWithGoogle()`, with `signIn` the popup's answer. A profile
      is written, with role `user`, only when the first lookup fails; the
      session is saved, and the call succeeds, only when the final read
      succeeds. */
  method RegisterWithGoogle(signIn: Result<AuthUser>, now: Timestamp,
                            users: UserStore, session: WebStorage.Storage, codec: Codec<Record>)
    returns (r: Result<Record>)
    modifies users, session
    ensures signIn.Failure? ==>
              r == Failure(signIn.error) && users.docs == old(users.docs) && session.items == old(session.items)
    ensures signIn.Success? && old(users.GetUserDocument(signIn.data.uid)).Success? ==>
              && users.docs == old(users.docs)
              && r == old(users.GetUserDocument(signIn.data.uid))
              && session.items == old(session.items)[Session.SESSION_KEY := codec.encode(r.data)]
    ensures signIn.Success? && old(users.GetUserDocument(signIn.data.uid)).Failure? ==>
              var user := signIn.data;
              var profile := NewProfile(Or(user.displayName, ""), Or(user.email, ""), DEFAULT_ROLE, Or(user.photoURL, ""), now);
              && (user.uid in users.writeErrors ==>
                    r == Failure(CREATE_FAILED) && users.docs == old(users.docs) && session.items == old(session.items))
              && (user.uid !in users.writeErrors ==> users.docs == old(users.docs)[user.uid := profile])
              && (user.uid !in users.writeErrors && user.uid !in users.readErrors ==>
                    && r == Success(profile[ID := Str(user.uid)])
                    && session.items == old(session.items)[Session.SESSION_KEY := codec.encode(r.data)])
              && (user.uid !in users.writeErrors && user.uid in users.readErrors ==>
                    r == Failure(READ_BACK_FAILED) && session.items == old(session.items))
  {
    if signIn.Failure? {
      return Failure(signIn.error);
    }
    var user := signIn.data;
    var existingUser := users.GetUserDocument(user.uid);
    if existingUser.Failure? {
      var documentResult := users.CreateUserDocument(user.uid, Or(user.displayName, ""), Or(user.email, ""),
                                                     DEFAULT_ROLE, Or(user.photoURL, ""), now);
      if documentResult.Failure? {
        return Failure(CREATE_FAILED);
      }
    }
    var userDoc := users.GetUserDocument(user.uid);
    if userDoc.Success? {
      if existingUser.Failure? {
        assert userDoc.data == NewProfile(Or(user.displayName, ""), Or(user.email, ""), DEFAULT_ROLE,
                                          Or(user.photoURL, ""), now)[ID := Str(user.uid)];
      }
      Session.SaveUserSession(session, codec, userDoc.data);
      return Success(userDoc.data);
    }
    r := Failure(READ_BACK_FAILED);
  }

  /** `loginWithEmailAndPassword(email, password)`, with `signIn` the
      provider's answer. The user object is always saved as the session. */
  method LoginWithEmailAndPassword(email: string, password: string, signIn: Result<AuthUser>, now: Timestamp,
                                   users: UserStore, session: WebStorage.Storage, codec: Codec<Record>)
    returns (r: Result<Record>)
    modifies session
    ensures signIn.Failure? ==> r == Failure(signIn.error) && session.items == old(session.items)
    ensures signIn.Success? ==>
              && r == Success(LoginUserData(signIn.data, users.GetUserDocument(signIn.data.uid), EmailFallbackName(email), now))
              && session.items == old(session.items)[Session.SESSION_KEY := codec.encode(r.data)]
  {
    if signIn.Failure? {
      return Failure(signIn.error);
    }
    var user := signIn.data;
    var userDoc := users.GetUserDocument(user.uid);
    var userData := LoginUserData(user, userDoc, EmailFallbackName(email), now);
    Session.SaveUserSession(session, codec, userData);
    r := Success(userData);
  }

  /** `loginWithGoogle()`: as the email login, with `''` as the last
      fallback for the name. */
  method LoginWithGoogle(signIn: Result<AuthUser>, now: Timestamp,
                         users: UserStore, session: WebStorage.Storage, codec: Codec<Record>)
    returns (r: Result<Record>)
    modifies session
    ensures signIn.Failure? ==> r == Failure(signIn.error) && session.items == old(session.items)
    ensures signIn.Success? ==>
              && r == Success(LoginUserData(signIn.data, users.GetUserDocument(signIn.data.uid), "", now))
              && session.items == old(session.items)[Session.SESSION_KEY := codec.encode(r.data)]
  {
    if signIn.Failure? {
      return Failure(signIn.error);
    }
    var user := signIn.data;
    var userDoc := users.GetUserDocument(user.uid);
    var userData := LoginUserData(user, userDoc, "", now);
    Session.SaveUserSession(session, codec, userData);
    r := Success(userData);
  }

  /** A `localStorage` key Firebase may have left behind; every such key
      mentions `firebase`. */
  predicate IsFirebaseKey(key: string): (b: bool)
    ensures b ==> Includes(key, "firebase") && |key| >= |FIREBASE_PREFIX|
  {
    FirebaseKeyMentions(key);
    StartsWith(key, FIREBASE_PREFIX) || Includes(key, FIREBASE_DB)
  }

  lemma FirebaseKeyMentions(key: string)
    ensures StartsWith(key, FIREBASE_PREFIX) || Includes(key, FIREBASE_DB) ==>
              Includes(key, "firebase") && |key| >= |FIREBASE_PREFIX|
  {
    if StartsWith(key, FIREBASE_PREFIX) {
      assert key[0..8] == key[..|FIREBASE_PREFIX|][..8];
      assert OccursAt(key, "firebase", 0);
    } else if Includes(key, FIREBASE_DB) {
      var i :| 0 <= i <= |key| - |FIREBASE_DB| && OccursAt(key, FIREBASE_DB, i);
      assert key[i..i + 8] == key[i..i + |FIREBASE_DB|][..8];
      assert OccursAt(key, "firebase", i);
    }
  }

  /** The keys the logout filter selects. */
  function FirebaseKeys(keys: set<string>): (r: set<string>)
    ensures r <= keys
    ensures forall k :: k in keys ==> (k in r <==> IsFirebaseKey(k))
  {
    set k | k in keys && IsFirebaseKey(k)
  }

  /** `logout()`, with `signOut` the provider's answer. When sign-out fails
      nothing is cleared. Otherwise the session key is removed, which
      throws where there is no window, and then every Firebase key of
      `localStorage` is removed one by one. */
  method Logout(signOut: Result<()>, hasWindow: bool, session: WebStorage.Storage, local: WebStorage.Storage)
    returns (r: Result<()>)
    requires session != local
    modifies session, local
    ensures signOut.Failure? ==>
              r == Failure(signOut.error) && session.items == old(session.items) && local.items == old(local.items)
    ensures signOut.Success? && !hasWindow ==>
              r == Failure(NO_SESSION_STORAGE) && session.items == old(session.items) && local.items == old(local.items)
    ensures signOut.Success? && hasWindow ==>
              && r == Success(())
              && session.items == old(session.items) - {Session.SESSION_KEY}
              && local.items == old(local.items) - FirebaseKeys(old(local.items).Keys)
  {
    if signOut.Failure? {
      return Failure(signOut.error);
    }
    if !hasWindow {
      return Failure(NO_SESSION_STORAGE);
    }
    Session.ClearUserSession(session);
    var keys := FirebaseKeys(local.items.Keys);
    ghost var selected := keys;
    while keys != {}
      invariant keys <= selected
      invariant local.items == old(local.items) - (selected - keys)
      invariant session.items == old(session.items) - {Session.SESSION_KEY}
      decreases keys
    {
      var key :| key in keys;
      local.RemoveItem(key);
      keys := keys - {key};
    }
    r := Success(());
  }

  /** Logout removes exactly the Firebase keys: every other key stays, with
      its value. */
  lemma LogoutKeepsOtherKeys(before: map<string, string>)
    ensures var after := before - FirebaseKeys(before.Keys);
            && (forall k :: k in after <==> k in before && !IsFirebaseKey(k))
            && (forall k :: k in after ==> after[k] == before[k])
  {
  }

  /** Which keys count: every key that starts with `firebase:`, every key
      with the database name anywhere in it, and not a key that merely has
      `firebase:` after its first character. */
  lemma {:induction false} FirebaseKeyCases(rest: string, before: string, after: string)
    ensures IsFirebaseKey(FIREBASE_PREFIX + rest)
    ensures IsFirebaseKey(before + FIREBASE_DB + after)
    ensures !IsFirebaseKey("my-firebase:key")
    ensures !IsFirebaseKey("favorites")
  {
    assert (FIREBASE_PREFIX + rest)[..|FIREBASE_PREFIX|] == FIREBASE_PREFIX;
    var key := before + FIREBASE_DB + after;
    assert key[|before|..|before| + |FIREBASE_DB|] == FIREBASE_DB;
    assert OccursAt(key, FIREBASE_DB, |before|);
    assert "my-firebase:key"[..|FIREBASE_PREFIX|][0] != FIREBASE_PREFIX[0];
    assert "favorites"[..|FIREBASE_PREFIX|][1] != FIREBASE_PREFIX[1];
  }
}
