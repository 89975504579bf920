/**
  The session as the pages keep it: two entries of the browser's
  `localStorage`, written together after a successful OTP validation and
  removed together on logout. Storage is a plain string map.
 */
module Session {
  type Storage = map<string, string>

  const AuthTokenKey: string := "auth_token"
  const UserIdKey: string := "user_id"

  /** The actor id sent when no user id is stored. */
  const AnonymousUserId: string := "user"

  /** `localStorage.getItem(key) || fallback`: `getItem` gives `null` for a
      missing key, and `||` also replaces an empty stored value. */
  function ItemOr(st: Storage, key: string, fallback: string): (r: string)
    ensures key in st && st[key] != "" ==> r == st[key]
    ensures key !in st || st[key] == "" ==> r == fallback
  {
    if key in st && st[key] != "" then st[key] else fallback
  }

  /** The `user_id` the search and upload requests carry. */
  function ActorId(st: Storage): (r: string)
    ensures r != ""
    ensures UserIdKey in st && st[UserIdKey] != "" ==> r == st[UserIdKey]
    ensures UserIdKey !in st || st[UserIdKey] == "" ==> r == AnonymousUserId
  {
    ItemOr(st, UserIdKey, AnonymousUserId)
  }

  /** The `token` header the search and upload requests carry: the stored
      token, or the empty string when there is none (the request is sent anyway). */
  function TokenHeader(st: Storage): (r: string)
    ensures AuthTokenKey in st ==> r == st[AuthTokenKey]
    ensures AuthTokenKey !in st ==> r == ""
  {
    ItemOr(st, AuthTokenKey, "")
  }

  /** Token and user id are stored together or not at all. */
  predicate NoPartialSession(st: Storage)
  {
    AuthTokenKey in st <==> UserIdKey in st
  }

  /** Both `setItem` calls of a successful validation. */
  function SignIn(st: Storage, token: string, userId: string): (r: Storage)
    ensures AuthTokenKey in r && r[AuthTokenKey] == token
    ensures UserIdKey in r && r[UserIdKey] == userId
    ensures NoPartialSession(r)
    ensures forall k :: k != AuthTokenKey && k != UserIdKey ==> (k in r <==> k in st)
    ensures forall k :: k in r && k != AuthTokenKey && k != UserIdKey ==> r[k] == st[k]
  {
    st[AuthTokenKey := token][UserIdKey := userId]
  }

  /** Both `removeItem` calls of a logout; every other entry survives. */
  function SignOut(st: Storage): (r: Storage)
    ensures AuthTokenKey !in r && UserIdKey !in r
    ensures NoPartialSession(r)
    ensures r.Keys == st.Keys - {AuthTokenKey, UserIdKey}
    ensures forall k :: k in r ==> r[k] == st[k]
  {
    st - {AuthTokenKey, UserIdKey}
  }

  /** Signing out undoes a sign-in completely: what remains is exactly what
      signing out would have left before it. */
  lemma SignOutUndoesSignIn(st: Storage, token: string, userId: string)
    ensures SignOut(SignIn(st, token, userId)) == SignOut(st)
  {
    var a := SignOut(SignIn(st, token, userId));
    var b := SignOut(st);
    assert a.Keys == b.Keys;
  }

  /** After a sign-in, later requests carry the new token, and the new id
      unless it is empty. */
  lemma SignedInRequestsCarrySession(st: Storage, token: string, userId: string)
    ensures TokenHeader(SignIn(st, token, userId)) == token
    ensures userId != "" ==> ActorId(SignIn(st, token, userId)) == userId
  {
  }
}
