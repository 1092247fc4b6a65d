/** The client's durable storage (`localStorage`) as the session uses it: three
    fixed keys holding the access token, the refresh token and the serialized user. */
module Session {
  import opened Optional

  datatype StorageKey = AccessToken | RefreshToken | UserKey

  /** What is stored under each key; the user profile is kept in its serialized form. */
  type Storage = map<StorageKey, string>

  const AllKeys: set<StorageKey> := {AccessToken, RefreshToken, UserKey}

  /** The storage only ever holds the three session keys. */
  lemma KeysBounded(st: Storage)
    ensures st.Keys <= AllKeys
  {
    forall k | k in st.Keys ensures k in AllKeys {
      match k
      case AccessToken =>
      case RefreshToken =>
      case UserKey =>
    }
  }

  /** `localStorage.getItem(k)`: the stored string, or `null`. */
  function GetItem(st: Storage, k: StorageKey): Option<string> {
    if k in st then Some(st[k]) else None
  }

  /** JavaScript truthiness of a `getItem` result: `null` and `""` are both false. */
  predicate Truthy(v: Option<string>) {
    v.Some? && |v.value| > 0
  }

  /** `if (localStorage.getItem(k))` succeeds. */
  predicate Holds(st: Storage, k: StorageKey) {
    Truthy(GetItem(st, k))
  }

  /** `localStorage.setItem(k, v)`: only key `k` changes. */
  function SetItem(st: Storage, k: StorageKey, v: string): (st': Storage)
    ensures GetItem(st', k) == Some(v)
    ensures forall k' :: k' != k ==> GetItem(st', k') == GetItem(st, k')
  {
    st[k := v]
  }

  /** `localStorage.removeItem(k)` for all three keys, as logout and refresh failure do. */
  function Clear(st: Storage): (st': Storage)
    ensures forall k :: GetItem(st', k) == None
  {
    map[]
  }

  /** `authService.isAuthenticated()`: an access token and a user are stored. */
  predicate IsAuthenticated(st: Storage) {
    Holds(st, AccessToken) && Holds(st, UserKey)
  }

  /** `authService.getCurrentUser()`: the stored user, or `null` when nothing (or `""`) is stored. */
  function CurrentUser(st: Storage): (u: Option<string>)
    ensures u.Some? <==> Holds(st, UserKey)
    ensures u.Some? ==> GetItem(st, UserKey) == u && |u.value| > 0
  {
    if Holds(st, UserKey) then Some(st[UserKey]) else None
  }

  /** Whether a session counts as authenticated never depends on the refresh token. */
  lemma IsAuthenticatedIgnoresRefreshToken(st: Storage, v: string)
    ensures IsAuthenticated(SetItem(st, RefreshToken, v)) == IsAuthenticated(st)
    ensures IsAuthenticated(st - {RefreshToken}) == IsAuthenticated(st)
  {
    assert GetItem(st - {RefreshToken}, AccessToken) == GetItem(st, AccessToken);
    assert GetItem(st - {RefreshToken}, UserKey) == GetItem(st, UserKey);
  }

  /** A cleared store is signed out and has no current user. */
  lemma ClearSignsOut(st: Storage)
    ensures !IsAuthenticated(Clear(st)) && CurrentUser(Clear(st)) == None
  {
    assert GetItem(Clear(st), UserKey) == None;
  }
}
