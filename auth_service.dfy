/** The session holder (core/services/auth.service.ts).

    The service keeps a bearer token and the signed-in user, mirrored into
    the browser's key-value storage under `auth_token` and `auth_user`.
    Storage is a `map<string, string>`; `JSON.stringify`/`JSON.parse` of the
    user are the codec functions `encode` and `parse`, of which the model only
    assumes that parsing a serialised user gives it back. Navigation is
    recorded in the ghost field `navigations`.
 */
module Auth {
  import opened Wrappers
  import opened Models
  import opened Routing

  const TokenKey: string := "auth_token"
  const UserKey: string := "auth_user"
  const ToLogin: Navigation := Navigate("/login", None)

  /** `JSON.parse(JSON.stringify(u))` is `u`, and a serialised user is never
      the empty string. */
  ghost predicate RoundTrips(encode: User -> string, parse: string -> Option<User>) {
    forall u :: parse(encode(u)) == Some(u) && encode(u) != ""
  }

  /** `loadTokenFromStorage`: the stored token; null when the key is missing
      or there is no storage at all (`stored` is None). */
  function LoadToken(stored: Option<map<string, string>>): (t: Option<string>)
    ensures t.Some? <==> stored.Some? && TokenKey in stored.value
    ensures t.Some? ==> t.value == stored.value[TokenKey]
  {
    if stored.Some? && TokenKey in stored.value then Some(stored.value[TokenKey]) else None
  }

  /** `loadUserFromStorage`: a missing storage, a missing or empty entry and
      an entry that does not parse all give null; nothing fails. */
  function LoadUser(stored: Option<map<string, string>>, parse: string -> Option<User>): (u: Option<User>)
    ensures stored.None? || UserKey !in stored.value || stored.value[UserKey] == "" ==> u.None?
    ensures stored.Some? && UserKey in stored.value && stored.value[UserKey] != "" ==>
      u == parse(stored.value[UserKey])
  {
    if stored.Some? && UserKey in stored.value && stored.value[UserKey] != "" then
      parse(stored.value[UserKey])
    else
      None
  }

  /** The storage after `saveToStorage(token, user)`. */
  function Saved(m: map<string, string>, token: string, user: User, encode: User -> string): map<string, string> {
    m[TokenKey := token][UserKey := encode(user)]
  }

  /** The storage after `clearStorage()`. */
  function Cleared(m: map<string, string>): map<string, string> {
    m - {TokenKey, UserKey}
  }

  /** Saving and then loading gives back the saved pair, and every other
      storage entry is left as it was. */
  lemma SaveThenLoad(m: map<string, string>, token: string, user: User,
                     encode: User -> string, parse: string -> Option<User>)
    requires RoundTrips(encode, parse)
    ensures LoadToken(Some(Saved(m, token, user, encode))) == Some(token)
    ensures LoadUser(Some(Saved(m, token, user, encode)), parse) == Some(user)
    ensures forall k :: k in m && k != TokenKey && k != UserKey ==>
      k in Saved(m, token, user, encode) && Saved(m, token, user, encode)[k] == m[k]
  {
    assert parse(encode(user)) == Some(user) && encode(user) != "";
  }

  /** After clearing, loading finds neither a token nor a user, and every
      other storage entry is left as it was. */
  lemma ClearThenLoad(m: map<string, string>, parse: string -> Option<User>)
    ensures LoadToken(Some(Cleared(m))) == None
    ensures LoadUser(Some(Cleared(m)), parse) == None
    ensures forall k :: k in m && k != TokenKey && k != UserKey ==> k in Cleared(m) && Cleared(m)[k] == m[k]
  {
  }

  /** `isAuthenticated`: a truthy token (present and non-empty) and a user. */
  function Authenticated(token: Option<string>, user: Option<User>): (r: bool)
    ensures r ==> user.Some?
    ensures r <==> token.Some? && token.value != "" && user.Some?
  {
    token.Some? && token.value != "" && user.Some?
  }

  /** `isAdmin`: `currentUser()?.role === 'ADMIN'`. */
  function Admin(user: Option<User>): (r: bool)
    ensures r <==> user.Some? && user.value.role == ADMIN
  {
    user.Some? && user.value.role == ADMIN
  }

  /** `userName`: `currentUser()?.name ?? ''`. */
  function DisplayName(user: Option<User>): (r: string)
    ensures user.None? ==> r == ""
    ensures user.Some? ==> r == user.value.name
  {
    if user.Some? then user.value.name else ""
  }

  /** An administrator's session is authenticated exactly when its token is
      non-empty (`isAdmin` does not look at the token), and a session without
      a user has no name. */
  lemma DerivedReads(token: Option<string>, user: Option<User>)
    ensures Admin(user) ==> user.Some? && (Authenticated(token, user) <==> token.Some? && token.value != "")
    ensures user.None? ==> !Authenticated(token, user) && !Admin(user) && DisplayName(user) == ""
    ensures user.Some? ==> DisplayName(user) == user.value.name
  {
  }

  class AuthService {
    var token: Option<string>
    var currentUser: Option<User>
    var storage: map<string, string>
    ghost var navigations: seq<Navigation>
    const encode: User -> string
    const parse: string -> Option<User>

    /** The in-memory session is always what would be reloaded from storage. */
    ghost predicate Valid()
      reads this
    {
      RoundTrips(encode, parse) &&
      token == LoadToken(Some(storage)) &&
      currentUser == LoadUser(Some(storage), parse)
    }

    /** Field initialisers: both signals start from storage; `stored` is None
        when the platform has no local storage. */
    constructor (stored: Option<map<string, string>>, encode: User -> string, parse: string -> Option<User>)
      requires RoundTrips(encode, parse)
      ensures Valid()
      ensures token == LoadToken(stored) && currentUser == LoadUser(stored, parse)
      ensures storage == stored.GetOr(map[]) && navigations == []
      ensures this.encode == encode && this.parse == parse
    {
      this.encode := encode;
      this.parse := parse;
      storage := stored.GetOr(map[]);
      token := LoadToken(stored);
      currentUser := LoadUser(stored, parse);
      navigations := [];
    }

    /** `isAuthenticated()`: what storage holds decides it. */
    function IsAuthenticated(): (r: bool)
      reads this
      ensures Valid() ==>
        (r <==> TokenKey in storage && storage[TokenKey] != "" && LoadUser(Some(storage), parse).Some?)
    {
      Authenticated(token, currentUser)
    }

    /** `isAdmin()`: the stored user's role, whatever the token. */
    function IsAdmin(): (r: bool)
      reads this
      ensures Valid() ==> (r <==> Admin(LoadUser(Some(storage), parse)))
    {
      Admin(currentUser)
    }

    /** `userName()`: the stored user's name, or empty. */
    function UserName(): (r: string)
      reads this
      ensures Valid() ==> r == DisplayName(LoadUser(Some(storage), parse))
    {
      DisplayName(currentUser)
    }

    /** `saveToStorage`: both keys and both fields take the new pair. */
    method SaveToStorage(t: string, u: User)
      requires Valid()
      modifies this
      ensures Valid()
      ensures storage == Saved(old(storage), t, u, encode)
      ensures token == Some(t) && currentUser == Some(u)
      ensures IsAuthenticated() <==> t != ""
      ensures navigations == old(navigations)
    {
      SaveThenLoad(storage, t, u, encode, parse);
      storage := Saved(storage, t, u, encode);
      token := Some(t);
      currentUser := Some(u);
    }

    /** `clearStorage`: both keys removed and both fields null. */
    method ClearStorage()
      requires Valid()
      modifies this
      ensures Valid()
      ensures storage == Cleared(old(storage))
      ensures token == None && currentUser == None
      ensures !IsAuthenticated() && !IsAdmin() && UserName() == ""
      ensures navigations == old(navigations)
    {
      ClearThenLoad(storage, parse);
      storage := Cleared(storage);
      token := None;
      currentUser := None;
    }

    /** `login`: a response is persisted; an error leaves the session as it
        was and is passed on to the subscriber. */
    method Login(outcome: Outcome<AuthResponse>) returns (r: Outcome<AuthResponse>)
      requires Valid()
      modifies this
      ensures Valid() && r == outcome
      ensures outcome.Success? ==>
        storage == Saved(old(storage), outcome.value.accessToken, outcome.value.user, encode) &&
        token == Some(outcome.value.accessToken) && currentUser == Some(outcome.value.user)
      ensures outcome.Failure? ==>
        storage == old(storage) && token == old(token) && currentUser == old(currentUser)
      ensures navigations == old(navigations)
    {
      if outcome.Success? {
        SaveToStorage(outcome.value.accessToken, outcome.value.user);
      }
      r := outcome;
    }

    /** `register`: the same contract as `login`, at another endpoint. */
    method Register(outcome: Outcome<AuthResponse>) returns (r: Outcome<AuthResponse>)
      requires Valid()
      modifies this
      ensures Valid() && r == outcome
      ensures outcome.Success? ==>
        storage == Saved(old(storage), outcome.value.accessToken, outcome.value.user, encode) &&
        token == Some(outcome.value.accessToken) && currentUser == Some(outcome.value.user)
      ensures outcome.Failure? ==>
        storage == old(storage) && token == old(token) && currentUser == old(currentUser)
      ensures navigations == old(navigations)
    {
      if outcome.Success? {
        SaveToStorage(outcome.value.accessToken, outcome.value.user);
      }
      r := outcome;
    }

    /** `logout`: the server is told only when a (truthy) token is held, and
        whether that call completes or fails the session is cleared and the
        user sent to the login page. */
    method Logout() returns (notifiedServer: bool)
      requires Valid()
      modifies this
      ensures Valid()
      ensures notifiedServer <==> old(token).Some? && old(token).value != ""
      ensures storage == Cleared(old(storage)) && token == None && currentUser == None
      ensures !IsAuthenticated()
      ensures navigations == old(navigations) + [ToLogin]
    {
      notifiedServer := token.Some? && token.value != "";
      ClearStorage();
      navigations := navigations + [ToLogin];
    }

    /** `refresh`: a response replaces the session; any error ends it through
        `logout` (fail-closed) and is passed on. */
    method Refresh(outcome: Outcome<AuthResponse>) returns (r: Outcome<AuthResponse>)
      requires Valid()
      modifies this
      ensures Valid() && r == outcome
      ensures outcome.Success? ==>
        storage == Saved(old(storage), outcome.value.accessToken, outcome.value.user, encode) &&
        token == Some(outcome.value.accessToken) && currentUser == Some(outcome.value.user) &&
        navigations == old(navigations)
      ensures outcome.Failure? ==>
        storage == Cleared(old(storage)) && token == None && currentUser == None &&
        !IsAuthenticated() && navigations == old(navigations) + [ToLogin]
    {
      if outcome.Success? {
        SaveToStorage(outcome.value.accessToken, outcome.value.user);
      } else {
        var _ := Logout();
      }
      r := outcome;
    }

    /** `getToken()`: the stored token, null when there is none. */
    function GetToken(): (r: Option<string>)
      reads this
      ensures Valid() ==> r == LoadToken(Some(storage))
    {
      token
    }
  }
}
