/** The browser-side cache of OAuth provider tokens: a map from provider name to the
    access token, its refresh token and its expiry, backed by two `localStorage` keys.
    The server refresh, the identity-provider session and the clock are parameters. */
module TokenCacheSpec {
  import opened Common
  import GoogleAuthSpec

  const AccessTokenKey: string := "oauth_provider_token"
  const RefreshTokenKey: string := "oauth_provider_refresh_token"
  /** The lifetime, in milliseconds, given to a token whose expiry is unknown. */
  const AssumedLifetime: nat := 3500 * 1000
  const GoogleProvider: string := "google"

  datatype Token = Token(accessToken: string, refreshToken: Option<string>, expiresAt: int)

  type Storage = map<string, string>

  datatype Cache = Cache(tokens: map<string, Token>, storage: Storage)

  /** The provider tokens of the identity-provider session; both are absent when there
      is no session or reading it throws. */
  datatype Session = Session(providerToken: Option<string>, providerRefreshToken: Option<string>)

  datatype Step = Step(cache: Cache, token: Option<string>)

  /** `localStorage.getItem(key)`. */
  function Item(storage: Storage, key: string): Option<string>
  {
    if key in storage then Some(storage[key]) else None
  }

  /** A cached token is used as it is while it is non-empty and not yet expired. */
  predicate IsValid(t: Token, now: int)
  {
    t.accessToken != "" && now < t.expiresAt
  }

  /** The token kept in storage, when there is one, given the assumed lifetime. */
  function Stored(storage: Storage, now: int): Option<Token>
  {
    if Truthy(Item(storage, AccessTokenKey)) then
      Some(Token(storage[AccessTokenKey], Item(storage, RefreshTokenKey), now + AssumedLifetime))
    else None
  }

  /** What the constructor loads: the stored token, as Google's. */
  function Loaded(storage: Storage, now: int): map<string, Token>
  {
    match Stored(storage, now)
    case Some(t) => map[GoogleProvider := t]
    case None => map[]
  }

  /** `refreshToken(provider)`, given the result of the server's `refreshGoogleToken()`. */
  function Refresh(c: Cache, provider: string, reply: GoogleAuthSpec.TokenResult, now: int): Step
  {
    if provider != GoogleProvider then Step(c, None)
    else if Truthy(reply.error) || !Truthy(reply.accessToken) then Step(c, None)
    else
      var kept := if provider in c.tokens && Truthy(c.tokens[provider].refreshToken)
                  then c.tokens[provider].refreshToken else None;
      var expiresAt := if reply.expiresAt.Some? then reply.expiresAt.value else now + AssumedLifetime;
      Step(Cache(c.tokens[provider := Token(reply.accessToken.value, kept, expiresAt)],
                 c.storage[AccessTokenKey := reply.accessToken.value]),
           reply.accessToken)
  }

  /** Adopting the session's provider tokens: cached, and written to storage (the
      refresh token only when it is truthy). */
  function FromSession(c: Cache, provider: string, session: Session, now: int): Step
  {
    if !Truthy(session.providerToken) then Step(c, None)
    else
      var access := session.providerToken.value;
      var refresh := if Truthy(session.providerRefreshToken) then session.providerRefreshToken else None;
      var storage := c.storage[AccessTokenKey := access];
      Step(Cache(c.tokens[provider := Token(access, refresh, now + AssumedLifetime)],
                 if refresh.Some? then storage[RefreshTokenKey := refresh.value] else storage),
           Some(access))
  }

  /** `getProviderToken(provider)`: the cached token while valid, else a refreshed one,
      else the stored one, else the session's, else none. */
  function GetProviderToken(c: Cache, provider: string, reply: GoogleAuthSpec.TokenResult,
                            session: Session, now: int): Step
  {
    if provider in c.tokens && IsValid(c.tokens[provider], now) then
      Step(c, Some(c.tokens[provider].accessToken))
    else if provider in c.tokens && Truthy(c.tokens[provider].refreshToken)
            && Refresh(c, provider, reply, now).token.Some? then
      Refresh(c, provider, reply, now)
    else match Stored(c.storage, now)
      case Some(t) => Step(Cache(c.tokens[provider := t], c.storage), Some(t.accessToken))
      case None => FromSession(c, provider, session, now)
  }

  /** `clearTokens()`. */
  function Clear(c: Cache): Cache
  {
    Cache(map[], c.storage - {AccessTokenKey, RefreshTokenKey})
  }

  /** refreshToken: nothing but Google is refreshed, a failed refresh changes nothing,
      and a successful one replaces the cached access token, keeps the cached refresh
      token, takes the server's expiry (or now plus 3500 s) and writes only the access
      token to storage. */
  lemma RefreshOutcomes(c: Cache, provider: string, reply: GoogleAuthSpec.TokenResult, now: int)
    ensures var s := Refresh(c, provider, reply, now);
      && (provider != GoogleProvider ==> s == Step(c, None))
      && (Truthy(reply.error) || !Truthy(reply.accessToken) ==> s == Step(c, None))
      && (s.token.Some? <==> provider == GoogleProvider && !Truthy(reply.error) && Truthy(reply.accessToken))
      && (s.token.Some? ==>
            && s.token == reply.accessToken
            && s.cache.tokens.Keys == c.tokens.Keys + {provider}
            && (forall p :: p in c.tokens && p != provider ==> s.cache.tokens[p] == c.tokens[p])
            && s.cache.tokens[provider].accessToken == reply.accessToken.value
            && (provider in c.tokens && Truthy(c.tokens[provider].refreshToken) ==>
                  s.cache.tokens[provider].refreshToken == c.tokens[provider].refreshToken)
            && (!(provider in c.tokens && Truthy(c.tokens[provider].refreshToken)) ==>
                  s.cache.tokens[provider].refreshToken.None?)
            && s.cache.tokens[provider].expiresAt ==
                 (if reply.expiresAt.Some? then reply.expiresAt.value else now + 3500 * 1000)
            && Item(s.cache.storage, AccessTokenKey) == reply.accessToken
            && Item(s.cache.storage, RefreshTokenKey) == Item(c.storage, RefreshTokenKey))
  {
  }

  /** Whatever getProviderToken returns is a non-empty token that is now cached under
      the provider; when it returns nothing, nothing changed. */
  lemma ServedTokenIsCached(c: Cache, provider: string, reply: GoogleAuthSpec.TokenResult, session: Session, now: int)
    ensures var s := GetProviderToken(c, provider, reply, session, now);
      && (s.token.Some? ==>
            && s.token.value != ""
            && provider in s.cache.tokens
            && s.cache.tokens[provider].accessToken == s.token.value)
      && (s.token.None? ==> s.cache == c)
  {
  }

  /** The order getProviderToken tries its sources in: a valid cached token is returned
      with no change; an invalid one with a refresh token is refreshed first; and a token
      adopted from storage or from the session is given now plus 3500 s. */
  lemma ProviderTokenSources(c: Cache, provider: string, reply: GoogleAuthSpec.TokenResult, session: Session, now: int)
    ensures var s := GetProviderToken(c, provider, reply, session, now);
      var cached := provider in c.tokens;
      var refreshed := Refresh(c, provider, reply, now);
      && (cached && IsValid(c.tokens[provider], now) ==> s == Step(c, Some(c.tokens[provider].accessToken)))
      && ((cached && !IsValid(c.tokens[provider], now) && Truthy(c.tokens[provider].refreshToken)
           && refreshed.token.Some?) ==> s == refreshed)
      && (!(cached && IsValid(c.tokens[provider], now)) && s.token.Some? && s != refreshed ==>
            s.cache.tokens[provider].expiresAt == now + AssumedLifetime)
      && ((!(cached && IsValid(c.tokens[provider], now))
           && !(cached && refreshed.token.Some? && Truthy(c.tokens[provider].refreshToken))
           && Truthy(Item(c.storage, AccessTokenKey))) ==> s.token == Item(c.storage, AccessTokenKey))
  {
  }

  /** Once a token has been served, asking again before it expires returns the same
      token from the cache, whatever the server or the session would say. */
  lemma RepeatedCallIsServedFromCache(c: Cache, provider: string, reply: GoogleAuthSpec.TokenResult, session: Session,
                                      now: int, reply': GoogleAuthSpec.TokenResult, session': Session, later: int)
    requires GetProviderToken(c, provider, reply, session, now).token.Some?
    requires later < GetProviderToken(c, provider, reply, session, now).cache.tokens[provider].expiresAt
    ensures var s := GetProviderToken(c, provider, reply, session, now);
      GetProviderToken(s.cache, provider, reply', session', later) == Step(s.cache, s.token)
  {
    ServedTokenIsCached(c, provider, reply, session, now);
  }

  /** clearTokens forgets the cache and both storage keys and nothing else; afterwards
      only the session can supply a token. */
  lemma {:induction false} ClearForgetsTokens(c: Cache, provider: string, reply: GoogleAuthSpec.TokenResult,
                                              session: Session, now: int)
    ensures Clear(c).tokens == map[]
    ensures AccessTokenKey !in Clear(c).storage && RefreshTokenKey !in Clear(c).storage
    ensures forall k :: k in c.storage && k != AccessTokenKey && k != RefreshTokenKey ==> Clear(c).storage[k] == c.storage[k]
    ensures GetProviderToken(Clear(c), provider, reply, session, now).token ==
            (if Truthy(session.providerToken) then session.providerToken else None)
  {
    assert Stored(Clear(c).storage, now).None? by {
      assert Item(Clear(c).storage, AccessTokenKey).None?;
    }
  }

  /** A manager whose refresh the server grants caches the server's new token with the
      expiry the server computed from Google's `expires_in`. */
  lemma ServerRefreshIsAdopted(c: Cache, rows: GoogleAuthSpec.OAuthRows, user: Option<Uuid>,
                               exchange: string -> GoogleAuthSpec.GoogleReply, now: nat)
    requires var reply := GoogleAuthSpec.RefreshGoogleToken(rows, user, None, exchange, now).result;
      Truthy(reply.accessToken)
    ensures var reply := GoogleAuthSpec.RefreshGoogleToken(rows, user, None, exchange, now).result;
      var s := Refresh(c, GoogleProvider, reply, now);
      && s.token == reply.accessToken
      && s.cache.tokens[GoogleProvider].accessToken == reply.accessToken.value
      && s.cache.tokens[GoogleProvider].expiresAt ==
           now + GoogleAuthSpec.Lifetime(exchange(GoogleAuthSpec.TokenToSend(rows, user.value, None).value).expiresIn) * 1000
  {
    GoogleAuthSpec.RefreshFailures(rows, user, None, exchange, now);
    GoogleAuthSpec.RefreshWritesExpiry(rows, user, None, exchange, now);
  }
}

/** The token manager object itself. */
module AuthTokenManager {
  import opened Common
  import GoogleAuthSpec
  import Spec = TokenCacheSpec

  class TokenManager {
    var tokens: map<string, Spec.Token>
    var storage: Spec.Storage

    function Cache(): Spec.Cache
      reads this
    {
      Spec.Cache(tokens, storage)
    }

    /** Loads the stored token, if any, as Google's. */
    constructor (localStorage: Spec.Storage, now: int)
      ensures tokens == Spec.Loaded(localStorage, now)
      ensures storage == localStorage
    {
      var loaded := map[];
      if Spec.AccessTokenKey in localStorage && localStorage[Spec.AccessTokenKey] != "" {
        loaded := loaded[Spec.GoogleProvider := Spec.Token(localStorage[Spec.AccessTokenKey],
                                                          Spec.Item(localStorage, Spec.RefreshTokenKey),
                                                          now + Spec.AssumedLifetime)];
      }
      storage := localStorage;
      tokens := loaded;
    }

    method GetProviderToken(provider: string, reply: GoogleAuthSpec.TokenResult, session: Spec.Session, now: int)
      returns (token: Option<string>)
      modifies this
      ensures Cache() == Spec.GetProviderToken(old(Cache()), provider, reply, session, now).cache
      ensures token == Spec.GetProviderToken(old(Cache()), provider, reply, session, now).token
    {
      if provider in tokens && tokens[provider].accessToken != "" && now < tokens[provider].expiresAt {
        return Some(tokens[provider].accessToken);
      }
      if provider in tokens && Truthy(tokens[provider].refreshToken) {
        var newToken := RefreshToken(provider, reply, now);
        if newToken.Some? {
          return newToken;
        }
      }
      if Spec.AccessTokenKey in storage && storage[Spec.AccessTokenKey] != "" {
        var stored := storage[Spec.AccessTokenKey];
        tokens := tokens[provider := Spec.Token(stored, Spec.Item(storage, Spec.RefreshTokenKey), now + Spec.AssumedLifetime)];
        return Some(stored);
      }
      if Truthy(session.providerToken) {
        var access := session.providerToken.value;
        var refresh := if Truthy(session.providerRefreshToken) then session.providerRefreshToken else None;
        tokens := tokens[provider := Spec.Token(access, refresh, now + Spec.AssumedLifetime)];
        storage := storage[Spec.AccessTokenKey := access];
        if refresh.Some? {
          storage := storage[Spec.RefreshTokenKey := refresh.value];
        }
        return Some(access);
      }
      return None;
    }

    method RefreshToken(provider: string, reply: GoogleAuthSpec.TokenResult, now: int) returns (token: Option<string>)
      modifies this
      ensures Cache() == Spec.Refresh(old(Cache()), provider, reply, now).cache
      ensures token == Spec.Refresh(old(Cache()), provider, reply, now).token
    {
      if provider != Spec.GoogleProvider {
        return None;
      }
      if Truthy(reply.error) || !Truthy(reply.accessToken) {
        return None;
      }
      var kept := if provider in tokens && Truthy(tokens[provider].refreshToken) then tokens[provider].refreshToken else None;
      var expiresAt := if reply.expiresAt.Some? then reply.expiresAt.value else now + Spec.AssumedLifetime;
      tokens := tokens[provider := Spec.Token(reply.accessToken.value, kept, expiresAt)];
      storage := storage[Spec.AccessTokenKey := reply.accessToken.value];
      return reply.accessToken;
    }

    method ClearTokens()
      modifies this
      ensures Cache() == Spec.Clear(old(Cache()))
    {
      tokens := map[];
      storage := storage - {Spec.AccessTokenKey, Spec.RefreshTokenKey};
    }
  }
}
