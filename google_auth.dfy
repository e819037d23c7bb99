/** The server actions that keep a user's Google access token fresh: `ensureFreshToken`
    reuses the stored token while it has more than five minutes left and otherwise asks
    `refreshGoogleToken` for a new one, which writes the new token and expiry into the
    user's `oauth_tokens` row. The Google token endpoint is a parameter: `exchange`
    gives the reply Google sends for a refresh token. */
module GoogleAuthSpec {
  import opened Common

  const GoogleProvider: string := "google"
  /** ensureFreshToken refreshes tokens that expire within this many milliseconds. */
  const ExpiryBuffer: nat := 5 * 60 * 1000
  /** The lifetime, in seconds, assumed when Google's reply gives none. */
  const DefaultExpiresIn: nat := 3600

  /** A row of `oauth_tokens`; the map key (user id, provider) is its unique pair. */
  datatype OAuthRow = OAuthRow(accessToken: string, refreshToken: string, expiresAt: nat, updatedAt: nat)

  type OAuthRows = map<(Uuid, string), OAuthRow>

  /** What the token endpoint answers: the request throws (network failure or an
      unreadable body, with the error's message), or a response with its `ok` flag
      and the JSON fields the action reads. */
  datatype GoogleReply =
    | Thrown(message: string)
    | Reply(ok: bool, errorDescription: Option<string>, accessToken: Option<string>, expiresIn: Option<nat>)

  /** The object both actions return: `{ accessToken?, expiresAt?, error? }`. */
  datatype TokenResult = TokenResult(accessToken: Option<string>, expiresAt: Option<nat>, error: Option<string>)

  datatype Step = Step(rows: OAuthRows, result: TokenResult)

  function Failure(message: string): TokenResult
  {
    TokenResult(None, None, Some(message))
  }

  /** The test ensureFreshToken applies to the stored row. */
  predicate IsFresh(row: OAuthRow, now: nat)
  {
    row.expiresAt > now + ExpiryBuffer
  }

  /** `data.expires_in || 3600`. */
  function Lifetime(expiresIn: Option<nat>): nat
  {
    if expiresIn.Some? && expiresIn.value != 0 then expiresIn.value else DefaultExpiresIn
  }

  /** The refresh token the action sends: its argument when truthy, else the one stored
      in the caller's Google row when that is truthy. */
  function TokenToSend(rows: OAuthRows, userId: Uuid, refreshToken: Option<string>): Option<string>
  {
    if Truthy(refreshToken) then refreshToken
    else if (userId, GoogleProvider) in rows && rows[(userId, GoogleProvider)].refreshToken != "" then
      Some(rows[(userId, GoogleProvider)].refreshToken)
    else None
  }

  /** `update(oauthTokens).set({accessToken, expiresAt})` on the caller's Google row:
      an undefined access token is skipped by the update, and `updatedAt` is refreshed.
      No row matches when there is none. */
  function Updated(rows: OAuthRows, key: (Uuid, string), accessToken: Option<string>, expiresAt: nat, now: nat): OAuthRows
  {
    if key !in rows then rows
    else
      var row := rows[key];
      rows[key := row.(accessToken := if accessToken.Some? then accessToken.value else row.accessToken,
                       expiresAt := expiresAt, updatedAt := now)]
  }

  function RefreshGoogleToken(rows: OAuthRows, user: Option<Uuid>, refreshToken: Option<string>,
                              exchange: string -> GoogleReply, now: nat): Step
  {
    if !Truthy(user) then Step(rows, Failure("No authenticated user found"))
    else
      var sent := TokenToSend(rows, user.value, refreshToken);
      if sent.None? then Step(rows, Failure("No refresh token found"))
      else match exchange(sent.value)
        case Thrown(message) => Step(rows, Failure(message))
        case Reply(ok, description, accessToken, expiresIn) =>
          if !ok then
            Step(rows, Failure(if Truthy(description) then description.value else "Failed to refresh token"))
          else
            var expiresAt := now + Lifetime(expiresIn) * 1000;
            Step(Updated(rows, (user.value, GoogleProvider), accessToken, expiresAt, now),
                 TokenResult(accessToken, Some(expiresAt), None))
  }

  function EnsureFreshToken(rows: OAuthRows, user: Option<Uuid>, exchange: string -> GoogleReply, now: nat): Step
  {
    if !Truthy(user) then Step(rows, Failure("No authenticated user found"))
    else if (user.value, GoogleProvider) !in rows then Step(rows, Failure("No token found"))
    else
      var row := rows[(user.value, GoogleProvider)];
      if IsFresh(row, now) then Step(rows, TokenResult(Some(row.accessToken), None, None))
      else RefreshGoogleToken(rows, user, Some(row.refreshToken), exchange, now)
  }

  /** The failures of refreshGoogleToken, and that a failure writes nothing. */
  lemma RefreshFailures(rows: OAuthRows, user: Option<Uuid>, refreshToken: Option<string>,
                        exchange: string -> GoogleReply, now: nat)
    ensures var s := RefreshGoogleToken(rows, user, refreshToken, exchange, now);
      && (!Truthy(user) ==> s.result == Failure("No authenticated user found"))
      && (Truthy(user) && !Truthy(refreshToken) &&
          ((user.value, GoogleProvider) !in rows || rows[(user.value, GoogleProvider)].refreshToken == "") ==>
            s.result == Failure("No refresh token found"))
      && (Truthy(user) ==> (TokenToSend(rows, user.value, refreshToken).None? <==>
            !Truthy(refreshToken) &&
            ((user.value, GoogleProvider) !in rows || rows[(user.value, GoogleProvider)].refreshToken == "")))
      && (s.result.error.Some? ==> s.rows == rows && s.result.accessToken.None? && s.result.expiresAt.None?)
      && (Truthy(user) && TokenToSend(rows, user.value, refreshToken).Some? ==>
            var reply := exchange(TokenToSend(rows, user.value, refreshToken).value);
            && (reply.Reply? && !reply.ok ==>
                  s.result.error == Some(if Truthy(reply.errorDescription) then reply.errorDescription.value
                                         else "Failed to refresh token"))
            && (reply.Thrown? ==> s.result.error == Some(reply.message)))
  {
  }

  /** A successful refresh: the new expiry is now plus `expires_in` seconds (one hour by
      default), it is written into the caller's Google row together with the new access
      token, and no other row and no refresh token changes. */
  lemma RefreshWritesExpiry(rows: OAuthRows, user: Option<Uuid>, refreshToken: Option<string>,
                          exchange: string -> GoogleReply, now: nat)
    requires RefreshGoogleToken(rows, user, refreshToken, exchange, now).result.error.None?
    ensures Truthy(user) && TokenToSend(rows, user.value, refreshToken).Some?
    ensures var reply := exchange(TokenToSend(rows, user.value, refreshToken).value);
      var s := RefreshGoogleToken(rows, user, refreshToken, exchange, now);
      var key := (user.value, GoogleProvider);
      && reply.Reply? && reply.ok
      && s.result.expiresAt == Some(now + Lifetime(reply.expiresIn) * 1000)
      && s.result.accessToken == reply.accessToken
      && (reply.expiresIn.None? ==> s.result.expiresAt == Some(now + 3600 * 1000))
      && s.rows.Keys == rows.Keys
      && (forall k :: k in rows && k != key ==> s.rows[k] == rows[k])
      && (key in rows ==>
            && s.rows[key].expiresAt == s.result.expiresAt.value
            && s.rows[key].refreshToken == rows[key].refreshToken
            && (reply.accessToken.Some? ==> s.rows[key].accessToken == reply.accessToken.value))
  {
  }

  /** ensureFreshToken: the two failures, the stored token reused while fresh, and the
      refresh with the stored refresh token otherwise. */
  lemma EnsureFreshTokenCases(rows: OAuthRows, user: Option<Uuid>, exchange: string -> GoogleReply, now: nat)
    ensures var s := EnsureFreshToken(rows, user, exchange, now);
      && (!Truthy(user) ==> s == Step(rows, Failure("No authenticated user found")))
      && (Truthy(user) && (user.value, GoogleProvider) !in rows ==> s == Step(rows, Failure("No token found")))
      && (Truthy(user) && (user.value, GoogleProvider) in rows ==>
            var row := rows[(user.value, GoogleProvider)];
            && (IsFresh(row, now) ==> s == Step(rows, TokenResult(Some(row.accessToken), None, None)))
            && (!IsFresh(row, now) ==> s == RefreshGoogleToken(rows, user, Some(row.refreshToken), exchange, now)))
  {
  }

  /** Passing the stored refresh token explicitly changes nothing: a stale row is
      refreshed exactly as refreshGoogleToken would refresh it without an argument. */
  lemma StaleRowRefreshesAsWithoutArgument(rows: OAuthRows, user: Option<Uuid>, exchange: string -> GoogleReply, now: nat)
    requires Truthy(user) && (user.value, GoogleProvider) in rows
    requires !IsFresh(rows[(user.value, GoogleProvider)], now)
    ensures EnsureFreshToken(rows, user, exchange, now) == RefreshGoogleToken(rows, user, None, exchange, now)
  {
  }

  /** A refresh whose reply grants more than the five-minute buffer leaves the row fresh:
      asking again at any time before the buffer is reached reuses the new token without
      calling Google. */
  lemma {:induction false} RefreshedRowIsFresh(rows: OAuthRows, user: Option<Uuid>, exchange: string -> GoogleReply,
                                               exchange': string -> GoogleReply, now: nat, later: nat)
    requires Truthy(user) && (user.value, GoogleProvider) in rows
    requires var s := EnsureFreshToken(rows, user, exchange, now);
      s.result.error.None? && s.result.accessToken.Some?
    requires now <= later
    requires var row := rows[(user.value, GoogleProvider)];
      !IsFresh(row, now) ==>
        later + ExpiryBuffer < now + Lifetime(exchange(TokenToSend(rows, user.value, Some(row.refreshToken)).value).expiresIn) * 1000
    requires IsFresh(rows[(user.value, GoogleProvider)], now) ==> IsFresh(rows[(user.value, GoogleProvider)], later)
    ensures var s := EnsureFreshToken(rows, user, exchange, now);
      EnsureFreshToken(s.rows, user, exchange', later) == Step(s.rows, TokenResult(s.result.accessToken, None, None))
  {
    var key := (user.value, GoogleProvider);
    var row := rows[key];
    if !IsFresh(row, now) {
      RefreshWritesExpiry(rows, user, Some(row.refreshToken), exchange, now);
    }
  }
}

/** The actions as the server runs them, over the `oauth_tokens` table. */
module GoogleAuth {
  import opened Common
  import Spec = GoogleAuthSpec

  class OAuthTokenStore {
    var rows: Spec.OAuthRows

    constructor (initial: Spec.OAuthRows)
      ensures rows == initial
    {
      rows := initial;
    }

    method RefreshGoogleToken(user: Option<Uuid>, refreshToken: Option<string>,
                              exchange: string -> Spec.GoogleReply, now: nat)
      returns (r: Spec.TokenResult)
      modifies this
      ensures rows == Spec.RefreshGoogleToken(old(rows), user, refreshToken, exchange, now).rows
      ensures r == Spec.RefreshGoogleToken(old(rows), user, refreshToken, exchange, now).result
    {
      if !Truthy(user) {
        return Spec.Failure("No authenticated user found");
      }
      var userId := user.value;
      var key := (userId, Spec.GoogleProvider);
      var token := refreshToken;
      if !Truthy(token) {
        if key !in rows || rows[key].refreshToken == "" {
          return Spec.Failure("No refresh token found");
        }
        token := Some(rows[key].refreshToken);
      }
      var reply := exchange(token.value);
      if reply.Thrown? {
        return Spec.Failure(reply.message);
      }
      if !reply.ok {
        var message := if Truthy(reply.errorDescription) then reply.errorDescription.value else "Failed to refresh token";
        return Spec.Failure(message);
      }
      var expiresIn := Spec.Lifetime(reply.expiresIn);
      var expiresAt := now;
      expiresAt := expiresAt + expiresIn * 1000;
      if key in rows {
        var row := rows[key];
        if reply.accessToken.Some? {
          row := row.(accessToken := reply.accessToken.value);
        }
        rows := rows[key := row.(expiresAt := expiresAt, updatedAt := now)];
      }
      r := Spec.TokenResult(reply.accessToken, Some(expiresAt), None);
    }

    method EnsureFreshToken(user: Option<Uuid>, exchange: string -> Spec.GoogleReply, now: nat)
      returns (r: Spec.TokenResult)
      modifies this
      ensures rows == Spec.EnsureFreshToken(old(rows), user, exchange, now).rows
      ensures r == Spec.EnsureFreshToken(old(rows), user, exchange, now).result
    {
      if !Truthy(user) {
        return Spec.Failure("No authenticated user found");
      }
      var key := (user.value, Spec.GoogleProvider);
      if key !in rows {
        return Spec.Failure("No token found");
      }
      var row := rows[key];
      if row.expiresAt > now + Spec.ExpiryBuffer {
        return Spec.TokenResult(Some(row.accessToken), None, None);
      }
      r := RefreshGoogleToken(user, Some(row.refreshToken), exchange, now);
    }
  }
}
