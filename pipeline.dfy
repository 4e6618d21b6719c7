/** The `/calendar` route group: the session gate runs first, then the token
    gate, then the route's handler. */
module Pipeline {
  import opened Base
  import opened Models
  import opened Http
  import opened Store
  import opened Bearer
  import opened AuthMiddleware
  import opened RefreshMiddleware

  /** One request through both gates. The token gate only ever reads the
      `google_id` the session gate has just written. */
  method CalendarGroup(
    ctx: Context, authorization: string, validate: string -> Result<Claims>,
    repo: UserRepository, key: Key, now: Time,
    decrypt: (string, Key) -> Result<string>, refresh: string -> Result<OAuthToken>,
    lookupFault: Option<string>, writeFault: Option<string>)
    returns (out: Outcome, validated: seq<string>, calls: seq<GateCall>)
    requires repo.Valid()
    modifies ctx, repo
    ensures repo.Valid()
    // a request the session gate turns away never reaches the store or the cipher
    ensures (authorization == "" || !HasPrefix(authorization, Prefix)
             || validate(TrimPrefix(authorization, Prefix)).Err?) ==>
      out.JsonError? && out.status == StatusUnauthorized && calls == [] && repo.users == old(repo.users)
    // an accepted request carries the claims' identities and a live token
    ensures out == CalledNext ==>
      authorization != "" && HasPrefix(authorization, Prefix)
      && validate(TrimPrefix(authorization, Prefix)).Ok?
      && var claims := validate(TrimPrefix(authorization, Prefix)).value;
      && ctx.values.Keys == old(ctx.values).Keys + {UserIdKey, GoogleIdKey, AccessTokenKey}
      && ctx.values[UserIdKey] == claims.userId
      && ctx.values[GoogleIdKey] == claims.googleId
      && old(repo.GetByGoogleID(claims.googleId, lookupFault)).Found?
      && var u := old(repo.GetByGoogleID(claims.googleId, lookupFault)).user;
      && decrypt(u.accessToken, key).Ok?
      && (u.expiry - now <= RefreshMargin ==> refresh(u.refreshToken).Ok?)
      && ctx.values[AccessTokenKey]
         == if u.expiry - now > RefreshMargin then decrypt(u.accessToken, key).value
            else refresh(u.refreshToken).value.accessToken
    // every rejection is a 401, except a 400 for an undecryptable stored token
    ensures out != CalledNext ==>
      out.status == StatusUnauthorized || out == HttpError(StatusBadRequest, "failed to decrypt access token")
  {
    out, validated := JWTMiddleware(ctx, authorization, validate);
    calls := [];
    if out != CalledNext {
      return;
    }
    out, calls := TokenRefreshMiddleware(ctx, repo, key, now, decrypt, refresh, lookupFault, writeFault);
  }

  /** After a successful refresh the store holds the new expiry next to the OLD
      ciphertext, so a second request inside the new validity window decrypts
      and serves the old access token without refreshing. */
  method StaleTokenOnNextRequest(
    repo: UserRepository, googleId: string, key: Key, now: Time, later: Time,
    decrypt: (string, Key) -> Result<string>, refresh: string -> Result<OAuthToken>)
    returns (first: string, second: string)
    requires repo.Valid() && googleId in repo.users
    requires decrypt(repo.users[googleId].accessToken, key).Ok?
    requires repo.users[googleId].expiry - now <= RefreshMargin
    requires refresh(repo.users[googleId].refreshToken).Ok?
    requires refresh(repo.users[googleId].refreshToken).value.expiry - later > RefreshMargin
    modifies repo
    ensures first == refresh(old(repo.users[googleId]).refreshToken).value.accessToken
    ensures second == decrypt(old(repo.users[googleId]).accessToken, key).value
    ensures googleId in repo.users
    ensures repo.users[googleId].accessToken == old(repo.users[googleId]).accessToken
    ensures repo.users[googleId].expiry == refresh(old(repo.users[googleId]).refreshToken).value.expiry
  {
    var ctx1 := new Context(map[GoogleIdKey := googleId]);
    var out1, calls1 := TokenRefreshMiddleware(ctx1, repo, key, now, decrypt, refresh, None, None);
    first := ctx1.values[AccessTokenKey];
    var ctx2 := new Context(map[GoogleIdKey := googleId]);
    var out2, calls2 := TokenRefreshMiddleware(ctx2, repo, key, later, decrypt, refresh, None, None);
    second := ctx2.values[AccessTokenKey];
  }
}
