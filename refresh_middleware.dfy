/** The token gate: find the caller's stored record, decrypt its access token
    and, when it expires within the safety margin, refresh it once before
    handing the live token to the request context. */
module RefreshMiddleware {
  import opened Base
  import opened Models
  import opened Http
  import opened Store

  /** A token expiring this soon (or sooner) is refreshed first. */
  const RefreshMargin: int := 5 * Minute

  /** The collaborator calls the gate makes, in order. */
  datatype GateCall =
    | Decrypt(ciphertext: string)
    | Refresh(refreshToken: string)
    | WriteBack(user: User)

  /** The handler `TokenRefreshMiddleware` wraps around `next`.
      `key` is whatever decoding the configured key produced, `now` the clock,
      `decrypt` and `refresh` stand for `DecryptAccessToken` and
      `RefreshAccessToken`, and the faults are the database's answers to the
      lookup and to the write-back. */
  method TokenRefreshMiddleware(
    ctx: Context, repo: UserRepository, key: Key, now: Time,
    decrypt: (string, Key) -> Result<string>, refresh: string -> Result<OAuthToken>,
    lookupFault: Option<string>, writeFault: Option<string>)
    returns (out: Outcome, calls: seq<GateCall>)
    requires GoogleIdKey in ctx.values
    requires repo.Valid()
    modifies ctx, repo
    ensures repo.Valid() && repo.nextId == old(repo.nextId)
    // lookup failed: nothing else happens
    ensures !old(repo.GetByGoogleID(ctx.values[GoogleIdKey], lookupFault)).Found? ==>
      out == HttpError(StatusUnauthorized, "user not found") && calls == []
      && repo.users == old(repo.users) && ctx.values == old(ctx.values)
    ensures old(repo.GetByGoogleID(ctx.values[GoogleIdKey], lookupFault)).Found? ==>
      var u := old(repo.GetByGoogleID(ctx.values[GoogleIdKey], lookupFault)).user;
      var plain := decrypt(u.accessToken, key);
      && |calls| >= 1 && calls[0] == Decrypt(u.accessToken)
      // decryption failed
      && (plain.Err? ==>
            out == HttpError(StatusBadRequest, "failed to decrypt access token") && calls == [Decrypt(u.accessToken)]
            && repo.users == old(repo.users) && ctx.values == old(ctx.values))
      // far from expiry: no refresh, the stored token goes on
      && (plain.Ok? && u.expiry - now > RefreshMargin ==>
            out == CalledNext && calls == [Decrypt(u.accessToken)]
            && repo.users == old(repo.users) && ctx.values == old(ctx.values)[AccessTokenKey := plain.value])
      // near expiry: exactly one refresh, with the stored refresh token
      && (plain.Ok? && u.expiry - now <= RefreshMargin ==>
            |calls| >= 2 && calls[1] == Refresh(u.refreshToken)
            && (refresh(u.refreshToken).Err? ==>
                  out == HttpError(StatusUnauthorized, "Token refresh failed") && calls == calls[..2]
                  && repo.users == old(repo.users) && ctx.values == old(ctx.values))
            && (refresh(u.refreshToken).Ok? ==>
                  var tok := refresh(u.refreshToken).value;
                  var written := u.(expiry := tok.expiry);
                  out == CalledNext && calls == [Decrypt(u.accessToken), Refresh(u.refreshToken), WriteBack(written)]
                  && ctx.values == old(ctx.values)[AccessTokenKey := tok.accessToken]
                  && repo.users == (if writeFault.None? then old(repo.users)[u.googleId := written] else old(repo.users))))
    ensures out == CalledNext <==>
      old(repo.GetByGoogleID(ctx.values[GoogleIdKey], lookupFault)).Found?
      && var u := old(repo.GetByGoogleID(ctx.values[GoogleIdKey], lookupFault)).user;
      && decrypt(u.accessToken, key).Ok?
      && (u.expiry - now <= RefreshMargin ==> refresh(u.refreshToken).Ok?)
  {
    var googleId := ctx.values[GoogleIdKey];
    var found := repo.GetByGoogleID(googleId, lookupFault);
    if !found.Found? {
      return HttpError(StatusUnauthorized, "user not found"), [];
    }
    var u := found.user;
    calls := [Decrypt(u.accessToken)];
    var decrypted := decrypt(u.accessToken, key);
    if decrypted.Err? {
      return HttpError(StatusBadRequest, "failed to decrypt access token"), calls;
    }
    var accessToken := decrypted.value;
    SubComparesLikeDifference(u.expiry, now, RefreshMargin);
    if Sub(u.expiry, now) <= RefreshMargin {
      calls := calls + [Refresh(u.refreshToken)];
      var tok := refresh(u.refreshToken);
      if tok.Err? {
        return HttpError(StatusUnauthorized, "Token refresh failed"), calls;
      }
      accessToken := tok.value.accessToken;
      ctx.Set(AccessTokenKey, accessToken);
      u := u.(expiry := tok.value.expiry);
      calls := calls + [WriteBack(u)];
      var err := repo.Update(u, writeFault);
      // a failed write-back is only logged
    }
    ctx.Set(AccessTokenKey, accessToken);
    out := CalledNext;
  }
}
