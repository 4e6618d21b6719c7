/** Login-time user handling: store the provider's token pair for a Google
    identity (updating or creating its record) and issue the session claims. */
module UserService {
  import opened Base
  import opened Models
  import opened Store

  // ---------------------------------------------------------------------------
  // Decimal rendering of the numeric user id (`strconv.FormatUint(_, 10)`)

  predicate IsDigit(c: char)
  {
    '0' <= c <= '9'
  }

  function DigitChar(d: nat): (c: char)
    requires d < 10
    ensures IsDigit(c) && c as int - '0' as int == d
  {
    ('0' as int + d) as char
  }

  function DigitValue(c: char): (d: nat)
    requires IsDigit(c)
    ensures d < 10 && DigitChar(d) == c
  {
    c as int - '0' as int
  }

  /** Base-10 digits of `n`, most significant first, without leading zeros. */
  function FormatUint(n: nat): (s: string)
    ensures |s| > 0
    ensures forall i :: 0 <= i < |s| ==> IsDigit(s[i])
    ensures s[0] == '0' ==> n == 0 && s == "0"
    decreases n
  {
    if n < 10 then [DigitChar(n)] else FormatUint(n / 10) + [DigitChar(n % 10)]
  }

  /** The number a string of decimal digits denotes. */
  function ParseDecimal(s: string): nat
    requires forall i :: 0 <= i < |s| ==> IsDigit(s[i])
  {
    if s == [] then 0 else ParseDecimal(s[..|s| - 1]) * 10 + DigitValue(s[|s| - 1])
  }

  /** Reading the rendering back gives the number. */
  lemma {:induction false} ParseFormatUint(n: nat)
    ensures ParseDecimal(FormatUint(n)) == n
    decreases n
  {
    if n >= 10 {
      var prefix := FormatUint(n / 10);
      assert (prefix + [DigitChar(n % 10)])[..|prefix|] == prefix;
      ParseFormatUint(n / 10);
    }
  }

  /** So distinct user ids give distinct `user_id` claims. */
  lemma FormatUintInjective(m: nat, n: nat)
    requires FormatUint(m) == FormatUint(n)
    ensures m == n
  {
    ParseFormatUint(m);
    ParseFormatUint(n);
  }

  // ---------------------------------------------------------------------------
  // ProcessGoogleUser

  const KeyNotSet: string := "ENCRYPTION_SECRET_KEY is not set"
  const KeyDecodeFailed: string := "failed to decode encryption key: "

  /** The collaborator and store calls made while processing a login, in order. */
  datatype LoginCall =
    | Encrypt(plaintext: string)
    | Lookup(googleId: string)
    | CreateFolder(googleId: string)
    | SaveExisting(user: User)
    | CreateNew(user: User)

  /** Lines 70-83: check and decode the configured key, then encrypt the access token.
      `decodeKey` stands for base64 decoding and `encrypt` for `EncryptAccessToken`. */
  function SealAccessToken(
    encodedKey: string, decodeKey: string -> Result<Key>, encrypt: (string, Key) -> Result<string>,
    accessToken: string): (r: Result<string>)
    ensures encodedKey == "" ==> r == Err(KeyNotSet)
    ensures encodedKey != "" && decodeKey(encodedKey).Err? ==> r == Err(KeyDecodeFailed + decodeKey(encodedKey).error)
    ensures r.Ok? <==> encodedKey != "" && decodeKey(encodedKey).Ok? && encrypt(accessToken, decodeKey(encodedKey).value).Ok?
    ensures r.Ok? ==> r == encrypt(accessToken, decodeKey(encodedKey).value)
  {
    if encodedKey == "" then Err(KeyNotSet)
    else
      var key := decodeKey(encodedKey);
      if key.Err? then Err(KeyDecodeFailed + key.error)
      else encrypt(accessToken, key.value)
  }

  /** `ProcessGoogleUser`: upsert the record of `info.id` with the login's tokens.
      `createFolder` stands for `CreateFolderId`; the faults are the database's
      answers to the lookup and to the one write. */
  method ProcessGoogleUser(
    repo: UserRepository, info: GoogleUserInfo, token: OAuthToken,
    encodedKey: string, decodeKey: string -> Result<Key>, encrypt: (string, Key) -> Result<string>,
    createFolder: string -> Result<string>, lookupFault: Option<string>, writeFault: Option<string>)
    returns (res: Result<User>, calls: seq<LoginCall>)
    requires repo.Valid()
    modifies repo
    ensures repo.Valid()
    // the store changes only by one whole record under info.id, and only on success
    ensures res.Ok? ==> repo.users == old(repo.users)[info.id := res.value] && res.value.googleId == info.id
    ensures res.Err? ==> repo.users == old(repo.users)
    // only a newly created record takes an id
    ensures repo.nextId == if res.Ok? && old(repo.GetByGoogleID(info.id, lookupFault)).NotFound?
                           then old(repo.nextId) + 1 else old(repo.nextId)
    // key or cipher failure: no store access at all
    ensures var sealed := SealAccessToken(encodedKey, decodeKey, encrypt, token.accessToken);
      sealed.Err? ==>
        res == Err(sealed.error)
        && calls == (if encodedKey != "" && decodeKey(encodedKey).Ok? then [Encrypt(token.accessToken)] else [])
    ensures var sealed := SealAccessToken(encodedKey, decodeKey, encrypt, token.accessToken);
      var found := old(repo.GetByGoogleID(info.id, lookupFault));
      sealed.Ok? ==>
        && |calls| >= 2 && calls[..2] == [Encrypt(token.accessToken), Lookup(info.id)]
        // an existing record: folder only if it has none, then all token fields replaced
        && (found.Found? ==>
              var prior := found.user;
              var folder := if prior.folderId == "" then createFolder(info.id) else Ok(prior.folderId);
              && (prior.folderId != "" ==> CreateFolder(info.id) !in calls)
              && (folder.Err? ==>
                    res == Err(folder.error) && calls == [Encrypt(token.accessToken), Lookup(info.id), CreateFolder(info.id)])
              && (folder.Ok? ==>
                    var updated := prior.(folderId := folder.value, name := info.name, email := info.email,
                                          refreshToken := token.refreshToken, accessToken := sealed.value,
                                          expiry := token.expiry);
                    && updated.id == prior.id && updated.googleId == info.id
                    && calls == [Encrypt(token.accessToken), Lookup(info.id)]
                                + (if prior.folderId == "" then [CreateFolder(info.id)] else [])
                                + [SaveExisting(updated)]
                    && res == (if writeFault.None? then Ok(updated) else Err(writeFault.value))))
        // a database error other than "not found" is passed on
        && (found.Failed? ==>
              res == Err(found.error) && calls == [Encrypt(token.accessToken), Lookup(info.id)])
        // no record: a folder first, then one new record built from the inputs
        && (found.NotFound? ==>
              && |calls| >= 3 && calls[2] == CreateFolder(info.id)
              && (createFolder(info.id).Err? ==>
                    res == Err(createFolder(info.id).error) && |calls| == 3)
              && (createFolder(info.id).Ok? ==>
                    var newUser := User(0, info.id, createFolder(info.id).value, info.email, token.refreshToken,
                                      sealed.value, token.expiry, info.name);
                    && calls == [Encrypt(token.accessToken), Lookup(info.id), CreateFolder(info.id), CreateNew(newUser)]
                    && res == (if writeFault.None? then Ok(newUser.(id := old(repo.nextId))) else Err(writeFault.value))))
  {
    calls := [];
    if encodedKey == "" {
      return Err(KeyNotSet), calls;
    }
    var key := decodeKey(encodedKey);
    if key.Err? {
      return Err(KeyDecodeFailed + key.error), calls;
    }
    calls := calls + [Encrypt(token.accessToken)];
    var sealed := encrypt(token.accessToken, key.value);
    if sealed.Err? {
      return Err(sealed.error), calls;
    }

    calls := calls + [Lookup(info.id)];
    var found := repo.GetByGoogleID(info.id, lookupFault);
    if found.Found? {
      var existing := found.user;
      if existing.folderId == "" {
        calls := calls + [CreateFolder(info.id)];
        var folder := createFolder(info.id);
        if folder.Err? {
          return Err(folder.error), calls;
        }
        existing := existing.(folderId := folder.value);
      }
      existing := existing.(name := info.name, email := info.email, refreshToken := token.refreshToken,
                            accessToken := sealed.value, expiry := token.expiry);
      calls := calls + [SaveExisting(existing)];
      var err := repo.Update(existing, writeFault);
      if err.Some? {
        return Err(err.value), calls;
      }
      return Ok(existing), calls;
    }

    if found.Failed? {
      return Err(found.error), calls;
    }

    calls := calls + [CreateFolder(info.id)];
    var folder := createFolder(info.id);
    if folder.Err? {
      return Err(folder.error), calls;
    }
    var newUser := User(0, info.id, folder.value, info.email, token.refreshToken, sealed.value, token.expiry, info.name);
    calls := calls + [CreateNew(newUser)];
    var created, err := repo.Create(newUser, writeFault);
    if err.Some? {
      return Err(err.value), calls;
    }
    return Ok(created), calls;
  }

  // ---------------------------------------------------------------------------
  // GenerateJWT

  const SessionLifetime: int := 24 * Hour

  /** The claims of a session for `user` issued at `now`; the JWT library keeps
      the expiry as a whole-second numeric date. */
  function SessionClaims(user: User, now: Time): (c: Claims)
    ensures forall i :: 0 <= i < |c.userId| ==> IsDigit(c.userId[i])
    ensures ParseDecimal(c.userId) == user.id
    ensures c.googleId == user.googleId && c.folderId == user.folderId
    ensures c.expiresAt.Some?
    ensures c.expiresAt.value <= now + SessionLifetime < c.expiresAt.value + Second
    ensures c.userId == FormatUint(user.id)
    ensures c.expiresAt == Some(TruncateToSecond(now + SessionLifetime))
  {
    ParseFormatUint(user.id);
    Claims(FormatUint(user.id), user.googleId, user.folderId, Some(TruncateToSecond(now + SessionLifetime)))
  }

  /** The signed token, the expiry reported to the client, and the signing error if any. */
  datatype SignedSession = SignedSession(token: string, expiresAt: Time, error: Option<string>)

  /** `GenerateJWT`: `sign` stands for HS256 signing with `secret`; on a signing
      error the source reports the clock read a second time, `clockOnError`. */
  function GenerateJWT(user: User, now: Time, clockOnError: Time, secret: string,
                       sign: (Claims, string) -> Result<string>): (r: SignedSession)
    ensures var signed := sign(SessionClaims(user, now), secret);
      && (signed.Ok? ==> r == SignedSession(signed.value, now + SessionLifetime, None))
      && (signed.Err? ==> r == SignedSession("", clockOnError, Some(signed.error)))
    ensures r.error.None? ==>
      r.expiresAt - now == SessionLifetime
      && SessionClaims(user, now).expiresAt.value <= r.expiresAt < SessionClaims(user, now).expiresAt.value + Second
  {
    var signed := sign(SessionClaims(user, now), secret);
    if signed.Err? then SignedSession("", clockOnError, Some(signed.error))
    else SignedSession(signed.value, now + SessionLifetime, None)
  }

  /** Sessions of users with different ids never share a `user_id` claim. */
  lemma SessionClaimsDistinguishUsers(u1: User, u2: User, now1: Time, now2: Time)
    requires u1.id != u2.id
    ensures SessionClaims(u1, now1).userId != SessionClaims(u2, now2).userId
  {
  }
}
