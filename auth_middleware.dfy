/** The session gate: the Authorization header must carry a bearer token that
    the JWT validator accepts; its claims identify the caller to later stages. */
module AuthMiddleware {
  import opened Base
  import opened Models
  import opened Http
  import opened Bearer

  /** The handler `JWTMiddleware` wraps around `next`. `authorization` is the
      header's value ("" when absent); `validate` stands for `ValidateJWT`.
      `validated` lists the strings handed to the validator. */
  method JWTMiddleware(ctx: Context, authorization: string, validate: string -> Result<Claims>)
    returns (out: Outcome, validated: seq<string>)
    modifies ctx
    ensures authorization == "" ==>
      out == JsonError(StatusUnauthorized, "Missing authorization header")
      && validated == [] && ctx.values == old(ctx.values)
    ensures authorization != "" && !HasPrefix(authorization, Prefix) ==>
      out == JsonError(StatusUnauthorized, "Invalid authorization header format")
      && validated == [] && ctx.values == old(ctx.values)
    ensures authorization != "" && HasPrefix(authorization, Prefix) ==>
      |validated| == 1 && Prefix + validated[0] == authorization
    ensures |validated| == 1 && validate(validated[0]).Err? ==>
      out == JsonError(StatusUnauthorized, "Invalid token") && ctx.values == old(ctx.values)
    ensures |validated| == 1 && validate(validated[0]).Ok? ==>
      var claims := validate(validated[0]).value;
      out == CalledNext
      && ctx.values == old(ctx.values)[UserIdKey := claims.userId][GoogleIdKey := claims.googleId]
    ensures out == CalledNext <==>
      authorization != "" && HasPrefix(authorization, Prefix) && validate(TrimPrefix(authorization, Prefix)).Ok?
  {
    if authorization == "" {
      return JsonError(StatusUnauthorized, "Missing authorization header"), [];
    }
    var tokenString := TrimPrefix(authorization, Prefix);
    if tokenString == authorization {
      return JsonError(StatusUnauthorized, "Invalid authorization header format"), [];
    }
    validated := [tokenString];
    var claims := validate(tokenString);
    if claims.Err? {
      return JsonError(StatusUnauthorized, "Invalid token"), validated;
    }
    ctx.Set(UserIdKey, claims.value.userId);
    ctx.Set(GoogleIdKey, claims.value.googleId);
    out := CalledNext;
  }

  /** For every header the gate accepts as well formed, the bearer helper extracts
      exactly the token the gate validates. */
  lemma GateAndHelperAgree(authorization: string)
    requires authorization != "" && TrimPrefix(authorization, Prefix) != authorization
    ensures GetBearerToken(authorization) == TrimPrefix(authorization, Prefix)
    ensures Prefix + GetBearerToken(authorization) == authorization
  {
  }
}
