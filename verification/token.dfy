/**
 * The pure half of authorization/token.go: the token records, the claims CreateToken
 * signs, bearer-header parsing, and token verification and claim extraction.
 * CreateToken itself writes the session store and lives in module Session.
 */
module Token {
  import opened Wrappers
  import opened Errors
  import opened Decimal
  import opened Strings
  import opened Jwt

  /** time.Minute * 15 and time.Hour * 24 * 7, in seconds. */
  const AccessLifetime: int := 900
  const RefreshLifetime: int := 604800

  datatype TokenDetails = TokenDetails(
    accessToken: string,
    refreshToken: string,
    accessUuid: string,
    refreshUuid: string,
    atExpires: int,
    rtExpires: int)

  datatype AccessDetails = AccessDetails(accessUuid: string, userId: Uint64)

  /** The ACCESS_SECRET and REFRESH_SECRET environment variables (empty when unset). */
  datatype Secrets = Secrets(access: string, refresh: string)

  /** `{user_id, access_uuid, authorized: true, exp}`: it names its session id, carries no
      refresh id, gives back a non-negative user id, and expires after second `atExpires`. */
  function AccessClaims(userId: Int64, accessUuid: string, atExpires: int): (c: Claims)
    ensures "access_uuid" in c && c["access_uuid"] == Text(accessUuid) && "refresh_uuid" !in c
    ensures 0 <= userId ==> UserIdClaim(c) == (userId, None)
    ensures forall now :: ExpiryOk(c, now) <==> atExpires == 0 || now <= atExpires
  {
    map["user_id" := Number(userId), "access_uuid" := Text(accessUuid),
        "authorized" := Boolean(true), "exp" := Number(atExpires)]
  }

  /** `{refresh_uuid, user_id, exp}`: it names its session id, carries no access id, gives
      back a non-negative user id, and expires after second `rtExpires`. */
  function RefreshClaims(userId: Int64, refreshUuid: string, rtExpires: int): (c: Claims)
    ensures "refresh_uuid" in c && c["refresh_uuid"] == Text(refreshUuid) && "access_uuid" !in c
    ensures 0 <= userId ==> UserIdClaim(c) == (userId, None)
    ensures forall now :: ExpiryOk(c, now) <==> rtExpires == 0 || now <= rtExpires
  {
    map["refresh_uuid" := Text(refreshUuid), "user_id" := Number(userId), "exp" := Number(rtExpires)]
  }

  /** The access token as CreateToken signs it: HS256 with the access secret. */
  function AccessJwt(userId: Int64, accessUuid: string, atExpires: int, secrets: Secrets): Jwt {
    Jwt(HS256, AccessClaims(userId, accessUuid, atExpires), secrets.access)
  }

  /** The refresh token as CreateToken signs it: HS256 with the refresh secret. */
  function RefreshJwt(userId: Int64, refreshUuid: string, rtExpires: int, secrets: Secrets): Jwt {
    Jwt(HS256, RefreshClaims(userId, refreshUuid, rtExpires), secrets.refresh)
  }

  /** The keyfunc closure handed to jwt.Parse: an HMAC method gets `secret`, any other
      method is refused. */
  function HmacKeyfunc(secret: string): (keyfunc: Jwt -> Result<string, Error>)
    ensures forall t: Jwt | IsHmac(t.alg) :: keyfunc(t) == Ok(secret)
    ensures forall t: Jwt | !IsHmac(t.alg) :: keyfunc(t) == Err(UnexpectedSigningMethod)
  {
    (t: Jwt) => if IsHmac(t.alg) then Ok(secret) else Err(UnexpectedSigningMethod)
  }

  /**
   * GetAuthToken on the value of the Authorization header: split on " ", and only a
   * header with exactly one space yields something, namely what follows that space.
   */
  function GetAuthToken(header: string): (token: string)
    ensures Count(header, ' ') != 1 ==> token == ""
    ensures Count(header, ' ') == 1 ==>
              |token| < |header| && header[|header| - |token| - 1] == ' '
              && header[|header| - |token|..] == token && ' ' !in token
  {
    if header == "" then ""
    else
      var parts := Split(header, ' ');
      if |parts| == 2 then
        JoinSplit(header, ' ');
        assert header == parts[0] + " " + parts[1];
        parts[1]
      else ""
  }

  /** VerifyToken: parse with the HMAC keyfunc and the access secret. */
  function VerifyToken(codec: Codec, text: string, secrets: Secrets, now: int): (r: Result<Jwt, Error>)
    ensures r.Ok? ==> IsHmac(r.value.alg) && r.value.signingKey == secrets.access
                      && ExpiryOk(r.value.claims, now) && codec.decode(text) == Some(r.value)
    ensures codec.decode(text).Some? && !IsHmac(codec.decode(text).value.alg) ==>
              r == Err(UnexpectedSigningMethod)
    ensures codec.decode(text).Some? && IsHmac(codec.decode(text).value.alg)
            && codec.decode(text).value.signingKey != secrets.access ==>
              r.Err? && r.error.TokenInvalid? && r.error.signatureInvalid
  {
    Parse(codec, text, HmacKeyfunc(secrets.access), now)
  }

  /** TokenValid: nil exactly when VerifyToken succeeds (jwt.Parse returns no error only
      for a valid token, so the `!token.Valid` branch is never taken). */
  function TokenValid(codec: Codec, text: string, secrets: Secrets, now: int): (err: Option<Error>)
    ensures err.None? <==> (codec.decode(text).Some? && IsHmac(codec.decode(text).value.alg)
                            && codec.decode(text).value.signingKey == secrets.access
                            && ExpiryOk(codec.decode(text).value.claims, now))
    ensures codec.decode(text).None? ==> err == Some(Malformed)
  {
    match VerifyToken(codec, text, secrets, now)
    case Err(e) => Some(e)
    case Ok(_) => None
  }

  /** `fmt.Sprintf("%.f", v)` for a claim value: a number prints as an integer, anything
      else as fmt's bad-verb notation. */
  function FormatClaim(v: Option<Json>): (s: string)
    ensures v.Some? && v.value.Number? ==> ParseUint(s) == (if v.value.n < 0 then (0, Some(NumberSyntax))
                                                            else if v.value.n <= MaxUint64 then (v.value.n, None)
                                                            else (MaxUint64, Some(NumberRange)))
    ensures !(v.Some? && v.value.Number?) ==> 1 <= |s| && !IsDigit(s[0])
  {
    match v
    case None => "%!f(<nil>)"
    case Some(Number(n)) => ParseItoa(n); Itoa(n)
    case Some(Text(t)) => "%!f(string=" + t + ")"
    case Some(Boolean(b)) => if b then "%!f(bool=true)" else "%!f(bool=false)"
  }

  /** `strconv.ParseUint(fmt.Sprintf("%.f", claims["user_id"]), 10, 64)`: succeeds exactly
      on a numeric claim in the uint64 range, and then yields that number. */
  function UserIdClaim(claims: Claims): (r: (Uint64, Option<Error>))
    ensures r.1.None? <==> "user_id" in claims && claims["user_id"].Number?
                           && 0 <= claims["user_id"].n <= MaxUint64
    ensures r.1.None? ==> r.0 == claims["user_id"].n
  {
    var v: Option<Json> := if "user_id" in claims then Some(claims["user_id"]) else None;
    match v
    case Some(Number(n)) => ParseItoa(n); ParseUint(FormatClaim(v))
    case _ => ParseUint(FormatClaim(v))
  }

  /**
   * ExtractTokenMetadata: verify the access token, then read `access_uuid` and `user_id`.
   * A verified token without a string `access_uuid` yields no details and, as written,
   * no error either (the `err` returned there is the nil one from VerifyToken).
   */
  function ExtractTokenMetadata(codec: Codec, text: string, secrets: Secrets, now: int): (r: Result<Option<AccessDetails>, Error>)
    ensures r.Ok? <==> VerifyToken(codec, text, secrets, now).Ok?
                       && var claims := VerifyToken(codec, text, secrets, now).value.claims;
                          (!("access_uuid" in claims && claims["access_uuid"].Text?) || UserIdClaim(claims).1.None?)
    ensures VerifyToken(codec, text, secrets, now).Err? ==> r == Err(VerifyToken(codec, text, secrets, now).error)
    ensures VerifyToken(codec, text, secrets, now).Ok? ==>
              var claims := VerifyToken(codec, text, secrets, now).value.claims;
              && (!("access_uuid" in claims && claims["access_uuid"].Text?) ==> r == Ok(None))
              && ("access_uuid" in claims && claims["access_uuid"].Text? ==>
                    r == if UserIdClaim(claims).1.Some? then Err(UserIdClaim(claims).1.value)
                         else Ok(Some(AccessDetails(claims["access_uuid"].s, UserIdClaim(claims).0))))
    ensures r == Ok(None) ==> var claims := VerifyToken(codec, text, secrets, now).value.claims;
              !("access_uuid" in claims && claims["access_uuid"].Text?)
    ensures r.Ok? && r.value.Some? ==>
              var claims := VerifyToken(codec, text, secrets, now).value.claims;
              && "access_uuid" in claims && claims["access_uuid"] == Text(r.value.value.accessUuid)
              && "user_id" in claims && claims["user_id"] == Number(r.value.value.userId)
  {
    match VerifyToken(codec, text, secrets, now)
    case Err(e) => Err(e)
    case Ok(token) =>
      var claims := token.claims;
      if !("access_uuid" in claims && claims["access_uuid"].Text?) then Ok(None)
      else
        var (userId, err) := UserIdClaim(claims);
        if err.Some? then Err(err.value)
        else Ok(Some(AccessDetails(claims["access_uuid"].s, userId)))
  }

  /** An access token that CreateToken signed yields, until it expires, the session id
      and the user id it was issued for. */
  lemma AccessTokenMetadata(codec: Codec, secrets: Secrets, userId: Int64, accessUuid: string, atExpires: int, now: int)
    requires RoundTrips(codec) && codec.sign(AccessJwt(userId, accessUuid, atExpires, secrets)).Some?
    requires 0 <= userId && now <= atExpires
    ensures var text := codec.sign(AccessJwt(userId, accessUuid, atExpires, secrets)).value;
            ExtractTokenMetadata(codec, text, secrets, now) == Ok(Some(AccessDetails(accessUuid, userId)))
  {
    var t := AccessJwt(userId, accessUuid, atExpires, secrets);
    ParseSigned(codec, t, HmacKeyfunc(secrets.access), now);
  }

  /** Once its expiry second has passed, an access token is refused as expired and only
      as expired. */
  lemma AccessTokenExpires(codec: Codec, secrets: Secrets, userId: Int64, accessUuid: string, atExpires: int, now: int)
    requires RoundTrips(codec) && codec.sign(AccessJwt(userId, accessUuid, atExpires, secrets)).Some?
    requires atExpires != 0 && atExpires < now
    ensures var text := codec.sign(AccessJwt(userId, accessUuid, atExpires, secrets)).value;
            TokenValid(codec, text, secrets, now) == Some(TokenInvalid(true, false))
  {
  }

  /** The two secrets keep the two kinds of token apart: when they differ, a refresh
      token never passes as an access token. */
  lemma RefreshTokenIsNoAccessToken(codec: Codec, secrets: Secrets, userId: Int64, refreshUuid: string, rtExpires: int, now: int)
    requires RoundTrips(codec) && codec.sign(RefreshJwt(userId, refreshUuid, rtExpires, secrets)).Some?
    requires secrets.access != secrets.refresh
    ensures var text := codec.sign(RefreshJwt(userId, refreshUuid, rtExpires, secrets)).value;
            VerifyToken(codec, text, secrets, now).Err?
  {
  }

  /** When the two secrets are equal (both variables unset, say), a refresh token passes
      as an access token and, lacking `access_uuid`, yields neither details nor an error. */
  lemma RefreshTokenAsAccessTokenWithSharedSecret(codec: Codec, secrets: Secrets, userId: Int64, refreshUuid: string, rtExpires: int, now: int)
    requires RoundTrips(codec) && codec.sign(RefreshJwt(userId, refreshUuid, rtExpires, secrets)).Some?
    requires secrets.access == secrets.refresh && now <= rtExpires
    ensures var text := codec.sign(RefreshJwt(userId, refreshUuid, rtExpires, secrets)).value;
            ExtractTokenMetadata(codec, text, secrets, now) == Ok(None)
  {
    var t := RefreshJwt(userId, refreshUuid, rtExpires, secrets);
    ParseSigned(codec, t, HmacKeyfunc(secrets.access), now);
  }
}
