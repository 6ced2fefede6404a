/**
 * jwt-go as the authorization package uses it, abstracted symbolically. A token is its
 * header algorithm, its claims and the key it was signed with; the text form is produced
 * and read by an opaque `Codec`, of which only the round-trip property is assumed where a
 * lemma needs it. Signature checking is perfect: a token verifies under a key exactly when
 * it was signed with that key.
 */
module Jwt {
  import opened Wrappers
  import opened Errors

  /** The `alg` header values jwt-go recognises; the RSA, ECDSA and RSA-PSS families are
      each represented by one member. */
  datatype Alg = HS256 | HS384 | HS512 | RS256 | ES256 | PS256

  /** Go's `token.Method.(*jwt.SigningMethodHMAC)` type assertion. */
  predicate IsHmac(alg: Alg) {
    alg.HS256? || alg.HS384? || alg.HS512?
  }

  /** A claim value as encoding/json decodes it into jwt.MapClaims. JSON numbers are
      float64 in Go; the model keeps them as exact integers. */
  datatype Json = Number(n: int) | Text(s: string) | Boolean(b: bool)

  type Claims = map<string, Json>

  /** A signed token: header algorithm, claims, and the key its signature was made with. */
  datatype Jwt = Jwt(alg: Alg, claims: Claims, signingKey: string)

  /** The wire format: `sign` is SignedString (it may fail), `decode` is the unverified
      decoding step at the start of jwt.Parse (it fails on text that is not a JWT). */
  datatype Codec = Codec(sign: Jwt -> Option<string>, decode: string -> Option<Jwt>)

  /** Decoding a text the codec produced gives back the token it was produced from. */
  ghost predicate RoundTrips(codec: Codec) {
    forall t: Jwt | codec.sign(t).Some? :: codec.decode(codec.sign(t).value) == Some(t)
  }

  /** MapClaims.VerifyExpiresAt(now, false): a missing or non-numeric `exp`, or an `exp`
      of 0, passes; otherwise the token is good up to and including second `exp`. */
  predicate ExpiryOk(claims: Claims, now: int) {
    "exp" !in claims || !claims["exp"].Number? || claims["exp"].n == 0 || now <= claims["exp"].n
  }

  /**
   * jwt.Parse(text, keyfunc) with the clock at `now`: decode, ask the keyfunc for the key
   * (a keyfunc error keeps its kind; jwt-go wraps it, keeping its message), then validate the claims and the signature; any failure
   * of these two is one ValidationError carrying both flags. Success is what sets
   * `token.Valid`, so a returned token is always valid.
   */
  function Parse(codec: Codec, text: string, keyfunc: Jwt -> Result<string, Error>, now: int): (r: Result<Jwt, Error>)
    ensures r.Ok? <==> (codec.decode(text).Some? && keyfunc(codec.decode(text).value) == Ok(codec.decode(text).value.signingKey)
                        && ExpiryOk(codec.decode(text).value.claims, now))
    ensures r.Ok? ==> codec.decode(text) == Some(r.value)
    ensures codec.decode(text).None? ==> r == Err(Malformed)
    ensures codec.decode(text).Some? && keyfunc(codec.decode(text).value).Err? ==> r == Err(keyfunc(codec.decode(text).value).error)
  {
    match codec.decode(text)
    case None => Err(Malformed)
    case Some(t) =>
      match keyfunc(t)
      case Err(e) => Err(e)
      case Ok(key) =>
        var expired := !ExpiryOk(t.claims, now);
        var badSignature := t.signingKey != key;
        if expired || badSignature then Err(TokenInvalid(expired, badSignature)) else Ok(t)
  }

  /** A token signed through a round-tripping codec parses back to itself when the keyfunc
      hands out its signing key and it has not expired. */
  lemma ParseSigned(codec: Codec, t: Jwt, keyfunc: Jwt -> Result<string, Error>, now: int)
    requires RoundTrips(codec) && codec.sign(t).Some?
    requires keyfunc(t) == Ok(t.signingKey) && ExpiryOk(t.claims, now)
    ensures Parse(codec, codec.sign(t).value, keyfunc, now) == Ok(t)
  {
  }
}
