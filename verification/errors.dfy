/**
 * Every error value that the authorization package and the user resolvers can return,
 * as one flat enumeration. The Go code passes these around as `error` values; the model
 * keeps only which kind of error it is.
 */
module Errors {

  datatype Error =
    /** jwt-go: the token text is not a JWT it can decode. */
    | Malformed
    /** The keyfunc's "unexpected signing method" error: the header names a non-HMAC algorithm. */
    | UnexpectedSigningMethod
    /** jwt-go's ValidationError after a key was found: the exp claim lies in the past
        and/or the signature does not verify under the key (at least one of the two holds). */
    | TokenInvalid(expired: bool, signatureInvalid: bool)
    /** SignedString failed. */
    | SigningFailed
    /** strconv.ParseUint: a character that is not a decimal digit, or an empty string. */
    | NumberSyntax
    /** strconv.ParseUint: the value does not fit in 64 bits. */
    | NumberRange
    /** go-redis `redis.Nil`: the key is absent (never set, deleted or expired). */
    | StoreNil
    /** Any other failure of a command sent to the store (connection lost, timeout, ...). */
    | StoreUnavailable
    /** "unable to use refresh token multiple times" */
    | RefreshReused
    /** "auth required" (Update) */
    | AuthRequired
    /** "undefined user_id" (Update) */
    | UndefinedUserId
    /** "refresh token required" (RefreshToken) */
    | RefreshTokenRequired
    /** Not a returned error: the goroutine panics on a nil pointer dereference. */
    | NilDereference
}
