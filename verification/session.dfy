/**
 * The store-touching half of the authorization package: FetchAuth, createRedisAuth,
 * DeleteAuthFromRedis and Refresh from authorization/redis.go, and CreateToken from
 * authorization/token.go. Each operation is a method on the store client, proved equal to
 * a specification function over store values; the properties are lemmas about those
 * functions.
 *
 * A refresh-session key is LIVE while its value is the decimal user id, ROTATED once
 * Refresh has overwritten it with the successor refresh id (the tripwire), and ABSENT
 * when deleted or expired. Refresh tells ROTATED from LIVE by the value's length alone.
 */
module Session {
  import opened Wrappers
  import opened Errors
  import opened Decimal
  import opened Jwt
  import opened KeyValue
  import opened Token

  /** The two session ids CreateToken draws with uuid.New().String(), in drawing order. */
  datatype Uuids = Uuids(access: string, refresh: string)

  predicate IsHexDigit(c: char) {
    '0' <= c <= '9' || 'a' <= c <= 'f'
  }

  /** The canonical 8-4-4-4-12 text of a UUID, 36 characters long. */
  predicate IsUuid(s: string) {
    |s| == 36 &&
    forall i | 0 <= i < 36 :: if i == 8 || i == 13 || i == 18 || i == 23 then s[i] == '-' else IsHexDigit(s[i])
  }

  /** Two calls of uuid.New(): well-formed and distinct. */
  predicate WellDrawn(ids: Uuids) {
    IsUuid(ids.access) && IsUuid(ids.refresh) && ids.access != ids.refresh
  }

  /** Random ids that have never been keys of the store. */
  predicate FreshIn(ids: Uuids, s: Store) {
    WellDrawn(ids) && ids.access !in s.entries && ids.refresh !in s.entries
  }

  /** The two tokens Refresh hands back (its `access_token`/`refresh_token` map). */
  datatype Tokens = Tokens(accessToken: string, refreshToken: string)

  /** The lifetime Refresh gives the tripwire it leaves on the old refresh id
      (time.Hour * 24 * 7). */
  const TripwireLifetime: int := 604800

  /** A value of this length or more is taken for a successor id, not a user id. */
  const RotatedMinLength: int := 36

  /** `strconv.Itoa(int(userid))`: the value createRedisAuth stores for a session. */
  function StoredUserId(userid: Uint64): (s: string)
    ensures |s| < RotatedMinLength
    ensures ParseUint(s) == if userid < 0x8000_0000_0000_0000 then (userid, None) else (0, Some(NumberSyntax))
  {
    ParseItoa(Int64FromUint64(userid));
    ItoaInt64Length(Int64FromUint64(userid));
    Itoa(Int64FromUint64(userid))
  }

  // ---------------------------------------------------------------- FetchAuth

  function FetchAuthSpec(s: Store, authD: AccessDetails, now: int): (Uint64, Option<Error>, Store) {
    var (got, after) := GetCmd(s, authD.accessUuid, now);
    match got
    case Err(e) => (0, Some(e), after)
    case Ok(v) => (ParseUint(v).0, None, after)
  }

  /** FetchAuth: the user id stored under the access session id; the parse error is
      dropped, so the id is whatever ParseUint leaves. */
  method FetchAuth(authD: AccessDetails, client: SessionStore, now: int) returns (userId: Uint64, err: Option<Error>)
    modifies client
    ensures (userId, err, client.Snapshot()) == FetchAuthSpec(old(client.Snapshot()), authD, now)
  {
    var redisUserId := client.Get(authD.accessUuid, now);
    if redisUserId.Err? {
      return 0, Some(redisUserId.error);
    }
    var (parsed, _) := ParseUint(redisUserId.value);
    return parsed, None;
  }

  /** Reading never changes the data; an absent session gives user id 0 and an error. */
  lemma FetchAuthAbsent(s: Store, authD: AccessDetails, now: int)
    requires Lookup(s.entries, authD.accessUuid, now).None?
    ensures var (userId, err, after) := FetchAuthSpec(s, authD, now);
            userId == 0 && err == Some(if NextFails(s) then StoreUnavailable else StoreNil)
            && after.entries == s.entries
  {
  }

  /** A session created for user `u` resolves to `u`, unless `u` is 2^63 or more: then
      the stored text is negative and the dropped parse error leaves 0. */
  lemma FetchAuthOfStoredId(s: Store, authD: AccessDetails, now: int, u: Uint64)
    requires !NextFails(s) && Lookup(s.entries, authD.accessUuid, now) == Some(StoredUserId(u))
    ensures var (userId, err, _) := FetchAuthSpec(s, authD, now);
            err.None? && userId == if u < 0x8000_0000_0000_0000 then u else 0
  {
    ParseItoa(Int64FromUint64(u));
  }

  /** A stored value that is not a number (a word, a UUID) silently resolves to user 0
      with no error. */
  lemma FetchAuthNonNumeric(s: Store, authD: AccessDetails, now: int, k: nat)
    requires !NextFails(s) && Lookup(s.entries, authD.accessUuid, now).Some?
    requires var v := Lookup(s.entries, authD.accessUuid, now).value;
             k < |v| && k <= 19 && !IsDigit(v[k]) && AllDigits(v[..k])
    ensures var (userId, err, _) := FetchAuthSpec(s, authD, now);
            userId == 0 && err.None?
  {
    ParseNonNumeric(Lookup(s.entries, authD.accessUuid, now).value, k);
  }

  // ---------------------------------------------------------------- createRedisAuth

  function CreateRedisAuthSpec(s: Store, userid: Uint64, td: TokenDetails, now: int): (Option<Error>, Store) {
    var (errAccess, s1) := SetCmd(s, td.accessUuid, StoredUserId(userid), td.atExpires - now, now);
    if errAccess.Some? then (errAccess, s1)
    else SetCmd(s1, td.refreshUuid, StoredUserId(userid), td.rtExpires - now, now)
  }

  /** createRedisAuth: register both session ids under the user id, each with the time
      left until its token's expiry as time-to-live. */
  method CreateRedisAuth(userid: Uint64, td: TokenDetails, client: SessionStore, now: int) returns (err: Option<Error>)
    modifies client
    ensures (err, client.Snapshot()) == CreateRedisAuthSpec(old(client.Snapshot()), userid, td, now)
  {
    var value := StoredUserId(userid);
    var errAccess := client.Set(td.accessUuid, value, td.atExpires - now, now);
    if errAccess.Some? {
      return errAccess;
    }
    var errRefresh := client.Set(td.refreshUuid, value, td.rtExpires - now, now);
    if errRefresh.Some? {
      return errRefresh;
    }
    return None;
  }

  /** The session entries createRedisAuth writes. */
  function Registered(entries: map<string, Entry>, userid: Uint64, td: TokenDetails, now: int): map<string, Entry> {
    entries[td.accessUuid := Entry(StoredUserId(userid), ExpiryAfter(td.atExpires - now, now))]
           [td.refreshUuid := Entry(StoredUserId(userid), ExpiryAfter(td.rtExpires - now, now))]
  }

  /** On success both ids hold the user id and nothing else changed; on failure either
      nothing was written or only the access id was (a failed first write stops it). */
  lemma CreateRedisAuthEffect(s: Store, userid: Uint64, td: TokenDetails, now: int)
    ensures var (err, after) := CreateRedisAuthSpec(s, userid, td, now);
            && (err.None? ==> after.entries == Registered(s.entries, userid, td, now))
            && (err.Some? ==> err.value == StoreUnavailable
                              && (after.entries == s.entries
                                  || after.entries == s.entries[td.accessUuid := Entry(StoredUserId(userid), ExpiryAfter(td.atExpires - now, now))]))
            && (NextFails(s) ==> err.Some? && after.entries == s.entries)
            && (Reliable(s) ==> err.None? && Reliable(after))
  {
    if Reliable(s) {
      AdvanceReliable(s);
      AdvanceReliable(s.(faults := Advance(s.faults)));
    }
  }

  // ---------------------------------------------------------------- DeleteAuthFromRedis

  function DeleteAuthSpec(s: Store, givenUuid: string, now: int): (int, Option<Error>, Store) {
    var (deleted, after) := DelCmd(s, givenUuid, now);
    match deleted
    case Err(e) => (0, Some(e), after)
    case Ok(n) => (n, None, after)
  }

  /** DeleteAuthFromRedis: remove a session id, reporting how many live keys went. */
  method DeleteAuthFromRedis(givenUuid: string, client: SessionStore, now: int) returns (deleted: int, err: Option<Error>)
    modifies client
    ensures (deleted, err, client.Snapshot()) == DeleteAuthSpec(old(client.Snapshot()), givenUuid, now)
  {
    var r := client.Del(givenUuid, now);
    if r.Err? {
      return 0, Some(r.error);
    }
    return r.value, None;
  }

  /** Deleting is idempotent: the first delete reports 1 for a live session (0 for an
      absent one), the key is gone afterwards, and a second delete reports 0 without error. */
  lemma DeleteIdempotent(s: Store, key: string, now: int)
    requires Reliable(s)
    ensures var (n1, e1, s1) := DeleteAuthSpec(s, key, now);
            var (n2, e2, s2) := DeleteAuthSpec(s1, key, now);
            && e1.None? && n1 == (if Lookup(s.entries, key, now).Some? then 1 else 0)
            && key !in s1.entries && s1.entries == s.entries - {key}
            && e2.None? && n2 == 0 && s2.entries == s1.entries
  {
    AdvanceReliable(s);
  }

  // ---------------------------------------------------------------- CreateToken

  function CreateTokenSpec(s: Store, userId: Int64, ids: Uuids, now: int, secrets: Secrets, codec: Codec): (Result<TokenDetails, Error>, Store) {
    var atExpires := now + AccessLifetime;
    var rtExpires := now + RefreshLifetime;
    match codec.sign(AccessJwt(userId, ids.access, atExpires, secrets))
    case None => (Err(SigningFailed), s)
    case Some(accessToken) =>
      match codec.sign(RefreshJwt(userId, ids.refresh, rtExpires, secrets))
      case None => (Err(SigningFailed), s)
      case Some(refreshToken) =>
        var td := TokenDetails(accessToken, refreshToken, ids.access, ids.refresh, atExpires, rtExpires);
        var (err, after) := CreateRedisAuthSpec(s, Uint64FromInt64(userId), td, now);
        if err.Some? then (Err(err.value), after) else (Ok(td), after)
  }

  /** CreateToken: draw the two session ids, sign the access and refresh tokens, then
      register both sessions. */
  method CreateToken(userId: Int64, client: SessionStore, ids: Uuids, now: int, secrets: Secrets, codec: Codec)
    returns (r: Result<TokenDetails, Error>)
    modifies client
    ensures (r, client.Snapshot()) == CreateTokenSpec(old(client.Snapshot()), userId, ids, now, secrets, codec)
  {
    var atExpires := now + AccessLifetime;
    var accessUuid := ids.access;
    var rtExpires := now + RefreshLifetime;
    var refreshUuid := ids.refresh;

    var accessToken := codec.sign(AccessJwt(userId, accessUuid, atExpires, secrets));
    if accessToken.None? {
      return Err(SigningFailed);
    }
    var refreshToken := codec.sign(RefreshJwt(userId, refreshUuid, rtExpires, secrets));
    if refreshToken.None? {
      return Err(SigningFailed);
    }
    var td := TokenDetails(accessToken.value, refreshToken.value, accessUuid, refreshUuid, atExpires, rtExpires);
    var err := CreateRedisAuth(Uint64FromInt64(userId), td, client, now);
    if err.Some? {
      return Err(err.value);
    }
    return Ok(td);
  }

  /** The session entries a successful CreateToken leaves for user `userId`. */
  function Issued(entries: map<string, Entry>, userId: Int64, ids: Uuids, now: int): map<string, Entry> {
    entries[ids.access := Entry(StoredUserId(Uint64FromInt64(userId)), ExpiresAt(now + AccessLifetime))]
           [ids.refresh := Entry(StoredUserId(Uint64FromInt64(userId)), ExpiresAt(now + RefreshLifetime))]
  }

  /**
   * What CreateToken issues: the access token expires 15 minutes from now, strictly
   * before the refresh token's 7 days; the details carry the drawn ids and the signed
   * claims; both sessions are registered and nothing else changed. A signing failure
   * happens before any store write; a store failure is passed on.
   */
  lemma CreateTokenIssues(s: Store, userId: Int64, ids: Uuids, now: int, secrets: Secrets, codec: Codec)
    ensures var (r, after) := CreateTokenSpec(s, userId, ids, now, secrets, codec);
            var access := codec.sign(AccessJwt(userId, ids.access, now + AccessLifetime, secrets));
            var refresh := codec.sign(RefreshJwt(userId, ids.refresh, now + RefreshLifetime, secrets));
            && (access.None? || refresh.None? ==> r == Err(SigningFailed) && after == s)
            && (access.Some? && refresh.Some? && (NextFails(s) || NextFails(s.(faults := Advance(s.faults)))) ==>
                  r == Err(StoreUnavailable))
    ensures var (r, after) := CreateTokenSpec(s, userId, ids, now, secrets, codec);
            && (r.Ok? ==>
                  var td := r.value;
                  && td.atExpires == now + AccessLifetime && td.rtExpires == now + RefreshLifetime
                  && td.atExpires < td.rtExpires
                  && td.accessUuid == ids.access && td.refreshUuid == ids.refresh
                  && codec.sign(AccessJwt(userId, ids.access, td.atExpires, secrets)) == Some(td.accessToken)
                  && codec.sign(RefreshJwt(userId, ids.refresh, td.rtExpires, secrets)) == Some(td.refreshToken)
                  && after.entries == Issued(s.entries, userId, ids, now))
            && (r.Err? ==> r.error in {SigningFailed, StoreUnavailable})
            && (r == Err(SigningFailed) ==> after == s)
            && (Reliable(s) ==> Reliable(after) && (r.Err? ==> r.error == SigningFailed))
  {
    var atExpires := now + AccessLifetime;
    var rtExpires := now + RefreshLifetime;
    if codec.sign(AccessJwt(userId, ids.access, atExpires, secrets)).Some? && codec.sign(RefreshJwt(userId, ids.refresh, rtExpires, secrets)).Some? {
      var td := TokenDetails(codec.sign(AccessJwt(userId, ids.access, atExpires, secrets)).value,
                             codec.sign(RefreshJwt(userId, ids.refresh, rtExpires, secrets)).value,
                             ids.access, ids.refresh, atExpires, rtExpires);
      CreateRedisAuthEffect(s, Uint64FromInt64(userId), td, now);
    }
  }

  /** Issuing tokens and then resolving the access session id gives back the user. */
  lemma IssueThenResolve(s: Store, userId: Int64, ids: Uuids, now: int, later: int, secrets: Secrets, codec: Codec)
    requires Reliable(s) && 0 <= userId && now <= later < now + AccessLifetime
    requires RoundTrips(codec)
    ensures var (r, after) := CreateTokenSpec(s, userId, ids, now, secrets, codec);
            r.Ok? ==>
              && ExtractTokenMetadata(codec, r.value.accessToken, secrets, later) == Ok(Some(AccessDetails(ids.access, userId)))
              && FetchAuthSpec(after, AccessDetails(ids.access, userId), later).0 == userId
              && FetchAuthSpec(after, AccessDetails(ids.access, userId), later).1 == None
  {
    CreateTokenIssues(s, userId, ids, now, secrets, codec);
    var (r, after) := CreateTokenSpec(s, userId, ids, now, secrets, codec);
    if r.Ok? {
      AccessTokenMetadata(codec, secrets, userId, ids.access, now + AccessLifetime, later);
      AdvanceReliable(after);
      FetchAuthOfStoredId(after, AccessDetails(ids.access, userId), later, Uint64FromInt64(userId));
    }
  }

  // ---------------------------------------------------------------- Refresh

  /** The token verifies under the refresh secret and carries a string `refresh_uuid`
      equal to `rid` and a usable `user_id` equal to `uid`. */
  predicate Presents(codec: Codec, text: string, secrets: Secrets, now: int, rid: string, uid: Uint64) {
    var parsed := Parse(codec, text, HmacKeyfunc(secrets.refresh), now);
    && parsed.Ok?
    && "refresh_uuid" in parsed.value.claims && parsed.value.claims["refresh_uuid"] == Text(rid)
    && UserIdClaim(parsed.value.claims) == (uid, None)
  }

  /**
   * Refresh as written. Lines 67-69 ("token is not valid") and 110-112 ("refresh token is
   * expired") cannot be reached: jwt.Parse errs whenever the token is not valid, and a
   * failed lookup has already returned at line 90. When CreateToken fails, line 118
   * reads a field of its nil result before line 124 looks at the error: a panic.
   */
  function RefreshSpec(s: Store, refreshToken: string, now: int, secrets: Secrets, codec: Codec, ids: Uuids)
    : (Result<Option<Tokens>, Error>, Store)
  {
    match Parse(codec, refreshToken, HmacKeyfunc(secrets.refresh), now)
    case Err(e) => (Err(e), s)
    case Ok(token) =>
      var claims := token.claims;
      if !("refresh_uuid" in claims && claims["refresh_uuid"].Text?) then (Ok(None), s)
      else
        var refreshUuid := claims["refresh_uuid"].s;
        var (userId, parseErr) := UserIdClaim(claims);
        if parseErr.Some? then (Err(parseErr.value), s)
        else
          var (got, s1) := GetCmd(s, refreshUuid, now);
          if got.Err? then (Err(got.error), s1)
          // the source's len(value) counts bytes; the two agree on the ASCII values this code stores
          else if |got.value| >= RotatedMinLength then
            var (_, err1, s2) := DeleteAuthSpec(s1, refreshUuid, now);
            if err1.Some? then (Err(err1.value), s2)
            else
              var (_, err2, s3) := DeleteAuthSpec(s2, got.value, now);
              if err2.Some? then (Err(err2.value), s3) else (Err(RefreshReused), s3)
          else
            var (created, s2) := CreateTokenSpec(s1, Int64FromUint64(userId), ids, now, secrets, codec);
            if created.Err? then (Err(NilDereference), s2)
            else
              var ts := created.value;
              var (setErr, s3) := SetCmd(s2, refreshUuid, ts.refreshUuid, TripwireLifetime, now);
              if setErr.Some? then (Err(setErr.value), s3)
              else
                var (saveErr, s4) := CreateRedisAuthSpec(s3, userId, ts, now);
                if saveErr.Some? then (Err(saveErr.value), s4)
                else (Ok(Some(Tokens(ts.accessToken, ts.refreshToken))), s4)
  }

  /** Refresh: exchange a refresh token for a new pair, leaving a tripwire on the old
      refresh id, or detect that the id was already rotated and revoke both ids. */
  method Refresh(refreshToken: string, client: SessionStore, now: int, secrets: Secrets, codec: Codec, ids: Uuids)
    returns (r: Result<Option<Tokens>, Error>)
    modifies client
    ensures (r, client.Snapshot()) == RefreshSpec(old(client.Snapshot()), refreshToken, now, secrets, codec, ids)
  {
    var token := Parse(codec, refreshToken, HmacKeyfunc(secrets.refresh), now);
    if token.Err? {
      return Err(token.error);
    }
    var claims := token.value.claims;
    if !("refresh_uuid" in claims && claims["refresh_uuid"].Text?) {
      return Ok(None);
    }
    var refreshUuid := claims["refresh_uuid"].s;
    var (userId, parseErr) := UserIdClaim(claims);
    if parseErr.Some? {
      return Err(parseErr.value);
    }

    var value := client.Get(refreshUuid, now);
    if value.Err? {
      return Err(value.error);
    }

    if |value.value| >= RotatedMinLength {
      var _, err := DeleteAuthFromRedis(refreshUuid, client, now);
      if err.Some? {
        return Err(err.value);
      }
      var _, err2 := DeleteAuthFromRedis(value.value, client, now);
      if err2.Some? {
        return Err(err2.value);
      }
      return Err(RefreshReused);
    }

    var ts := CreateToken(Int64FromUint64(userId), client, ids, now, secrets, codec);
    if ts.Err? {
      return Err(NilDereference);
    }
    var errUpdateOldRefresh := client.Set(refreshUuid, ts.value.refreshUuid, TripwireLifetime, now);
    if errUpdateOldRefresh.Some? {
      return Err(errUpdateOldRefresh.value);
    }
    var saveErr := CreateRedisAuth(userId, ts.value, client, now);
    if saveErr.Some? {
      return Err(saveErr.value);
    }
    return Ok(Some(Tokens(ts.value.accessToken, ts.value.refreshToken)));
  }

  /** The session entries after a successful rotation of `rid` for user `uid`: the old
      refresh id points at the successor refresh id for 7 days, and the two new ids hold
      the user id until their tokens expire. */
  function Rotated(entries: map<string, Entry>, rid: string, uid: Uint64, ids: Uuids, now: int): map<string, Entry> {
    Issued(entries[rid := Entry(ids.refresh, ExpiresAt(now + TripwireLifetime))], Int64FromUint64(uid), ids, now)
  }

  /** A LIVE value (a stored user id, at most 20 characters) never looks ROTATED, and a
      successor id (a UUID, 36 characters) always does. */
  lemma LiveAndRotatedApart(u: Uint64, successor: string)
    requires IsUuid(successor)
    ensures |StoredUserId(u)| < RotatedMinLength <= |successor|
  {
    ItoaInt64Length(Int64FromUint64(u));
  }

  /** Refresh fails without touching the store (its fault script included) when the
      token does not verify (in particular when its method is not HMAC) or its user_id is
      unusable; a verified token without a string refresh_uuid gives no tokens and, as
      written, no error. */
  lemma RefreshRejectsEarly(s: Store, text: string, now: int, secrets: Secrets, codec: Codec, ids: Uuids)
    ensures var parsed := Parse(codec, text, HmacKeyfunc(secrets.refresh), now);
            var (r, after) := RefreshSpec(s, text, now, secrets, codec, ids);
            && (parsed.Err? ==> r == Err(parsed.error) && after == s)
            && (codec.decode(text).Some? && !IsHmac(codec.decode(text).value.alg) ==>
                  r == Err(UnexpectedSigningMethod) && after == s)
            && (parsed.Ok? && !("refresh_uuid" in parsed.value.claims && parsed.value.claims["refresh_uuid"].Text?) ==>
                  r == Ok(None) && after == s)
            && (parsed.Ok? && "refresh_uuid" in parsed.value.claims && parsed.value.claims["refresh_uuid"].Text?
                && UserIdClaim(parsed.value.claims).1.Some? ==>
                  r == Err(UserIdClaim(parsed.value.claims).1.value) && after == s)
  {
  }

  /** An unknown or expired refresh id: an error, and the data is left as it was. */
  lemma RefreshUnknownSession(s: Store, text: string, now: int, secrets: Secrets, codec: Codec, ids: Uuids, rid: string, uid: Uint64)
    requires Presents(codec, text, secrets, now, rid, uid) && Lookup(s.entries, rid, now).None?
    ensures var (r, after) := RefreshSpec(s, text, now, secrets, codec, ids);
            r == Err(if NextFails(s) then StoreUnavailable else StoreNil) && after.entries == s.entries
  {
  }

  /**
   * Replay: when the refresh id holds a value of 36 characters or more, no tokens are
   * issued. Deletion stops at the first failed command; when none fails, both the refresh
   * id and the id it names are gone and the error is RefreshReused.
   */
  lemma RefreshReplay(s: Store, text: string, now: int, secrets: Secrets, codec: Codec, ids: Uuids, rid: string, uid: Uint64)
    requires Presents(codec, text, secrets, now, rid, uid)
    requires Lookup(s.entries, rid, now).Some? && |Lookup(s.entries, rid, now).value| >= RotatedMinLength
    ensures var successor := Lookup(s.entries, rid, now).value;
            var (r, after) := RefreshSpec(s, text, now, secrets, codec, ids);
            && r.Err?
            && (after.entries == s.entries || after.entries == s.entries - {rid}
                || after.entries == s.entries - {rid, successor})
            && (Reliable(s) ==> r == Err(RefreshReused) && after.entries == s.entries - {rid, successor} && Reliable(after))
  {
    var successor := Lookup(s.entries, rid, now).value;
    assert s.entries - {rid} - {successor} == s.entries - {rid, successor};
    if Reliable(s) {
      var s1 := s.(faults := Advance(s.faults));
      var s2 := Store(s.entries - {rid}, Advance(s1.faults));
      AdvanceReliable(s);
      AdvanceReliable(s1);
      AdvanceReliable(s2);
    }
  }

  /**
   * As written, any CreateToken failure while rotating a LIVE session is a nil
   * dereference (line 118 reads the result of the failed CreateToken before line 124 looks
   * at its error). The store is left as CreateToken left it: untouched after a signing
   * failure of either token, possibly with the new access session written after a store
   * failure.
   */
  lemma RefreshCreateFailurePanics(s: Store, text: string, now: int, secrets: Secrets, codec: Codec, ids: Uuids, rid: string, uid: Uint64)
    requires Presents(codec, text, secrets, now, rid, uid) && !NextFails(s)
    requires Lookup(s.entries, rid, now).Some? && |Lookup(s.entries, rid, now).value| < RotatedMinLength
    requires CreateTokenSpec(s.(faults := Advance(s.faults)), Int64FromUint64(uid), ids, now, secrets, codec).0.Err?
    ensures var (r, after) := RefreshSpec(s, text, now, secrets, codec, ids);
            var created := CreateTokenSpec(s.(faults := Advance(s.faults)), Int64FromUint64(uid), ids, now, secrets, codec);
            && r == Err(NilDereference)
            && after == created.1
            && (created.0 == Err(SigningFailed) ==> after.entries == s.entries)
  {
    CreateTokenIssues(s.(faults := Advance(s.faults)), Int64FromUint64(uid), ids, now, secrets, codec);
  }

  /** Writing the successor mark between two identical registrations of the new ids
      leaves the same map as writing it before one. */
  lemma RewriteIssued(e: map<string, Entry>, rid: string, a: string, r: string, live: Entry, long: Entry, wire: Entry)
    ensures e[a := live][r := long][rid := wire][a := live][r := long] == e[rid := wire][a := live][r := long]
  {
  }

  /**
   * Rotation of a LIVE refresh id: on success the old id now names the new refresh id
   * for 7 days, the new access and refresh ids hold the user id, nothing else changed, and
   * the tokens returned are the newly signed pair.
   */
  lemma RefreshRotates(s: Store, text: string, now: int, secrets: Secrets, codec: Codec, ids: Uuids, rid: string, uid: Uint64)
    requires Presents(codec, text, secrets, now, rid, uid)
    requires Lookup(s.entries, rid, now).Some? && |Lookup(s.entries, rid, now).value| < RotatedMinLength
    ensures var (r, after) := RefreshSpec(s, text, now, secrets, codec, ids);
            var access := codec.sign(AccessJwt(Int64FromUint64(uid), ids.access, now + AccessLifetime, secrets));
            var refresh := codec.sign(RefreshJwt(Int64FromUint64(uid), ids.refresh, now + RefreshLifetime, secrets));
            r.Ok? ==> && r.value.Some? && access.Some? && refresh.Some?
                      && r.value.value == Tokens(access.value, refresh.value)
                      && after.entries == Rotated(s.entries, rid, uid, ids, now)
  {
    var (got, s1) := GetCmd(s, rid, now);
    var userId := Int64FromUint64(uid);
    var (created, s2) := CreateTokenSpec(s1, userId, ids, now, secrets, codec);
    if got.Ok? && created.Ok? {
      CreateTokenIssues(s1, userId, ids, now, secrets, codec);
      var ts := created.value;
      var (setErr, s3) := SetCmd(s2, rid, ts.refreshUuid, TripwireLifetime, now);
      CreateRedisAuthEffect(s3, uid, ts, now);
      var (saveErr, s4) := CreateRedisAuthSpec(s3, uid, ts, now);
      if saveErr.None? && setErr.None? {
        RewriteIssued(s.entries, rid, ids.access, ids.refresh,
          Entry(StoredUserId(uid), ExpiresAt(now + AccessLifetime)),
          Entry(StoredUserId(uid), ExpiresAt(now + RefreshLifetime)),
          Entry(ids.refresh, ExpiresAt(now + TripwireLifetime)));
      }
    }
  }

  /** Rotating a LIVE refresh id fails only on a store error or, as written, the nil
      dereference; with no store failure and working signing it succeeds. */
  lemma RefreshRotationFailures(s: Store, text: string, now: int, secrets: Secrets, codec: Codec, ids: Uuids, rid: string, uid: Uint64)
    requires Presents(codec, text, secrets, now, rid, uid)
    requires Lookup(s.entries, rid, now).Some? && |Lookup(s.entries, rid, now).value| < RotatedMinLength
    ensures var (r, after) := RefreshSpec(s, text, now, secrets, codec, ids);
            var access := codec.sign(AccessJwt(Int64FromUint64(uid), ids.access, now + AccessLifetime, secrets));
            var refresh := codec.sign(RefreshJwt(Int64FromUint64(uid), ids.refresh, now + RefreshLifetime, secrets));
            && (r.Err? ==> r.error in {NilDereference, StoreUnavailable})
            && (Reliable(s) && access.Some? && refresh.Some? ==> r.Ok? && Reliable(after))
  {
    var (got, s1) := GetCmd(s, rid, now);
    var userId := Int64FromUint64(uid);
    if got.Ok? {
      CreateTokenIssues(s1, userId, ids, now, secrets, codec);
      var (created, s2) := CreateTokenSpec(s1, userId, ids, now, secrets, codec);
      if created.Ok? {
        var ts := created.value;
        var (setErr, s3) := SetCmd(s2, rid, ts.refreshUuid, TripwireLifetime, now);
        CreateRedisAuthEffect(s3, uid, ts, now);
        if Reliable(s) {
          AdvanceReliable(s);
          AdvanceReliable(s2);
        }
      }
    }
  }

  /** A refresh token CreateToken signed for a user below 2^63 presents that user's new
      refresh id until it expires. */
  lemma IssuedRefreshPresents(codec: Codec, secrets: Secrets, uid: Uint64, ids: Uuids, now: int, later: int)
    requires RoundTrips(codec) && uid < 0x8000_0000_0000_0000 && later <= now + RefreshLifetime
    requires codec.sign(RefreshJwt(Int64FromUint64(uid), ids.refresh, now + RefreshLifetime, secrets)).Some?
    ensures Presents(codec, codec.sign(RefreshJwt(Int64FromUint64(uid), ids.refresh, now + RefreshLifetime, secrets)).value,
                     secrets, later, ids.refresh, uid)
  {
    var t := RefreshJwt(Int64FromUint64(uid), ids.refresh, now + RefreshLifetime, secrets);
    ParseSigned(codec, t, HmacKeyfunc(secrets.refresh), later);
  }

  /**
   * Refresh tokens are single-use. After a successful rotation with fresh ids and no
   * store failures, presenting the same refresh token again within the tripwire's 7 days
   * is detected as a replay, and the replay revokes the successor: its refresh token,
   * presented afterwards, finds no session.
   */
  lemma RotationIsSingleUse(s: Store, text: string, now: int, later: int, secrets: Secrets, codec: Codec,
                            ids: Uuids, ids2: Uuids, ids3: Uuids, rid: string, uid: Uint64)
    requires RoundTrips(codec) && uid < 0x8000_0000_0000_0000
    requires Reliable(s) && FreshIn(ids, s)
    requires now <= later < now + TripwireLifetime
    requires Presents(codec, text, secrets, now, rid, uid) && Presents(codec, text, secrets, later, rid, uid)
    requires RefreshSpec(s, text, now, secrets, codec, ids).0.Ok?
    ensures var (r1, s1) := RefreshSpec(s, text, now, secrets, codec, ids);
            var (r2, s2) := RefreshSpec(s1, text, later, secrets, codec, ids2);
            && r1.value.Some?
            && r2 == Err(RefreshReused)
            && rid !in s2.entries && ids.refresh !in s2.entries
            && RefreshSpec(s2, r1.value.value.refreshToken, later, secrets, codec, ids3).0 == Err(StoreNil)
  {
    var (r1, s1) := RefreshSpec(s, text, now, secrets, codec, ids);
    // success means the refresh id was LIVE
    var (got, _) := GetCmd(s, rid, now);
    AdvanceReliable(s);
    if got.Err? || |got.value| >= RotatedMinLength {
      RefreshReplay(s, text, now, secrets, codec, ids, rid, uid);
      RefreshUnknownSession(s, text, now, secrets, codec, ids, rid, uid);
      assert false;
    }
    RefreshRotates(s, text, now, secrets, codec, ids, rid, uid);
    RefreshRotationFailures(s, text, now, secrets, codec, ids, rid, uid);
    assert rid in s.entries;
    assert s1.entries[rid] == Entry(ids.refresh, ExpiresAt(now + TripwireLifetime));
    assert Lookup(s1.entries, rid, later) == Some(ids.refresh);
    RefreshReplay(s1, text, later, secrets, codec, ids2, rid, uid);
    var (r2, s2) := RefreshSpec(s1, text, later, secrets, codec, ids2);
    IssuedRefreshPresents(codec, secrets, uid, ids, now, later);
    RefreshUnknownSession(s2, r1.value.value.refreshToken, later, secrets, codec, ids3, ids.refresh, uid);
  }

  /** The errors Refresh can report: the token's, the user id's, the store's, the replay
      and, as written, the nil dereference. */
  lemma RefreshErrors(s: Store, text: string, now: int, secrets: Secrets, codec: Codec, ids: Uuids)
    ensures var (r, _) := RefreshSpec(s, text, now, secrets, codec, ids);
            r.Err? ==> || r.error.Malformed? || r.error.UnexpectedSigningMethod? || r.error.TokenInvalid?
                       || r.error.NumberSyntax? || r.error.NumberRange?
                       || r.error.StoreNil? || r.error.StoreUnavailable?
                       || r.error.RefreshReused? || r.error.NilDereference?
  {
  }
}
