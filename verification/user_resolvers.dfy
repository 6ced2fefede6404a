/**
 * The parts of user/resolvers.go that use the session core: the SET clause Update builds
 * for a partial update, and the guards of Update, Logout and RefreshToken around the
 * token and store calls. The SQL itself is not run here: Update yields the statement and
 * the user id it would be run with.
 */
module UserResolvers {
  import opened Wrappers
  import opened Errors
  import opened Decimal
  import opened Strings
  import opened Jwt
  import opened KeyValue
  import opened Token
  import opened Session

  /** The GraphQL arguments of the update mutation; every one of them is a string. */
  type Args = map<string, string>

  /** The columns a user may change, in the order their fragments are written. */
  const UpdateColumns: seq<string> := ["first_name", "last_name", "phone", "email"]

  /** One assignment of the SET clause. The value is pasted between quotes as it is. */
  function Fragment(column: string, value: string): (f: string)
    ensures |f| == |column| + |value| + 3
    ensures f[..|column|] == column && f[|column|..|column| + 2] == "='"
    ensures f[|column| + 2..|f| - 1] == value && f[|f| - 1] == '\''
  {
    column + "='" + value + "'"
  }

  /** The columns of `columns` that are arguments, in the order of `columns`. */
  function PresentColumns(columns: seq<string>, args: Args): (present: seq<string>)
    ensures |present| <= |columns|
    ensures forall i | 0 <= i < |present| :: present[i] in columns && present[i] in args
  {
    if columns == [] then []
    else
      var last := columns[|columns| - 1];
      var rest := PresentColumns(columns[..|columns| - 1], args);
      if last in args then rest + [last] else rest
  }

  /** The fragments for the columns of `columns` that are arguments, in the order of `columns`. */
  function PresentFragments(columns: seq<string>, args: Args): seq<string> {
    if columns == [] then []
    else
      var last := columns[|columns| - 1];
      var rest := PresentFragments(columns[..|columns| - 1], args);
      if last in args then rest + [Fragment(last, args[last])] else rest
  }

  /** The loop of Update that collects the fragments and the strings.Join after it. */
  method BuildSetClause(args: Args) returns (clause: string)
    ensures clause == Join(PresentFragments(UpdateColumns, args), ",")
  {
    var result: seq<string> := [];
    for i := 0 to |UpdateColumns|
      invariant result == PresentFragments(UpdateColumns[..i], args)
    {
      var columnName := UpdateColumns[i];
      assert UpdateColumns[..i + 1][..i] == UpdateColumns[..i];
      if columnName in args {
        result := result + [Fragment(columnName, args[columnName])];
      }
    }
    assert UpdateColumns[..|UpdateColumns|] == UpdateColumns;
    clause := Join(result, ",");
  }

  /** The fragments are one per present column and in the same order, each exactly
      `column='value'`; a column is present exactly when it is one of `columns` and an
      argument. */
  lemma {:induction false} FragmentsOfPresentColumns(columns: seq<string>, args: Args)
    ensures var present := PresentColumns(columns, args);
            var fragments := PresentFragments(columns, args);
            && (forall c :: c in present <==> c in columns && c in args)
            && |fragments| == |present|
            && (forall i | 0 <= i < |fragments| :: fragments[i] == Fragment(present[i], args[present[i]]))
    decreases |columns|
  {
    if columns != [] {
      var init := columns[..|columns| - 1];
      var last := columns[|columns| - 1];
      FragmentsOfPresentColumns(init, args);
      assert columns == init + [last];
    }
  }

  lemma PresentColumnsSnoc(columns: seq<string>, c: string, args: Args)
    ensures PresentColumns(columns + [c], args) == PresentColumns(columns, args) + (if c in args then [c] else [])
  {
    assert (columns + [c])[..|columns|] == columns;
  }

  /** The columns present in `args` are those of first_name, last_name, phone and email
      that are arguments, in that order. */
  lemma PresentColumnsInOrder(args: Args)
    ensures PresentColumns(UpdateColumns, args) ==
              (if "first_name" in args then ["first_name"] else [])
              + (if "last_name" in args then ["last_name"] else [])
              + (if "phone" in args then ["phone"] else [])
              + (if "email" in args then ["email"] else [])
  {
    PresentColumnsSnoc([], "first_name", args);
    PresentColumnsSnoc(["first_name"], "last_name", args);
    PresentColumnsSnoc(["first_name", "last_name"], "phone", args);
    PresentColumnsSnoc(["first_name", "last_name", "phone"], "email", args);
    assert [] + ["first_name"] == ["first_name"];
    assert ["first_name"] + ["last_name"] == ["first_name", "last_name"];
    assert ["first_name", "last_name"] + ["phone"] == ["first_name", "last_name", "phone"];
    assert ["first_name", "last_name", "phone"] + ["email"] == UpdateColumns;
  }

  /** One fragment per present column, at most four, each `column='value'`. */
  lemma SetClauseFragments(args: Args)
    ensures var present := PresentColumns(UpdateColumns, args);
            var fragments := PresentFragments(UpdateColumns, args);
            && (forall c :: c in present <==> c in UpdateColumns && c in args)
            && |fragments| == |present| <= 4
            && (forall i | 0 <= i < |fragments| :: fragments[i] == Fragment(present[i], args[present[i]]))
  {
    FragmentsOfPresentColumns(UpdateColumns, args);
  }

  /** The clause is empty exactly when none of the four columns is an argument, and it
      never starts or ends with the "," separator. */
  lemma SetClauseBoundaries(args: Args)
    ensures var clause := Join(PresentFragments(UpdateColumns, args), ",");
            && (clause == "" <==> forall c | c in UpdateColumns :: c !in args)
            && (clause != "" ==> clause[0] != ',' && clause[|clause| - 1] != ',')
  {
    FragmentsOfPresentColumns(UpdateColumns, args);
    var present := PresentColumns(UpdateColumns, args);
    var fragments := PresentFragments(UpdateColumns, args);
    if fragments != [] {
      ClauseEnds(fragments, present, args);
    }
  }

  /** When no value contains a comma, the clause splits on "," back into its fragments. */
  lemma SetClauseSplits(args: Args)
    requires forall c | c in args :: ',' !in args[c]
    ensures var fragments := PresentFragments(UpdateColumns, args);
            fragments != [] ==> Split(Join(fragments, ","), ',') == fragments
  {
    FragmentsOfPresentColumns(UpdateColumns, args);
    var present := PresentColumns(UpdateColumns, args);
    var fragments := PresentFragments(UpdateColumns, args);
    if fragments != [] {
      forall i | 0 <= i < |fragments|
        ensures ',' !in fragments[i]
      {
        var col := present[i];
        assert col in UpdateColumns;
        assert ',' !in col;
        assert fragments[i] == col + "='" + args[col] + "'";
      }
      SplitJoin(fragments, ',');
    }
  }

  /** A nonempty join of fragments of the update columns starts with a letter and ends
      with a quote. */
  lemma ClauseEnds(fragments: seq<string>, present: seq<string>, args: Args)
    requires fragments != [] && |fragments| == |present|
    requires forall i | 0 <= i < |present| :: present[i] in UpdateColumns && present[i] in args
    requires forall i | 0 <= i < |fragments| :: fragments[i] == Fragment(present[i], args[present[i]])
    ensures var clause := Join(fragments, ",");
            clause != "" && clause[0] != ',' && clause[|clause| - 1] == '\''
  {
    var first := fragments[0];
    assert first[..|present[0]|] == present[0];
    assert present[0][0] != ',';
    var clause := Join(fragments, ",");
    assert clause[..|first|] == first;
    assert clause[0] == first[0];
    var last := fragments[|fragments| - 1];
    assert clause[|clause| - |last|..] == last;
    assert clause[|clause| - 1] == last[|last| - 1];
  }

  // ---------------------------------------------------------------- Update

  /** The statement Update sends to the database and the id it binds to `$1`. */
  datatype UpdateQuery = UpdateQuery(sql: string, userId: Uint64)

  function UpdateSql(clause: string): string {
    "UPDATE users SET " + clause + " WHERE id=$1 RETURNING id"
  }

  /**
   * Update as written: any token error becomes "auth required", a store miss becomes
   * "undefined user_id". A verified token without `access_uuid` gives nil details, which
   * FetchAuth then dereferences.
   */
  function UpdateSpec(s: Store, authToken: string, args: Args, now: int, secrets: Secrets, codec: Codec)
    : (Result<UpdateQuery, Error>, Store)
  {
    match ExtractTokenMetadata(codec, authToken, secrets, now)
    case Err(_) => (Err(AuthRequired), s)
    case Ok(None) => (Err(NilDereference), s)
    case Ok(Some(token)) =>
      var (userId, err, s1) := FetchAuthSpec(s, token, now);
      if err.Some? then (Err(UndefinedUserId), s1)
      else (Ok(UpdateQuery(UpdateSql(Join(PresentFragments(UpdateColumns, args), ",")), userId)), s1)
  }

  method Update(authToken: string, args: Args, client: SessionStore, now: int, secrets: Secrets, codec: Codec)
    returns (r: Result<UpdateQuery, Error>)
    modifies client
    ensures (r, client.Snapshot()) == UpdateSpec(old(client.Snapshot()), authToken, args, now, secrets, codec)
  {
    var token := ExtractTokenMetadata(codec, authToken, secrets, now);
    if token.Err? {
      return Err(AuthRequired);
    }
    if token.value.None? {
      return Err(NilDereference);
    }
    var userId, err := FetchAuth(token.value.value, client, now);
    if err.Some? {
      return Err(UndefinedUserId);
    }
    var queryString := BuildSetClause(args);
    return Ok(UpdateQuery(UpdateSql(queryString), userId));
  }

  /**
   * The update statement is built only for a token that yields session details whose
   * access id resolves in the store; it is bound to the resolved user id. Update never
   * changes the store's data.
   */
  lemma UpdateGuards(s: Store, authToken: string, args: Args, now: int, secrets: Secrets, codec: Codec)
    ensures var (r, after) := UpdateSpec(s, authToken, args, now, secrets, codec);
            var token := ExtractTokenMetadata(codec, authToken, secrets, now);
            && after.entries == s.entries
            && (token.Err? <==> r == Err(AuthRequired))
            && (token == Ok(None) <==> r == Err(NilDereference))
            && (r.Ok? <==> token.Ok? && token.value.Some? && FetchAuthSpec(s, token.value.value, now).1.None?)
            && (r.Ok? ==> r.value == UpdateQuery(UpdateSql(Join(PresentFragments(UpdateColumns, args), ",")),
                                                 FetchAuthSpec(s, token.value.value, now).0))
            && (token.Ok? && token.value.Some? && Lookup(s.entries, token.value.value.accessUuid, now).None? ==>
                  r == Err(UndefinedUserId))
  {
  }

  // ---------------------------------------------------------------- Logout

  /** Logout as written; a verified token without `access_uuid` gives nil details, whose
      AccessUuid it then reads. */
  function LogoutSpec(s: Store, authToken: string, now: int, secrets: Secrets, codec: Codec): (Result<int, Error>, Store) {
    match ExtractTokenMetadata(codec, authToken, secrets, now)
    case Err(e) => (Err(e), s)
    case Ok(None) => (Err(NilDereference), s)
    case Ok(Some(token)) =>
      var (deleted, delErr, s1) := DeleteAuthSpec(s, token.accessUuid, now);
      if delErr.Some? && deleted == 0 then (Err(delErr.value), s1) else (Ok(deleted), s1)
  }

  method Logout(authToken: string, client: SessionStore, now: int, secrets: Secrets, codec: Codec) returns (r: Result<int, Error>)
    modifies client
    ensures (r, client.Snapshot()) == LogoutSpec(old(client.Snapshot()), authToken, now, secrets, codec)
  {
    var token := ExtractTokenMetadata(codec, authToken, secrets, now);
    if token.Err? {
      return Err(token.error);
    }
    if token.value.None? {
      return Err(NilDereference);
    }
    var deleted, delErr := DeleteAuthFromRedis(token.value.value.accessUuid, client, now);
    if delErr.Some? && deleted == 0 {
      return Err(delErr.value);
    }
    return Ok(deleted);
  }

  /**
   * Logout passes token errors on unchanged and touches nothing then. With session
   * details it fails exactly when the store does; otherwise it reports 1 for a live
   * session and 0 for one already gone, and the access id is no longer a key. The
   * `deleted == 0` half of its guard never matters: a failed delete always reports 0.
   */
  lemma LogoutRevokes(s: Store, authToken: string, now: int, secrets: Secrets, codec: Codec)
    ensures var (r, after) := LogoutSpec(s, authToken, now, secrets, codec);
            var token := ExtractTokenMetadata(codec, authToken, secrets, now);
            && (token.Err? ==> r == Err(token.error) && after == s)
            && (token == Ok(None) ==> r == Err(NilDereference) && after == s)
            && (token.Ok? && token.value.Some? ==>
                  var accessUuid := token.value.value.accessUuid;
                  && (r.Err? <==> NextFails(s))
                  && (r.Err? ==> r.error == StoreUnavailable && after.entries == s.entries)
                  && (r.Ok? ==> r.value == (if Lookup(s.entries, accessUuid, now).Some? then 1 else 0)
                                && after.entries == s.entries - {accessUuid}))
  {
  }

  // ---------------------------------------------------------------- RefreshToken

  /** RefreshToken as written: a nil token map from Refresh reads as two empty strings. */
  function RefreshTokenSpec(s: Store, refreshToken: string, now: int, secrets: Secrets, codec: Codec, ids: Uuids)
    : (Result<Tokens, Error>, Store)
  {
    if refreshToken == "" then (Err(RefreshTokenRequired), s)
    else
      var (r, s1) := RefreshSpec(s, refreshToken, now, secrets, codec, ids);
      match r
      case Err(e) => (Err(e), s1)
      case Ok(None) => (Ok(Tokens("", "")), s1)
      case Ok(Some(tokens)) => (Ok(tokens), s1)
  }

  method RefreshToken(refreshToken: string, client: SessionStore, now: int, secrets: Secrets, codec: Codec, ids: Uuids)
    returns (r: Result<Tokens, Error>)
    modifies client
    ensures (r, client.Snapshot()) == RefreshTokenSpec(old(client.Snapshot()), refreshToken, now, secrets, codec, ids)
  {
    if refreshToken == "" {
      return Err(RefreshTokenRequired);
    }
    var token := Refresh(refreshToken, client, now, secrets, codec, ids);
    if token.Err? {
      return Err(token.error);
    }
    if token.value.None? {
      return Ok(Tokens("", ""));
    }
    return Ok(token.value.value);
  }

  /**
   * An empty refresh token is refused before Refresh is called, so no store command is
   * issued; otherwise RefreshToken fails exactly when Refresh does, with its error, and
   * leaves the store as Refresh left it. A success without tokens reads as two empty
   * strings.
   */
  lemma RefreshTokenGuard(s: Store, refreshToken: string, now: int, secrets: Secrets, codec: Codec, ids: Uuids)
    ensures var (r, after) := RefreshTokenSpec(s, refreshToken, now, secrets, codec, ids);
            var (inner, innerAfter) := RefreshSpec(s, refreshToken, now, secrets, codec, ids);
            && (refreshToken == "" <==> r == Err(RefreshTokenRequired))
            && (refreshToken == "" ==> after == s)
            && (refreshToken != "" ==>
                  && after == innerAfter
                  && (r.Err? <==> inner.Err?)
                  && (inner.Err? ==> r.error == inner.error)
                  && (inner == Ok(None) ==> r == Ok(Tokens("", "")))
                  && (inner.Ok? && inner.value.Some? ==> r == Ok(inner.value.value)))
  {
    if refreshToken != "" {
      var (inner, _) := RefreshSpec(s, refreshToken, now, secrets, codec, ids);
      RefreshErrors(s, refreshToken, now, secrets, codec, ids);
    }
  }

  // ---------------------------------------------------------------- a session's life

  /**
   * Tokens issued for a user authorise an update bound to that user until the access
   * token expires; logging out with the same token removes one live session, after which
   * the same token no longer resolves and Update reports "undefined user_id".
   */
  lemma IssueUpdateLogout(s: Store, userId: Int64, ids: Uuids, now: int, later: int, secrets: Secrets, codec: Codec, args: Args)
    requires RoundTrips(codec) && Reliable(s) && 0 <= userId
    requires now <= later < now + AccessLifetime
    ensures var (created, s1) := CreateTokenSpec(s, userId, ids, now, secrets, codec);
            created.Ok? ==>
              var token := created.value.accessToken;
              var (out, s2) := LogoutSpec(s1, token, later, secrets, codec);
              && UpdateSpec(s1, token, args, later, secrets, codec).0
                   == Ok(UpdateQuery(UpdateSql(Join(PresentFragments(UpdateColumns, args), ",")), userId))
              && out == Ok(1)
              && UpdateSpec(s2, token, args, later, secrets, codec).0 == Err(UndefinedUserId)
  {
    CreateTokenIssues(s, userId, ids, now, secrets, codec);
    IssueThenResolve(s, userId, ids, now, later, secrets, codec);
    var (created, s1) := CreateTokenSpec(s, userId, ids, now, secrets, codec);
    if created.Ok? {
      AdvanceReliable(s1);
      var (out, s2) := LogoutSpec(s1, created.value.accessToken, later, secrets, codec);
      assert Lookup(s1.entries, ids.access, later).Some?;
      assert ids.access !in s2.entries;
    }
  }
}
