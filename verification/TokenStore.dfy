/**
  The two tables that decide whether a token is honoured: refresh-token rows and users' token
  versions. Each function is one atomic database operation; the class applies them to its fields.
 */
module TokenStore {

  type UserId = nat
  type Jti = nat

  const REFRESH_LIFETIME_MS: nat := 7 * 24 * 3600 * 1000

  /** `revoked` stands for a non-null `revokedAt`. Times are in milliseconds. */
  datatype Row = Row(userId: UserId, expiresAt: int, revoked: bool)

  /** A user has an entry in `versions` as long as the account exists. */
  datatype Db = Db(tokens: map<Jti, Row>, versions: map<UserId, nat>)

  function Created(db: Db, jti: Jti, userId: UserId, now: int): Db {
    db.(tokens := db.tokens[jti := Row(userId, now + REFRESH_LIFETIME_MS, false)])
  }

  predicate Rotatable(db: Db, jti: Jti, now: int) {
    jti in db.tokens && !db.tokens[jti].revoked && db.tokens[jti].expiresAt > now
  }

  /** The conditional `updateMany` of `rotate`. */
  function ComparedAndRevoked(db: Db, jti: Jti, now: int): Db {
    if Rotatable(db, jti, now) then db.(tokens := db.tokens[jti := db.tokens[jti].(revoked := true)]) else db
  }

  function RevokedTokensOf(tokens: map<Jti, Row>, userId: UserId): map<Jti, Row> {
    map j | j in tokens :: if tokens[j].userId == userId then tokens[j].(revoked := true) else tokens[j]
  }

  /** `revokeAllForUser`. */
  function RevokedAllForUser(db: Db, userId: UserId): Db {
    db.(tokens := RevokedTokensOf(db.tokens, userId))
  }

  /** The transaction of the reuse branch and of `revokeAllTokens`; it aborts for a missing user. */
  function RevokedFamily(db: Db, userId: UserId): Db {
    if userId in db.versions then
      Db(RevokedTokensOf(db.tokens, userId), db.versions[userId := db.versions[userId] + 1])
    else db
  }

  function CleanedUp(db: Db, now: int): Db {
    db.(tokens := map j | j in db.tokens && db.tokens[j].expiresAt >= now :: db.tokens[j])
  }

  /** The guard's version check; a token without a version counts as -1. */
  predicate VersionAccepted(db: Db, sub: UserId, version: int) {
    sub in db.versions && db.versions[sub] == version
  }

  // ----- rotate, run without interference -----

  datatype RotateResult = Rotated(userId: UserId, newJti: Jti) | Unauthorized

  function RotateAlone(db: Db, jti: Jti, now: int, newJti: Jti, later: int): (RotateResult, Db) {
    if Rotatable(db, jti, now) then
      var u := db.tokens[jti].userId;
      (Rotated(u, newJti), Created(ComparedAndRevoked(db, jti, now), newJti, u, later))
    else if jti in db.tokens then (Unauthorized, RevokedFamily(db, db.tokens[jti].userId))
    else (Unauthorized, db)
  }

  /** Every token of the user is revoked and no other, and the user's version, and no other, is one higher. */
  ghost predicate FamilyRevoked(db: Db, db': Db, userId: UserId) {
    && db'.tokens.Keys == db.tokens.Keys
    && (forall j :: j in db.tokens && db.tokens[j].userId == userId ==>
          db'.tokens[j] == Row(userId, db.tokens[j].expiresAt, true))
    && (forall j :: j in db.tokens && db.tokens[j].userId != userId ==> db'.tokens[j] == db.tokens[j])
    && db'.versions.Keys == db.versions.Keys
    && (forall u :: u in db.versions ==> db'.versions[u] == db.versions[u] + if u == userId then 1 else 0)
  }

  /** The token is revoked, its owner has the new one, live for seven days, and nothing else has changed. */
  ghost predicate Succeeded(db: Db, db': Db, jti: Jti, newJti: Jti, later: int, r: RotateResult)
    requires jti in db.tokens
  {
    var owner := db.tokens[jti].userId;
    && r == Rotated(owner, newJti)
    && db'.tokens.Keys == db.tokens.Keys + {newJti}
    && db'.tokens[newJti] == Row(owner, later + 604_800_000, false)
    && (newJti != jti ==> db'.tokens[jti] == Row(owner, db.tokens[jti].expiresAt, true))
    && (forall j :: j in db.tokens && j != jti && j != newJti ==> db'.tokens[j] == db.tokens[j])
    && db'.versions == db.versions
  }

  class RefreshTokenService {
    var tokens: map<Jti, Row>
    var versions: map<UserId, nat>

    ghost function State(): Db
      reads this
    {
      Db(tokens, versions)
    }

    method Create(userId: UserId, jti: Jti, now: int)
      modifies this`tokens
      ensures State() == Created(old(State()), jti, userId, now)
      ensures jti in tokens && tokens[jti] == Row(userId, now + REFRESH_LIFETIME_MS, false)
      ensures forall j :: j != jti ==> (j in tokens <==> j in old(tokens))
      ensures forall j :: j != jti && j in tokens ==> tokens[j] == old(tokens)[j]
    {
      var expiresAt := now + REFRESH_LIFETIME_MS;
      tokens := tokens[jti := Row(userId, expiresAt, false)];
    }

    /** The number of rows the conditional update changed. */
    method CompareAndRevoke(jti: Jti, now: int) returns (count: nat)
      modifies this`tokens
      ensures State() == ComparedAndRevoked(old(State()), jti, now)
      ensures count == if Rotatable(old(State()), jti, now) then 1 else 0
      ensures !Rotatable(State(), jti, now)
      ensures count == 1 <==> jti in old(tokens) && !old(tokens)[jti].revoked && old(tokens)[jti].expiresAt > now
      ensures count == 1 ==> tokens[jti] == old(tokens)[jti].(revoked := true)
      ensures tokens.Keys == old(tokens).Keys
      ensures forall j :: j in tokens && !(j == jti && count == 1) ==> tokens[j] == old(tokens)[j]
    {
      if jti in tokens && !tokens[jti].revoked && tokens[jti].expiresAt > now {
        tokens := tokens[jti := tokens[jti].(revoked := true)];
        return 1;
      }
      return 0;
    }

    /** `newJti` is a fresh random identifier; `later` is the clock when the new row is created. */
    method Rotate(jti: Jti, now: int, newJti: Jti, later: int) returns (r: RotateResult)
      requires newJti !in tokens
      modifies this
      ensures (r, State()) == RotateAlone(old(State()), jti, now, newJti, later)
      ensures Rotatable(old(State()), jti, now) ==> Succeeded(old(State()), State(), jti, newJti, later, r)
      ensures !Rotatable(old(State()), jti, now) ==> r == Unauthorized
      ensures !Rotatable(old(State()), jti, now) ==>
                if jti in old(tokens) && old(tokens)[jti].userId in old(versions)
                then FamilyRevoked(old(State()), State(), old(tokens)[jti].userId)
                else State() == old(State())
    {
      var count := CompareAndRevoke(jti, now);
      if count == 0 {
        if jti in tokens {
          RevokeFamily(tokens[jti].userId);
        }
        return Unauthorized;
      }
      var userId := tokens[jti].userId;
      Create(userId, newJti, later);
      return Rotated(userId, newJti);
    }

    method RevokeFamily(userId: UserId)
      modifies this
      ensures State() == RevokedFamily(old(State()), userId)
      ensures if userId in old(versions) then FamilyRevoked(old(State()), State(), userId) else State() == old(State())
    {
      if userId in versions {
        versions := versions[userId := versions[userId] + 1];
        tokens := RevokedTokensOf(tokens, userId);
      }
    }

    method RevokeAllForUser(userId: UserId)
      modifies this`tokens
      ensures State() == RevokedAllForUser(old(State()), userId)
      ensures tokens.Keys == old(tokens).Keys
      ensures forall j :: j in tokens ==>
                var row := old(tokens)[j];
                tokens[j] == if row.userId == userId then row.(revoked := true) else row
    {
      tokens := RevokedTokensOf(tokens, userId);
    }

    method CleanupExpired(now: int)
      modifies this`tokens
      ensures State() == CleanedUp(old(State()), now)
      ensures forall j :: j in tokens <==> j in old(tokens) && old(tokens)[j].expiresAt >= now
      ensures forall j :: j in tokens ==> tokens[j] == old(tokens)[j]
    {
      tokens := map j | j in tokens && tokens[j].expiresAt >= now :: tokens[j];
    }
  }
}
