/**
  Any number of `rotate` calls interleaved with logins, logouts, administrative revocation and
  cleanup, one database operation at a time. `owner`, `won`, `born` and `issued` record what has
  happened and are read by no step but the freshness of new identifiers.
 */
module RefreshRotation {
  import opened Common
  import opened TokenStore

  type CallId = nat

  /** Where a `rotate` call stands between two awaited operations. */
  datatype Phase =
    | Verified(jti: Jti)                // the JWT's signature and type were accepted
    | Stale(jti: Jti)                   // compare-and-revoke changed no row
    | Compromised(userId: UserId)       // the row exists: about to kill the family
    | Won(jti: Jti)                     // compare-and-revoke changed the row
    | Minting(jti: Jti, userId: UserId) // the owner was re-read: about to create the successor
    | Finished

  datatype World = World(
    db: Db,
    calls: map<CallId, Phase>,
    users: set<UserId>,                 // every account that ever existed
    owner: map<Jti, UserId>,            // every refresh token ever recorded
    won: seq<Jti>,                      // the tokens that passed compare-and-revoke, in order
    born: seq<(Jti, Jti)>,              // rotated token and its successor
    issued: map<UserId, nat>)           // tokens created outside rotate

  datatype Event =
    | Begin(c: CallId, jti: Jti)
    | Cas(c: CallId, now: int)
    | Lookup(c: CallId)
    | Punish(c: CallId)
    | Reread(c: CallId)
    | Mint(c: CallId, newJti: Jti, now: int)
    | Issue(jti: Jti, userId: UserId, now: int)
    | Logout(userId: UserId)
    | AdminRevoke(userId: UserId)
    | Cleanup(now: int)
    | AddUser(userId: UserId)
    | DeleteUser(userId: UserId)

  function Count(m: map<UserId, nat>, u: UserId): nat {
    if u in m then m[u] else 0
  }

  function Move(w: World, c: CallId, p: Phase): World {
    w.(calls := w.calls[c := p])
  }

  /** One atomic step; an event that is not enabled changes nothing. */
  function Step(w: World, e: Event): World {
    match e
    case Begin(c, jti) => if c in w.calls then w else Move(w, c, Verified(jti))
    case Cas(c, now) =>
      if c !in w.calls || !w.calls[c].Verified? then w
      else
        var jti := w.calls[c].jti;
        var w' := w.(db := ComparedAndRevoked(w.db, jti, now));
        if Rotatable(w.db, jti, now) then Move(w', c, Won(jti)).(won := w.won + [jti])
        else Move(w', c, Stale(jti))
    case Lookup(c) =>
      if c !in w.calls || !w.calls[c].Stale? then w
      else
        var jti := w.calls[c].jti;
        if jti in w.db.tokens then Move(w, c, Compromised(w.db.tokens[jti].userId)) else Move(w, c, Finished)
    case Punish(c) =>
      if c !in w.calls || !w.calls[c].Compromised? then w
      else Move(w, c, Finished).(db := RevokedFamily(w.db, w.calls[c].userId))
    case Reread(c) =>
      if c !in w.calls || !w.calls[c].Won? then w
      else
        var jti := w.calls[c].jti;
        if jti in w.db.tokens then Move(w, c, Minting(jti, w.db.tokens[jti].userId))
        else Move(w, c, Finished)
    case Mint(c, newJti, now) =>
      if c !in w.calls || !w.calls[c].Minting? || newJti in w.owner then w
      else
        var Minting(jti, u) := w.calls[c];
        Move(w, c, Finished).(db := Created(w.db, newJti, u, now), owner := w.owner[newJti := u],
                              born := w.born + [(jti, newJti)])
    case Issue(jti, u, now) =>
      if jti in w.owner then w
      else w.(db := Created(w.db, jti, u, now), owner := w.owner[jti := u],
              issued := w.issued[u := Count(w.issued, u) + 1])
    case Logout(u) => w.(db := RevokedAllForUser(w.db, u))
    case AdminRevoke(u) => w.(db := RevokedFamily(w.db, u))
    case Cleanup(now) => w.(db := CleanedUp(w.db, now))
    case AddUser(u) =>
      if u in w.users then w
      else w.(users := w.users + {u}, db := w.db.(versions := w.db.versions[u := 0]))
    case DeleteUser(u) => w.(db := w.db.(versions := w.db.versions - {u}))
  }

  function Run(w: World, es: seq<Event>): World {
    if es == [] then w else Step(Run(w, es[..|es| - 1]), es[|es| - 1])
  }

  const INITIAL: World := World(Db(map[], map[]), map[], {}, map[], [], [], map[])

  // ----- Single use -----

  /** A call holding a token it has won and not yet exchanged. */
  predicate Holds(w: World, c: CallId, jti: Jti) {
    c in w.calls && (w.calls[c] == Won(jti) || (w.calls[c].Minting? && w.calls[c].jti == jti))
  }

  ghost predicate NoRepeats<T>(s: seq<T>) {
    forall i, j :: 0 <= i < j < |s| ==> s[i] != s[j]
  }

  /** Rows and minting calls agree with the record of owners. */
  ghost predicate OwnersAgree(w: World) {
    && (forall j :: j in w.db.tokens ==> j in w.owner && w.db.tokens[j].userId == w.owner[j])
    && (forall c :: c in w.calls && w.calls[c].Minting? ==>
          w.calls[c].jti in w.owner && w.calls[c].userId == w.owner[w.calls[c].jti])
  }

  /** No token was won twice, and a won token stays revoked. */
  ghost predicate WonOnce(w: World) {
    && (forall j :: j in w.won ==> j in w.owner && (j in w.db.tokens ==> w.db.tokens[j].revoked))
    && NoRepeats(w.won)
  }

  /** A won token is held by at most one call. */
  ghost predicate HeldOnce(w: World) {
    && (forall c, j :: Holds(w, c, j) ==> j in w.won)
    && (forall c, d, j :: Holds(w, c, j) && Holds(w, d, j) ==> c == d)
  }

  /** A token has at most one successor, and none while a call holds it. */
  ghost predicate BornOnce(w: World) {
    && (forall c, j, i :: Holds(w, c, j) && 0 <= i < |w.born| ==> w.born[i].0 != j)
    && (forall i :: 0 <= i < |w.born| ==> w.born[i].0 in w.won)
    && (forall i, j :: 0 <= i < j < |w.born| ==> w.born[i].0 != w.born[j].0)
  }

  ghost predicate SingleUse(w: World) {
    OwnersAgree(w) && WonOnce(w) && HeldOnce(w) && BornOnce(w)
  }

  /** Rows may disappear or become revoked, nothing else. */
  ghost predicate OnlyRevokes(db: Db, db': Db) {
    forall j :: j in db'.tokens ==>
      j in db.tokens && db'.tokens[j].userId == db.tokens[j].userId
      && (db.tokens[j].revoked ==> db'.tokens[j].revoked)
  }

  lemma RevokingKeeps(w: World, db': Db)
    requires SingleUse(w) && OnlyRevokes(w.db, db')
    ensures SingleUse(w.(db := db'))
  {
    var w' := w.(db := db');
    assert forall c, j :: Holds(w', c, j) <==> Holds(w, c, j);
  }

  /** A call moves between phases in which it holds nothing. */
  lemma IdleMoveKeeps(w: World, c: CallId, p: Phase)
    requires SingleUse(w) && !p.Won? && !p.Minting?
    ensures SingleUse(Move(w, c, p))
  {
    var w' := Move(w, c, p);
    assert forall d, j :: Holds(w', d, j) ==> Holds(w, d, j);
  }

  lemma WinKeeps(w: World, c: CallId, now: int)
    requires SingleUse(w) && c in w.calls && w.calls[c].Verified? && Rotatable(w.db, w.calls[c].jti, now)
    ensures SingleUse(Step(w, Cas(c, now)))
  {
    var jti := w.calls[c].jti;
    var w' := Step(w, Cas(c, now));
    assert jti !in w.won;
    assert forall d, j :: Holds(w', d, j) <==> Holds(w, d, j) || (d == c && j == jti);
    assert forall j :: j in w'.won <==> j in w.won || j == jti;
    assert forall d :: !Holds(w, d, jti);
    assert forall i :: 0 <= i < |w.born| ==> w.born[i].0 != jti;
  }

  lemma RereadKeeps(w: World, c: CallId)
    requires SingleUse(w) && c in w.calls && w.calls[c].Won? && w.calls[c].jti in w.db.tokens
    ensures SingleUse(Step(w, Reread(c)))
  {
    var w' := Step(w, Reread(c));
    assert Holds(w, c, w.calls[c].jti);
    assert forall d, j :: Holds(w', d, j) <==> Holds(w, d, j);
  }

  /** A new row with a new identifier. */
  lemma NewRowKeeps(w: World, jti: Jti, u: UserId, now: int)
    requires SingleUse(w) && jti !in w.owner
    ensures SingleUse(w.(db := Created(w.db, jti, u, now), owner := w.owner[jti := u]))
  {
    var w' := w.(db := Created(w.db, jti, u, now), owner := w.owner[jti := u]);
    assert forall c, j :: Holds(w', c, j) <==> Holds(w, c, j);
    assert jti !in w.won;
  }

  lemma BirthKeeps(w: World, c: CallId, newJti: Jti)
    requires SingleUse(w) && c in w.calls && w.calls[c].Minting?
    ensures SingleUse(Move(w, c, Finished).(born := w.born + [(w.calls[c].jti, newJti)]))
  {
    var jti := w.calls[c].jti;
    var w' := Move(w, c, Finished).(born := w.born + [(jti, newJti)]);
    assert Holds(w, c, jti);
    assert forall d, j :: Holds(w', d, j) <==> Holds(w, d, j) && d != c;
    assert forall d :: !Holds(w', d, jti);
  }

  lemma SingleUseStep(w: World, e: Event)
    requires SingleUse(w)
    ensures SingleUse(Step(w, e))
  {
    match e
    case Cas(c, now) =>
      if c in w.calls && w.calls[c].Verified? {
        if Rotatable(w.db, w.calls[c].jti, now) {
          WinKeeps(w, c, now);
        } else {
          IdleMoveKeeps(w, c, Stale(w.calls[c].jti));
        }
      }
    case Reread(c) =>
      if c in w.calls && w.calls[c].Won? {
        if w.calls[c].jti in w.db.tokens {
          RereadKeeps(w, c);
        } else {
          IdleMoveKeeps(w, c, Finished);
        }
      }
    case Mint(c, newJti, now) =>
      if c in w.calls && w.calls[c].Minting? && newJti !in w.owner {
        NewRowKeeps(w, newJti, w.calls[c].userId, now);
        BirthKeeps(w.(db := Created(w.db, newJti, w.calls[c].userId, now),
                      owner := w.owner[newJti := w.calls[c].userId]), c, newJti);
      }
    case Issue(jti, u, now) =>
      if jti !in w.owner {
        NewRowKeeps(w, jti, u, now);
        IrrelevantFields(w.(db := Created(w.db, jti, u, now), owner := w.owner[jti := u]), Step(w, e));
      }
    case Begin(c, jti) => IdleMoveKeeps(w, c, Verified(jti));
    case Lookup(c) =>
      if c in w.calls && w.calls[c].Stale? {
        IdleMoveKeeps(w, c, Step(w, e).calls[c]);
      }
    case Punish(c) =>
      if c in w.calls && w.calls[c].Compromised? {
        IdleMoveKeeps(w, c, Finished);
        RevokingKeeps(Move(w, c, Finished), RevokedFamily(w.db, w.calls[c].userId));
      }
    case _ => QuietKeeps(w, e);
  }

  lemma IrrelevantFields(w: World, w': World)
    requires SingleUse(w)
    requires w' == w.(issued := w'.issued, users := w'.users)
    ensures SingleUse(w')
  {
    assert forall c, j :: Holds(w', c, j) <==> Holds(w, c, j);
  }

  lemma QuietKeeps(w: World, e: Event)
    requires SingleUse(w)
    requires e.Logout? || e.AdminRevoke? || e.Cleanup? || e.AddUser? || e.DeleteUser?
    ensures SingleUse(Step(w, e))
  {
    var w' := Step(w, e);
    RevokingKeeps(w, w'.db);
    IrrelevantFields(w.(db := w'.db), w');
  }

  /**
    In every interleaving, each refresh token passes the compare-and-revoke at most once, and no
    token has two successors.
   */
  lemma {:induction false} RotationIsSingleUse(es: seq<Event>)
    ensures SingleUse(Run(INITIAL, es))
    ensures NoRepeats(Run(INITIAL, es).won)
    ensures var born := Run(INITIAL, es).born;
            forall i, j :: 0 <= i < j < |born| ==> born[i].0 != born[j].0
    decreases |es|
  {
    if es != [] {
      RotationIsSingleUse(es[..|es| - 1]);
      SingleUseStep(Run(INITIAL, es[..|es| - 1]), es[|es| - 1]);
    }
  }

  // ----- The live-token bound -----

  function Live(db: Db, u: UserId): set<Jti> {
    set j | j in db.tokens && db.tokens[j].userId == u && !db.tokens[j].revoked
  }

  /** Calls of `u` between their compare-and-revoke and the creation of the successor. */
  function Pending(w: World, u: UserId): set<CallId> {
    set c | c in w.calls && (w.calls[c].Won? || w.calls[c].Minting?)
            && w.calls[c].jti in w.owner && w.owner[w.calls[c].jti] == u
  }

  function Weight(w: World, u: UserId): nat {
    |Live(w.db, u)| + |Pending(w, u)|
  }

  /** A step that adds nothing to either set. */
  lemma WeightShrinks(w: World, w': World, u: UserId)
    requires Live(w'.db, u) <= Live(w.db, u) && Pending(w', u) <= Pending(w, u)
    ensures Weight(w', u) <= Weight(w, u)
  {
    SubsetSize(Live(w'.db, u), Live(w.db, u));
    SubsetSize(Pending(w', u), Pending(w, u));
  }

  lemma WinWeight(w: World, c: CallId, now: int, u: UserId)
    requires SingleUse(w) && c in w.calls && w.calls[c].Verified? && Rotatable(w.db, w.calls[c].jti, now)
    ensures Weight(Step(w, Cas(c, now)), u) <= Weight(w, u)
  {
    var jti := w.calls[c].jti;
    var w' := Step(w, Cas(c, now));
    if w.owner[jti] == u {
      assert Live(w'.db, u) == Live(w.db, u) - {jti};
      assert jti in Live(w.db, u);
      assert Pending(w', u) == Pending(w, u) + {c};
    } else {
      WeightShrinks(w, w', u);
    }
  }

  lemma HeldTokensRecorded(w: World)
    requires SingleUse(w)
    ensures forall c :: c in w.calls && (w.calls[c].Won? || w.calls[c].Minting?) ==> w.calls[c].jti in w.owner
  {
    assert forall c :: c in w.calls && (w.calls[c].Won? || w.calls[c].Minting?) ==>
      Holds(w, c, w.calls[c].jti);
  }

  lemma LiveCreated(db: Db, jti: Jti, v: UserId, now: int, u: UserId)
    requires jti !in db.tokens
    ensures |Live(Created(db, jti, v, now), u)| == |Live(db, u)| + if u == v then 1 else 0
  {
    var db' := Created(db, jti, v, now);
    if u == v {
      assert Live(db', u) == Live(db, u) + {jti};
    } else {
      assert Live(db', u) == Live(db, u);
    }
  }

  lemma PendingUnchanged(w: World, w': World, u: UserId)
    requires SingleUse(w) && w'.calls == w.calls
    requires forall j :: j in w.owner ==> j in w'.owner && w'.owner[j] == w.owner[j]
    ensures Pending(w', u) == Pending(w, u)
  {
    HeldTokensRecorded(w);
  }

  lemma MintWeight(w: World, c: CallId, newJti: Jti, now: int, u: UserId)
    requires SingleUse(w) && c in w.calls && w.calls[c].Minting? && newJti !in w.owner
    ensures Weight(Step(w, Mint(c, newJti, now)), u) <= Weight(w, u)
  {
    var w' := Step(w, Mint(c, newJti, now));
    LiveCreated(w.db, newJti, w.calls[c].userId, now, u);
    PendingUnchanged(w, w.(owner := w'.owner), u);
    assert Pending(w', u) == Pending(w, u) - {c};
    assert w.calls[c].userId == u ==> c in Pending(w, u);
    SubsetSize(Pending(w', u), Pending(w, u));
  }

  lemma IssueWeight(w: World, jti: Jti, v: UserId, now: int, u: UserId)
    requires SingleUse(w) && jti !in w.owner
    ensures Weight(Step(w, Issue(jti, v, now)), u) <= Weight(w, u) + if u == v then 1 else 0
  {
    LiveCreated(w.db, jti, v, now, u);
    PendingUnchanged(w, Step(w, Issue(jti, v, now)), u);
  }

  lemma RevokingWeight(w: World, db': Db, u: UserId)
    requires OnlyRevokes(w.db, db')
    ensures Weight(w.(db := db'), u) <= Weight(w, u)
  {
    WeightShrinks(w, w.(db := db'), u);
  }

  lemma WeightStep(w: World, e: Event, u: UserId)
    requires SingleUse(w)
    ensures Weight(Step(w, e), u) + Count(w.issued, u) <= Weight(w, u) + Count(Step(w, e).issued, u)
  {
    var w' := Step(w, e);
    match e
    case Cas(c, now) =>
      if c in w.calls && w.calls[c].Verified? && Rotatable(w.db, w.calls[c].jti, now) {
        WinWeight(w, c, now, u);
      } else {
        LostWeight(w, c, now, u);
      }
    case Mint(c, newJti, now) =>
      if c in w.calls && w.calls[c].Minting? && newJti !in w.owner {
        MintWeight(w, c, newJti, now, u);
      }
    case Issue(jti, v, now) =>
      if jti !in w.owner {
        IssueWeight(w, jti, v, now, u);
      }
    case Punish(c) => PunishWeight(w, c, u);
    case Logout(v) => RevokingWeight(w, w'.db, u);
    case AdminRevoke(v) => RevokingWeight(w, w'.db, u);
    case Cleanup(now) => RevokingWeight(w, w'.db, u);
    case _ => IdleWeight(w, e, u);
  }

  lemma LostWeight(w: World, c: CallId, now: int, u: UserId)
    requires !(c in w.calls && w.calls[c].Verified? && Rotatable(w.db, w.calls[c].jti, now))
    ensures Weight(Step(w, Cas(c, now)), u) <= Weight(w, u)
  {
    WeightShrinks(w, Step(w, Cas(c, now)), u);
  }

  lemma IdleWeight(w: World, e: Event, u: UserId)
    requires SingleUse(w) && (e.Begin? || e.Lookup? || e.Reread? || e.AddUser? || e.DeleteUser?)
    ensures Weight(Step(w, e), u) <= Weight(w, u)
  {
    WeightShrinks(w, Step(w, e), u);
  }

  lemma PunishWeight(w: World, c: CallId, u: UserId)
    ensures Weight(Step(w, Punish(c)), u) <= Weight(w, u)
  {
    WeightShrinks(w, Step(w, Punish(c)), u);
  }

  /**
    In every interleaving, a user's unrevoked refresh tokens and half-done rotations together never
    exceed the number of tokens created for the user outside `rotate`.
   */
  lemma {:induction false} LiveTokenBound(es: seq<Event>, u: UserId)
    ensures var w := Run(INITIAL, es);
            |Live(w.db, u)| + |Pending(w, u)| <= Count(w.issued, u)
    decreases |es|
  {
    if es != [] {
      var w := Run(INITIAL, es[..|es| - 1]);
      LiveTokenBound(es[..|es| - 1], u);
      RotationIsSingleUse(es[..|es| - 1]);
      WeightStep(w, es[|es| - 1], u);
    } else {
      assert Live(INITIAL.db, u) == {} && Pending(INITIAL, u) == {};
    }
  }

  // ----- Revocation is final -----

  /** Recorded once, and not rotatable now. */
  predicate Dead(w: World, jti: Jti) {
    jti in w.owner && (jti in w.db.tokens ==> w.db.tokens[jti].revoked)
  }

  lemma DeadStep(w: World, e: Event, jti: Jti)
    requires Dead(w, jti)
    ensures Dead(Step(w, e), jti)
    ensures var won := Step(w, e).won;
            won == w.won || (|won| == |w.won| + 1 && won[..|w.won|] == w.won && won[|w.won|] != jti)
  {
  }

  lemma {:induction false} DeadForever(w: World, es: seq<Event>, jti: Jti)
    requires Dead(w, jti)
    ensures Dead(Run(w, es), jti)
    ensures var won := Run(w, es).won;
            w.won <= won && jti !in won[|w.won|..]
    decreases |es|
  {
    if es != [] {
      var front := es[..|es| - 1];
      DeadForever(w, front, jti);
      DeadStep(Run(w, front), es[|es| - 1], jti);
    }
  }

  /** Accounts are never re-created, and a version never goes down. */
  lemma VersionStep(w: World, e: Event, u: UserId)
    requires u in w.users
    ensures var w' := Step(w, e);
            u in w'.users && (u in w'.db.versions ==>
              u in w.db.versions && w'.db.versions[u] >= w.db.versions[u])
  {
  }

  lemma {:induction false} VersionsOnlyGrow(w: World, es: seq<Event>, u: UserId)
    requires u in w.users
    ensures var w' := Run(w, es);
            u in w'.users && (u in w'.db.versions ==>
              u in w.db.versions && w'.db.versions[u] >= w.db.versions[u])
    decreases |es|
  {
    if es != [] {
      VersionsOnlyGrow(w, es[..|es| - 1], u);
      VersionStep(Run(w, es[..|es| - 1]), es[|es| - 1], u);
    }
  }

  /** The event revokes every session of `u`: token reuse was detected, or an administrator asked. */
  predicate Kills(w: World, e: Event, u: UserId) {
    u in w.db.versions && u in w.users &&
    match e
    case Punish(c) => c in w.calls && w.calls[c] == Compromised(u)
    case AdminRevoke(v) => v == u
    case _ => false
  }

  /**
    After a reuse-triggered transaction or `revokeAllTokens`, whatever happens next, no refresh token of
    the user recorded before it ever rotates.
   */
  lemma {:induction false} RevocationIsFinal(w: World, e: Event, es: seq<Event>, u: UserId, jti: Jti)
    requires OwnersAgree(w) && Kills(w, e, u) && jti in w.owner && w.owner[jti] == u
    ensures Dead(Run(Step(w, e), es), jti)
    ensures Step(w, e).won <= Run(Step(w, e), es).won && jti !in Run(Step(w, e), es).won[|Step(w, e).won|..]
  {
    assert Dead(Step(w, e), jti);
    DeadForever(Step(w, e), es, jti);
  }

  /** Nor is an access token with a version the user had before it ever accepted again. */
  lemma OldVersionsStayRejected(w: World, e: Event, es: seq<Event>, u: UserId, version: int)
    requires Kills(w, e, u) && version <= w.db.versions[u]
    ensures !VersionAccepted(Run(Step(w, e), es).db, u, version)
  {
    VersionsOnlyGrow(Step(w, e), es, u);
  }

  // ----- The steps around rotation -----

  /** A logout revokes the user's tokens and no other, and leaves the version alone. */
  lemma LogoutRevokes(w: World, u: UserId, j: Jti)
    ensures var w' := Step(w, Logout(u));
            && w'.db.tokens.Keys == w.db.tokens.Keys && w'.db.versions == w.db.versions && w'.calls == w.calls
            && (j in w.db.tokens ==>
                  w'.db.tokens[j] == Row(w.db.tokens[j].userId, w.db.tokens[j].expiresAt,
                                         w.db.tokens[j].revoked || w.db.tokens[j].userId == u))
  {
  }

  /** A revocation by an administrator, and the punishment of a reuse, revoke one family and raise one version. */
  lemma KillsRevokeFamily(w: World, e: Event, u: UserId)
    requires Kills(w, e, u)
    ensures FamilyRevoked(w.db, Step(w, e).db, u)
  {
  }

  /** A cleanup removes the rows that expired before now, and nothing else. */
  lemma CleanupRemovesExpired(w: World, now: int, j: Jti)
    ensures var w' := Step(w, Cleanup(now));
            && w'.db.versions == w.db.versions && w'.calls == w.calls
            && (j in w'.db.tokens <==> j in w.db.tokens && w.db.tokens[j].expiresAt >= now)
            && (j in w'.db.tokens ==> w'.db.tokens[j] == w.db.tokens[j])
  {
  }

  /** A token created outside `rotate` is live, belongs to its user, and is counted once, for that user. */
  lemma IssueCounts(w: World, jti: Jti, u: UserId, now: int, v: UserId)
    requires jti !in w.owner
    ensures var w' := Step(w, Issue(jti, u, now));
            && jti in w'.db.tokens && w'.db.tokens[jti] == Row(u, now + 604_800_000, false)
            && jti in w'.owner && w'.owner[jti] == u
            && Count(w'.issued, v) == Count(w.issued, v) + if u == v then 1 else 0
  {
  }

  /** A new account starts at version 0; a deleted one has no version and never gets one again. */
  lemma AccountsComeAndGo(w: World, u: UserId, v: int)
    ensures u !in w.users ==> VersionAccepted(Step(w, AddUser(u)).db, u, 0) && u in Step(w, AddUser(u)).users
    ensures !VersionAccepted(Step(w, DeleteUser(u)).db, u, v)
    ensures u in w.users ==> Step(w, AddUser(u)) == w
    ensures Step(w, DeleteUser(u)).db.tokens == w.db.tokens && Step(w, AddUser(u)).db.tokens == w.db.tokens
  {
  }

  // ----- One undisturbed call -----

  /** The events of a `rotate` call that nothing interrupts. */
  function Alone(w: World, c: CallId, jti: Jti, now: int, newJti: Jti, later: int): seq<Event> {
    if Rotatable(w.db, jti, now) then [Begin(c, jti), Cas(c, now), Reread(c), Mint(c, newJti, later)]
    else [Begin(c, jti), Cas(c, now), Lookup(c), Punish(c)]
  }

  function RunFrom(w: World, es: seq<Event>): World
    decreases |es|
  {
    if es == [] then w else RunFrom(Step(w, es[0]), es[1..])
  }

  /** The uninterrupted method is one schedule of the interleaved steps. */
  lemma AloneIsASchedule(w: World, c: CallId, jti: Jti, now: int, newJti: Jti, later: int)
    requires c !in w.calls && newJti !in w.owner
    ensures RunFrom(w, Alone(w, c, jti, now, newJti, later)).db == RotateAlone(w.db, jti, now, newJti, later).1
  {
    var w1 := Step(w, Begin(c, jti));
    var w2 := Step(w1, Cas(c, now));
    if Rotatable(w.db, jti, now) {
      var w3 := Step(w2, Reread(c));
      var w4 := Step(w3, Mint(c, newJti, later));
      assert RunFrom(w2, [Reread(c), Mint(c, newJti, later)]) == RunFrom(w3, [Mint(c, newJti, later)]);
      assert RunFrom(w3, [Mint(c, newJti, later)]) == w4;
    } else {
      var w3 := Step(w2, Lookup(c));
      var w4 := Step(w3, Punish(c));
      assert RunFrom(w2, [Lookup(c), Punish(c)]) == RunFrom(w3, [Punish(c)]);
      assert RunFrom(w3, [Punish(c)]) == w4;
    }
  }
}
