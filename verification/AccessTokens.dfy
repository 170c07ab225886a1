/**
  Where access tokens come from. Every handler that issues one is split at its awaited reads, and
  handlers interleave freely with each other and with changes to user records. The signature check
  is the membership of a token in `minted`; expiry and the blacklist, which only reject more tokens,
  are in TokenBlacklist.
 */
module AccessTokens {
  import opened Common

  type UserId = nat
  type HandlerId = nat
  type TokenId = nat // position in `minted`

  datatype Role = Admin | User

  /** The columns of a user record that matter here. */
  datatype Account = Account(role: Role, version: nat, isOtpEnabled: bool)

  /** The claims of a signed token. Only access tokens carry a version and an admin-mode flag. */
  datatype Claims =
    | Access(sub: UserId, role: Role, version: nat, isAdminMode: bool)
    | Refresh(sub: UserId)
    | Partial(sub: UserId) // between password and OTP code

  /** The handler a token was issued by, with the token the caller presented to it. */
  datatype Kind =
    | Login
    | OidcLogin
    | LoginOtp(temp: TokenId)
    | Rotation(refresh: TokenId)
    | Sudo(request: TokenId)
    | SudoOidc
    | OtpChange(request: TokenId) // enabling or disabling OTP
    | Create                      // a refresh token, see RefreshRotation

  /** A signed token, the handler that issued it, and the user record the handler had read. */
  datatype Minted = Minted(claims: Claims, kind: Kind, record: Option<Account>)

  datatype Handler =
    | Entered(kind: Kind, sub: UserId, isAdminMode: bool)           // guarded; the flag is the request's
    | Read(kind: Kind, sub: UserId, account: Account, isAdminMode: bool) // record read, flag for login()

  datatype World = World(
    users: map<UserId, Account>, minted: seq<Minted>, handlers: map<HandlerId, Handler>)

  // ----- Guards -----

  function Version(c: Claims): int {
    if c.Access? then c.version else -1
  }

  /** JwtAuthGuard on a token with a valid signature. */
  predicate JwtGuard(w: World, t: TokenId) {
    t < |w.minted|
    && w.minted[t].claims.sub in w.users
    && w.users[w.minted[t].claims.sub].version == Version(w.minted[t].claims)
  }

  function IsAdminMode(c: Claims): bool {
    c.Access? && c.isAdminMode
  }

  /** RolesGuard; the role is the one the JWT guard has just read from the database. */
  predicate RolesGuard(required: seq<Role>, role: Role, isAdminMode: bool) {
    required == []
    || (role in required && (Admin in required && |required| == 1 ==> isAdminMode))
  }

  /** A request with token `t` gets through both guards of a route. */
  predicate Passes(w: World, t: TokenId, required: seq<Role>) {
    JwtGuard(w, t)
    && RolesGuard(required, w.users[w.minted[t].claims.sub].role, IsAdminMode(w.minted[t].claims))
  }

  // ----- Issuing -----

  /** `AuthService.login` */
  function LoginClaims(sub: UserId, account: Account, isAdminMode: bool): Claims {
    Access(sub, account.role, account.version, if account.role == Admin then isAdminMode else false)
  }

  datatype Event =
    | Enter(h: HandlerId, kind: Kind, sub: UserId)
    | ReadAccount(h: HandlerId)
    | Mint(h: HandlerId)
    | SignRefresh(sub: UserId)
    | ChangeAccount(sub: UserId, account: Account) // any write to the record, creation included
    | DeleteAccount(sub: UserId)

  /** What lets a handler past its entry: credentials, or a token of the right sort for `sub`. */
  predicate MayEnter(w: World, kind: Kind, sub: UserId) {
    match kind
    case Login => true
    case OidcLogin => true
    case LoginOtp(t) => t < |w.minted| && w.minted[t].claims == Partial(sub)
    case Rotation(t) => t < |w.minted| && w.minted[t].claims == Refresh(sub)
    case Sudo(t) => JwtGuard(w, t) && w.minted[t].claims.sub == sub
    case SudoOidc => true
    case OtpChange(t) => JwtGuard(w, t) && w.minted[t].claims.sub == sub
    case Create => false
  }

  /** The second argument of `login` for each handler. */
  function AdminFlag(w: World, kind: Kind): bool
    requires kind.OtpChange? ==> kind.request < |w.minted|
  {
    match kind
    case Sudo(_) => true
    case SudoOidc => true
    case OtpChange(t) => IsAdminMode(w.minted[t].claims)
    case _ => false
  }

  predicate RefusesRecord(kind: Kind, account: Account) {
    (kind.Sudo? || kind.SudoOidc?) && account.role != Admin
  }

  function Step(w: World, e: Event): World {
    match e
    case Enter(h, kind, sub) =>
      if h in w.handlers || !MayEnter(w, kind, sub) then w
      else w.(handlers := w.handlers[h := Entered(kind, sub, AdminFlag(w, kind))])
    case ReadAccount(h) =>
      if h !in w.handlers || !w.handlers[h].Entered? || w.handlers[h].sub !in w.users then w
      else
        var Entered(kind, sub, flag) := w.handlers[h];
        var account := w.users[sub];
        if RefusesRecord(kind, account) then w.(handlers := w.handlers - {h})
        else w.(handlers := w.handlers[h := Read(kind, sub, account, flag)])
    case Mint(h) =>
      if h !in w.handlers || !w.handlers[h].Read? then w
      else
        var Read(kind, sub, account, flag) := w.handlers[h];
        if kind == Login && account.isOtpEnabled then
          w.(handlers := w.handlers - {h}, minted := w.minted + [Minted(Partial(sub), kind, Some(account))])
        else
          w.(handlers := w.handlers - {h},
             minted := w.minted + [Minted(LoginClaims(sub, account, flag), kind, Some(account))])
    case SignRefresh(sub) => w.(minted := w.minted + [Minted(Refresh(sub), Create, None)])
    case ChangeAccount(sub, account) => w.(users := w.users[sub := account])
    case DeleteAccount(sub) => w.(users := w.users - {sub})
  }

  function Run(es: seq<Event>): World {
    if es == [] then World(map[], [], map[]) else Step(Run(es[..|es| - 1]), es[|es| - 1])
  }

  // ----- What each handler issues -----

  /** The token a handler must have been shown: none, or an earlier one of the right sort for the user. */
  predicate Presented(ms: seq<Minted>, kind: Kind, sub: UserId) {
    match kind
    case LoginOtp(q) => q < |ms| && ms[q].claims == Partial(sub)
    case Rotation(q) => q < |ms| && ms[q].claims == Refresh(sub)
    case Sudo(q) => q < |ms| && ms[q].claims.Access? && ms[q].claims.sub == sub
    case OtpChange(q) => q < |ms| && ms[q].claims.Access? && ms[q].claims.sub == sub
    case Create => false
    case _ => true
  }

  /** Role and version of the record, and no admin mode. */
  predicate PlainAccess(c: Claims, a: Account) {
    c.Access? && c.role == a.role && c.version == a.version && !c.isAdminMode
  }

  /**
    The claims that belong to a handler, given the record it read: a password login of an account with
    OTP gives a partial token and nothing else; logins and refreshes never give admin mode; a sudo step
    gives it, to administrators only; an OTP change passes on the mode of the request.
   */
  predicate RightClaims(ms: seq<Minted>, t: TokenId)
    requires t < |ms|
  {
    var c, kind := ms[t].claims, ms[t].kind;
    if kind == Create then c.Refresh? && ms[t].record == None
    else
      && ms[t].record.Some?
      && Presented(ms[..t], kind, c.sub)
      && var a := ms[t].record.value;
         match kind
         case Login => if a.isOtpEnabled then c.Partial? else PlainAccess(c, a)
         case Sudo(q) => a.role == Admin && c == Access(c.sub, Admin, a.version, true)
         case SudoOidc => a.role == Admin && c == Access(c.sub, Admin, a.version, true)
         case OtpChange(q) =>
           c == Access(c.sub, a.role, a.version, a.role == Admin && ms[q].claims.isAdminMode)
         case _ => PlainAccess(c, a)
  }

  ghost predicate AllRight(ms: seq<Minted>) {
    forall t :: 0 <= t < |ms| ==> RightClaims(ms, t)
  }

  /** A handler under way: its entry token is right, and its flag is the one its kind calls for. */
  predicate HandlerRight(ms: seq<Minted>, h: Handler) {
    && Presented(ms, h.kind, h.sub)
    && h.isAdminMode ==
         (h.kind.Sudo? || h.kind.SudoOidc? || (h.kind.OtpChange? && ms[h.kind.request].claims.isAdminMode))
    && (h.Read? && (h.kind.Sudo? || h.kind.SudoOidc?) ==> h.account.role == Admin)
  }

  ghost predicate Sound(w: World) {
    AllRight(w.minted) && forall h :: h in w.handlers ==> HandlerRight(w.minted, w.handlers[h])
  }

  lemma PresentedLater(ms: seq<Minted>, m: Minted, kind: Kind, sub: UserId)
    requires Presented(ms, kind, sub)
    ensures Presented(ms + [m], kind, sub)
  {
  }

  lemma AppendRight(ms: seq<Minted>, m: Minted)
    requires AllRight(ms) && RightClaims(ms + [m], |ms|)
    ensures AllRight(ms + [m])
  {
    forall t | 0 <= t < |ms|
      ensures RightClaims(ms + [m], t)
    {
      assert RightClaims(ms, t);
      assert (ms + [m])[..t] == ms[..t];
    }
  }

  lemma HandlersLater(w: World, m: Minted)
    requires forall h :: h in w.handlers ==> HandlerRight(w.minted, w.handlers[h])
    ensures forall h :: h in w.handlers ==> HandlerRight(w.minted + [m], w.handlers[h])
  {
    forall h | h in w.handlers
      ensures HandlerRight(w.minted + [m], w.handlers[h])
    {
      PresentedLater(w.minted, m, w.handlers[h].kind, w.handlers[h].sub);
    }
  }

  lemma MintSound(w: World, h: HandlerId)
    requires Sound(w) && h in w.handlers && w.handlers[h].Read?
    ensures Sound(Step(w, Mint(h)))
  {
    var m := Step(w, Mint(h)).minted[|w.minted|];
    assert HandlerRight(w.minted, w.handlers[h]);
    assert (w.minted + [m])[..|w.minted|] == w.minted;
    AppendRight(w.minted, m);
    HandlersLater(w, m);
  }

  lemma StepSound(w: World, e: Event)
    requires Sound(w)
    ensures Sound(Step(w, e))
  {
    match e
    case Mint(h) =>
      if h in w.handlers && w.handlers[h].Read? {
        MintSound(w, h);
      }
    case SignRefresh(sub) =>
      AppendRight(w.minted, Minted(Refresh(sub), Create, None));
      HandlersLater(w, Minted(Refresh(sub), Create, None));
    case ReadAccount(h) =>
      assert h in w.handlers ==> HandlerRight(w.minted, w.handlers[h]);
    case _ =>
  }

  /** In every interleaving, every token has the claims that belong to its handler and the record it read. */
  lemma {:induction false} EveryTokenIsRight(es: seq<Event>)
    ensures Sound(Run(es))
    decreases |es|
  {
    if es != [] {
      EveryTokenIsRight(es[..|es| - 1]);
      StepSound(Run(es[..|es| - 1]), es[|es| - 1]);
    }
  }

  /** The record was the user's at some moment of the run. */
  ghost predicate WasRecord(es: seq<Event>, sub: UserId, a: Account) {
    exists j :: 0 <= j <= |es| && sub in Run(es[..j]).users && Run(es[..j]).users[sub] == a
  }

  lemma WasRecordLater(es: seq<Event>, e: Event, sub: UserId, a: Account)
    requires WasRecord(es, sub, a)
    ensures WasRecord(es + [e], sub, a)
  {
    var j :| 0 <= j <= |es| && sub in Run(es[..j]).users && Run(es[..j]).users[sub] == a;
    assert (es + [e])[..j] == es[..j];
  }

  ghost predicate RecordsRead(es: seq<Event>) {
    var w := Run(es);
    && (forall t :: 0 <= t < |w.minted| && w.minted[t].record.Some? ==>
          WasRecord(es, w.minted[t].claims.sub, w.minted[t].record.value))
    && (forall h :: h in w.handlers && w.handlers[h].Read? ==>
          WasRecord(es, w.handlers[h].sub, w.handlers[h].account))
  }

  /** The record behind a token is one the database held for its user. */
  lemma {:induction false} RecordsWereRead(es: seq<Event>)
    ensures RecordsRead(es)
    decreases |es|
  {
    if es != [] {
      var front, e := es[..|es| - 1], es[|es| - 1];
      var w, w' := Run(front), Run(es);
      assert es == front + [e];
      RecordsWereRead(front);
      forall t | 0 <= t < |w'.minted| && w'.minted[t].record.Some?
        ensures WasRecord(es, w'.minted[t].claims.sub, w'.minted[t].record.value)
      {
        WasRecordLater(front, e, w'.minted[t].claims.sub, w'.minted[t].record.value);
      }
      forall h | h in w'.handlers && w'.handlers[h].Read?
        ensures WasRecord(es, w'.handlers[h].sub, w'.handlers[h].account)
      {
        if h in w.handlers && w.handlers[h] == w'.handlers[h] {
          WasRecordLater(front, e, w'.handlers[h].sub, w'.handlers[h].account);
        } else {
          assert es[..|front|] == front;
          assert WasRecord(es, w'.handlers[h].sub, w'.handlers[h].account);
        }
      }
    }
  }

  /**
    The second factor: in every run, a password login gives an access token only for a record without
    OTP. An access token of the password flow whose record had OTP was issued by the code step, to which
    a partial token of the same user was shown, issued earlier by a password login of a record with OTP.
   */
  lemma SecondFactorIsAsked(es: seq<Event>, t: TokenId)
    requires t < |Run(es).minted| && Run(es).minted[t].claims.Access?
    ensures var m := Run(es).minted[t];
            m.kind == Login ==> m.record.Some? && !m.record.value.isOtpEnabled
    ensures var ms := Run(es).minted;
            ms[t].kind.LoginOtp? ==>
              var q := ms[t].kind.temp;
              && q < t && ms[q].claims == Partial(ms[t].claims.sub) && ms[q].kind == Login
              && ms[q].record.Some? && ms[q].record.value.isOtpEnabled
  {
    EveryTokenIsRight(es);
    var ms := Run(es).minted;
    assert RightClaims(ms, t);
    if ms[t].kind.LoginOtp? {
      assert RightClaims(ms, ms[t].kind.temp);
    }
  }

  // ----- A handler run alone -----

  /**
    A handler that nothing interrupts and that was shown the right token issues one token, with the
    claims that belong to it, from the record the database holds.
   */
  lemma IssuesAlone(w: World, h: HandlerId, kind: Kind, sub: UserId)
    requires Sound(w) && h !in w.handlers && sub in w.users && Presented(w.minted, kind, sub)
    requires kind.Sudo? ==> JwtGuard(w, kind.request) && w.users[sub].role == Admin
    requires kind.OtpChange? ==> JwtGuard(w, kind.request)
    requires kind == SudoOidc ==> w.users[sub].role == Admin
    ensures var w' := Step(Step(Step(w, Enter(h, kind, sub)), ReadAccount(h)), Mint(h));
            && w'.users == w.users && w'.handlers == w.handlers
            && |w'.minted| == |w.minted| + 1 && w'.minted[..|w.minted|] == w.minted
            && w'.minted[|w.minted|].kind == kind && w'.minted[|w.minted|].claims.sub == sub
            && w'.minted[|w.minted|].record == Some(w.users[sub])
            && RightClaims(w'.minted, |w.minted|)
  {
    var w1 := Step(w, Enter(h, kind, sub));
    var w2 := Step(w1, ReadAccount(h));
    var w3 := Step(w2, Mint(h));
    StepSound(w, Enter(h, kind, sub));
    StepSound(w1, ReadAccount(h));
    MintSound(w2, h);
    assert w3.handlers == w.handlers;
  }

  /** A sudo step of anyone but an administrator is refused and leaves nothing behind. */
  lemma SudoRefusesOthers(w: World, h: HandlerId, kind: Kind, sub: UserId)
    requires h !in w.handlers && sub in w.users && w.users[sub].role != Admin && (kind.Sudo? || kind == SudoOidc)
    ensures Step(Step(w, Enter(h, kind, sub)), ReadAccount(h)) == w
  {
    assert Step(Step(w, Enter(h, kind, sub)), ReadAccount(h)).handlers == w.handlers;
  }

  /** A refresh token that is signed can be shown to a rotation of its user. */
  lemma SignedRefreshCanRotate(w: World, sub: UserId)
    ensures var w' := Step(w, SignRefresh(sub));
            Presented(w'.minted, Rotation(|w.minted|), sub) && w.minted <= w'.minted && w'.users == w.users
  {
  }

  /**
    A write to a user's record cuts off exactly the user's tokens of other versions, and deleting the
    user cuts off all of them; tokens of other users pass as before.
   */
  lemma RecordWritesCutOff(w: World, sub: UserId, account: Account, t: TokenId)
    requires t < |w.minted|
    ensures w.minted[t].claims.sub == sub ==>
              && (JwtGuard(Step(w, ChangeAccount(sub, account)), t) <==>
                    w.minted[t].claims.Access? && w.minted[t].claims.version == account.version)
              && !JwtGuard(Step(w, DeleteAccount(sub)), t)
    ensures w.minted[t].claims.sub != sub ==>
              && JwtGuard(Step(w, ChangeAccount(sub, account)), t) == JwtGuard(w, t)
              && JwtGuard(Step(w, DeleteAccount(sub)), t) == JwtGuard(w, t)
    ensures sub in Step(w, ChangeAccount(sub, account)).users
            && Step(w, ChangeAccount(sub, account)).users[sub] == account
  {
  }

  lemma MintedGrows(w: World, e: Event)
    ensures w.minted <= Step(w, e).minted
  {
  }

  function RunFrom(w: World, es: seq<Event>): World
    decreases |es|
  {
    if es == [] then w else RunFrom(Step(w, es[0]), es[1..])
  }

  lemma {:induction false} MintedStays(w: World, es: seq<Event>)
    ensures w.minted <= RunFrom(w, es).minted
    decreases |es|
  {
    if es != [] {
      MintedGrows(w, es[0]);
      MintedStays(Step(w, es[0]), es[1..]);
    }
  }

  lemma RouteForAll(role: Role, isAdminMode: bool)
    ensures RolesGuard([Admin, User], role, isAdminMode)
  {
    match role
    case Admin => assert [Admin, User][0] == role;
    case User => assert [Admin, User][1] == role;
  }

  /**
    An access token is accepted at every later moment at which the user's version is the one it carries,
    and at no other; with the guard passed, a route for administrators takes it exactly when the user is
    one now and the token has admin mode, and a route for everybody takes it always.
   */
  lemma AcceptedWhileCurrent(w: World, es: seq<Event>, t: TokenId)
    requires t < |w.minted| && w.minted[t].claims.Access?
    ensures var c, users := w.minted[t].claims, RunFrom(w, es).users;
            && (JwtGuard(RunFrom(w, es), t) <==> c.sub in users && users[c.sub].version == c.version)
            && (Passes(RunFrom(w, es), t, []) <==> c.sub in users && users[c.sub].version == c.version)
            && (Passes(RunFrom(w, es), t, [Admin, User]) <==> c.sub in users && users[c.sub].version == c.version)
            && (Passes(RunFrom(w, es), t, [Admin]) <==>
                  c.sub in users && users[c.sub].version == c.version && users[c.sub].role == Admin && c.isAdminMode)
            && (Passes(RunFrom(w, es), t, [User]) <==>
                  c.sub in users && users[c.sub].version == c.version && users[c.sub].role == User)
  {
    MintedStays(w, es);
    assert RunFrom(w, es).minted[t] == w.minted[t];
    var w' := RunFrom(w, es);
    if JwtGuard(w', t) {
      RouteForAll(w'.users[w.minted[t].claims.sub].role, IsAdminMode(w.minted[t].claims));
    }
  }

  /**
    What a handler has just issued is accepted: a partial token nowhere, an access token on every route
    open to users and administrators, and the token of a sudo step on routes for administrators only.
   */
  lemma NewTokenIsAccepted(w: World, h: HandlerId, kind: Kind, sub: UserId)
    requires Sound(w) && h !in w.handlers && sub in w.users && Presented(w.minted, kind, sub)
    requires kind.Sudo? ==> JwtGuard(w, kind.request) && w.users[sub].role == Admin
    requires kind.OtpChange? ==> JwtGuard(w, kind.request)
    requires kind == SudoOidc ==> w.users[sub].role == Admin
    ensures var w' := Step(Step(Step(w, Enter(h, kind, sub)), ReadAccount(h)), Mint(h));
            && (JwtGuard(w', |w.minted|) <==> !(kind == Login && w.users[sub].isOtpEnabled))
            && (kind.Sudo? || kind == SudoOidc ==> Passes(w', |w.minted|, [Admin]))
            && (kind == Login || kind == OidcLogin || kind.LoginOtp? || kind.Rotation? ==>
                  !Passes(w', |w.minted|, [Admin]))
  {
    IssuesAlone(w, h, kind, sub);
    var w' := Step(Step(Step(w, Enter(h, kind, sub)), ReadAccount(h)), Mint(h));
    if w'.minted[|w.minted|].claims.Access? {
      AcceptedNow(w', |w.minted|);
    }
  }

  lemma AcceptedNow(w: World, t: TokenId)
    requires t < |w.minted| && w.minted[t].claims.Access?
    ensures var c, users := w.minted[t].claims, w.users;
            && (JwtGuard(w, t) <==> c.sub in users && users[c.sub].version == c.version)
            && (Passes(w, t, [Admin]) <==>
                  c.sub in users && users[c.sub].version == c.version && users[c.sub].role == Admin && c.isAdminMode)
  {
    AcceptedWhileCurrent(w, [], t);
  }

  // ----- Provenance -----

  /** Token `t` came from a sudo step, or was re-issued by an OTP change from one that did. */
  predicate TracesToSudo(ms: seq<Minted>, t: TokenId)
    decreases t
  {
    t < |ms| && ms[t].claims.Access? && ms[t].claims.role == Admin &&
    match ms[t].kind
    case Sudo(r) => r < t && ms[r].claims.sub == ms[t].claims.sub
    case SudoOidc => true
    case OtpChange(r) => r < t && ms[r].claims.sub == ms[t].claims.sub && TracesToSudo(ms, r)
    case _ => false
  }

  lemma {:induction false} AdminModeTraces(ms: seq<Minted>, t: TokenId)
    requires AllRight(ms) && t < |ms| && IsAdminMode(ms[t].claims)
    ensures TracesToSudo(ms, t)
    decreases t
  {
    assert RightClaims(ms, t);
    if ms[t].kind.OtpChange? {
      AdminModeTraces(ms, ms[t].kind.request);
    }
  }

  ghost predicate Provenance(ms: seq<Minted>) {
    forall t :: 0 <= t < |ms| && IsAdminMode(ms[t].claims) ==> TracesToSudo(ms, t)
  }

  /** In every interleaving, every admin-mode token traces to a sudo step of its user. */
  lemma {:induction false} ProvenanceAlways(es: seq<Event>)
    ensures Provenance(Run(es).minted)
  {
    var ms := Run(es).minted;
    EveryTokenIsRight(es);
    forall t | 0 <= t < |ms| && IsAdminMode(ms[t].claims)
      ensures TracesToSudo(ms, t)
    {
      AdminModeTraces(ms, t);
    }
  }

  /** Refresh tokens and the tokens between password and OTP code never pass the guard. */
  lemma AcceptedTokenIsAccess(w: World, t: TokenId)
    requires JwtGuard(w, t)
    ensures w.minted[t].claims.Access?
  {
  }

  /** The sudo step behind a token. */
  function SudoOrigin(ms: seq<Minted>, t: TokenId): (s: TokenId)
    requires TracesToSudo(ms, t)
    ensures s <= t && ms[s].claims.sub == ms[t].claims.sub
    ensures ms[s].kind.Sudo? || ms[s].kind.SudoOidc?
    ensures ms[s].claims.Access? && ms[s].claims.role == Admin
    decreases t
  {
    if ms[t].kind.OtpChange? then SudoOrigin(ms, ms[t].kind.request) else t
  }

  /**
    In every reachable state, a request that passes an ADMIN-only route carries an access token whose
    admin mode goes back, through OTP changes by the same user only, to a sudo step of that user.
   */
  lemma {:induction false} AdminRequestsTraceToSudo(es: seq<Event>, t: TokenId)
    requires Passes(Run(es), t, [Admin])
    ensures var ms := Run(es).minted;
            && TracesToSudo(ms, t)
            && ms[t].claims.Access?
            && Run(es).users[ms[t].claims.sub].role == Admin
            && !ms[t].kind.Rotation? && !ms[t].kind.Login? && !ms[t].kind.OidcLogin? && !ms[t].kind.LoginOtp?
            && var s := SudoOrigin(ms, t);
               ms[s].claims.sub == ms[t].claims.sub && (ms[s].kind.Sudo? || ms[s].kind.SudoOidc?)
  {
    ProvenanceAlways(es);
  }

  /** Refreshing always drops admin mode, whatever the previous access token had. */
  lemma RefreshDropsAdminMode(es: seq<Event>, t: TokenId)
    requires t < |Run(es).minted| && Run(es).minted[t].kind.Rotation?
    ensures !IsAdminMode(Run(es).minted[t].claims)
    ensures !Passes(Run(es), t, [Admin])
  {
    ProvenanceAlways(es);
  }
}
