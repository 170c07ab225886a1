/**
  Live terminal sessions of the SSH and the RDP gateway: what reaches a target, from handlers and
  polls that are suspended at every await. Clock readings are in milliseconds and never go back.
 */
module TerminalSessions {
  import opened Common

  type UserId = nat
  type MachineId = nat
  type ClientId = nat
  type SessionId = nat
  type CallId = nat

  const ACCESS_CACHE_MS: int := 5_000

  datatype Gateway = SSH | RDP

  datatype Cache = Cache(allowed: bool, lastChecked: int)

  /** `open` says that the stream to the target is writable. */
  datatype Session = Session(client: ClientId, user: UserId, machine: MachineId, cache: Option<Cache>, open: bool)

  /** Keystrokes or frames, or a new window size. */
  datatype Kind = Data | Size

  /** What reached a target: when its handler read the clock, and the cache the write relied on. */
  datatype Output = Output(session: SessionId, kind: Kind, now: int, relied: Option<Cache>)

  /** The access check answered true. */
  datatype Answer = Answer(user: UserId, machine: MachineId, at: int)

  /** A positive answer entered in the cache of a session. */
  datatype Record = Record(session: SessionId, evaluatedAt: int, recordedAt: int, byPoll: bool)

  /** A handler or poll suspended at an await. */
  datatype Suspended =
    | Starting(client: ClientId, user: UserId, machine: MachineId)
    | Checking(client: ClientId, session: SessionId, kind: Kind, now: int)
    | Checked(client: ClientId, session: SessionId, kind: Kind, now: int, answer: bool, at: int)
    | PollingToken(client: ClientId, session: SessionId)
    | PollingAccess(client: ClientId, session: SessionId)
    | Polled(client: ClientId, session: SessionId, answer: bool, at: int)
    | Closing(client: ClientId, session: SessionId)

  datatype World = World(
    gateway: Gateway,
    clock: int,
    sessions: map<SessionId, Session>,
    current: map<ClientId, SessionId>,
    suspended: map<CallId, Suspended>,
    outputs: seq<Output>,
    answers: set<Answer>,
    records: set<Record>)

  datatype Event =
    | Start(call: CallId, client: ClientId, user: UserId, machine: MachineId, at: int)
    | Opened(call: CallId, session: SessionId, at: int)
    | Message(call: CallId, client: ClientId, kind: Kind, at: int)
    | Evaluate(call: CallId, answer: bool, at: int)
    | PollTick(call: CallId, client: ClientId, at: int)
    | TokenRead(call: CallId, revoked: bool, at: int)
    | Disconnect(call: CallId, client: ClientId, at: int)
    | Resume(call: CallId, at: int)
    | Fail(call: CallId, at: int)
    | RemoteClose(session: SessionId, at: int)

  // ----- Steps -----

  predicate IsFresh(cache: Option<Cache>, now: int) {
    cache.Some? && now - cache.value.lastChecked <= ACCESS_CACHE_MS
  }

  predicate FreshlyAllowed(cache: Option<Cache>, now: int) {
    IsFresh(cache, now) && cache.value.allowed
  }

  function Suspend(w: World, call: CallId, h: Suspended): World {
    w.(suspended := w.suspended[call := h])
  }

  function Finished(w: World, call: CallId): World {
    w.(suspended := w.suspended - {call})
  }

  function Ended(w: World, sid: SessionId): World {
    if sid in w.sessions then w.(sessions := w.sessions[sid := w.sessions[sid].(open := false)]) else w
  }

  /** End the stream the handler holds; forget whatever session the client has. */
  function Teardown(w: World, client: ClientId, sid: SessionId): World {
    Ended(w, sid).(current := w.current - {client})
  }

  function SetCache(w: World, sid: SessionId, allowed: bool, at: int): World {
    if sid !in w.sessions then w
    else w.(sessions := w.sessions[sid := w.sessions[sid].(cache := Some(Cache(allowed, at)))])
  }

  function CacheOf(w: World, sid: SessionId): Option<Cache> {
    if sid in w.sessions then w.sessions[sid].cache else None
  }

  predicate IsOpen(w: World, sid: SessionId) {
    sid in w.sessions && w.sessions[sid].open
  }

  function Emit(w: World, sid: SessionId, kind: Kind, now: int): World {
    w.(outputs := w.outputs + [Output(sid, kind, now, CacheOf(w, sid))])
  }

  /** The end of a message handler, once it knows whether the user is still allowed. */
  function Decide(w: World, client: ClientId, sid: SessionId, kind: Kind, now: int, allowed: bool): World {
    if !allowed then Teardown(w, client, sid)
    else if kind == Data then (if IsOpen(w, sid) then Emit(w, sid, kind, now) else w)
    else Emit(w, sid, kind, now)
  }

  function Noted(w: World, sid: SessionId, evaluatedAt: int, recordedAt: int, byPoll: bool, answer: bool): World {
    if answer then w.(records := w.records + {Record(sid, evaluatedAt, recordedAt, byPoll)}) else w
  }

  function Received(w: World, call: CallId, client: ClientId, kind: Kind, now: int): World {
    if call in w.suspended || client !in w.current || w.current[client] !in w.sessions then w
    else
      var sid := w.current[client];
      var cache := w.sessions[sid].cache;
      if w.gateway == RDP && kind == Size then
        (if IsOpen(w, sid) then Emit(w, sid, kind, now) else w)
      else if IsFresh(cache, now) then Decide(w, client, sid, kind, now, cache.value.allowed)
      else Suspend(w, call, Checking(client, sid, kind, now))
  }

  function Evaluated(w: World, call: CallId, answer: bool, at: int): World {
    if call !in w.suspended then w
    else
      var h := w.suspended[call];
      if !(h.Checking? || h.PollingAccess?) || h.session !in w.sessions then w
      else
        var s := w.sessions[h.session];
        var h' := if h.Checking? then Checked(h.client, h.session, h.kind, h.now, answer, at)
                  else Polled(h.client, h.session, answer, at);
        Suspend(w, call, h').(answers := if answer then w.answers + {Answer(s.user, s.machine, at)} else w.answers)
  }

  function Resumed(w: World, call: CallId, at: int): World {
    if call !in w.suspended then w
    else
      match w.suspended[call]
      case Checked(client, sid, kind, now, answer, evaluatedAt) =>
        var w1 := Noted(SetCache(Finished(w, call), sid, answer, now), sid, evaluatedAt, now, false, answer);
        Decide(w1, client, sid, kind, now, answer)
      case Polled(client, sid, answer, evaluatedAt) =>
        var w1 := Noted(SetCache(Finished(w, call), sid, answer, at), sid, evaluatedAt, at, true, answer);
        if answer then w1 else Teardown(w1, client, sid)
      case Closing(client, sid) => Teardown(Finished(w, call), client, sid)
      case _ => w
  }

  function Apply(w: World, e: Event): World {
    match e
    case Start(call, client, user, machine, at) =>
      if call in w.suspended || client in w.current then w else Suspend(w, call, Starting(client, user, machine))
    case Opened(call, sid, at) =>
      if call !in w.suspended || !w.suspended[call].Starting? || sid in w.sessions then w
      else
        var h := w.suspended[call];
        Finished(w, call).(sessions := w.sessions[sid := Session(h.client, h.user, h.machine, None, true)],
                           current := w.current[h.client := sid])
    case Message(call, client, kind, at) => Received(w, call, client, kind, at)
    case Evaluate(call, answer, at) => Evaluated(w, call, answer, at)
    case PollTick(call, client, at) =>
      if call in w.suspended || client !in w.current then w
      else Suspend(w, call, PollingToken(client, w.current[client]))
    case TokenRead(call, revoked, at) =>
      if call !in w.suspended || !w.suspended[call].PollingToken? then w
      else
        var h := w.suspended[call];
        if revoked then Teardown(SetCache(Finished(w, call), h.session, false, at), h.client, h.session)
        else Suspend(w, call, PollingAccess(h.client, h.session))
    case Disconnect(call, client, at) =>
      if call in w.suspended || client !in w.current then w
      else Suspend(w, call, Closing(client, w.current[client]))
    case Resume(call, at) => Resumed(w, call, at)
    case Fail(call, at) => Finished(w, call)
    case RemoteClose(sid, at) => Ended(w, sid)
  }

  /** One synchronous stretch of one handler; an event read before the last one cannot happen. */
  function Step(w: World, e: Event): World {
    if e.at < w.clock then w else Apply(w.(clock := e.at), e)
  }

  function Run(w: World, es: seq<Event>): World
    decreases |es|
  {
    if es == [] then w else Run(Step(w, es[0]), es[1..])
  }

  function Initial(g: Gateway, clock: int): World {
    World(g, clock, map[], map[], map[], [], {}, {})
  }

  // ----- What every step keeps -----

  /** The recorded answer was given, for this session's user and machine. */
  predicate RecordSound(w: World, r: Record) {
    && r.session in w.sessions
    && Answer(w.sessions[r.session].user, w.sessions[r.session].machine, r.evaluatedAt) in w.answers
    && (if r.byPoll then r.evaluatedAt <= r.recordedAt else r.recordedAt <= r.evaluatedAt)
  }

  predicate RecordedAt(w: World, sid: SessionId, t: int) {
    exists r :: r in w.records && r.session == sid && r.recordedAt == t
  }

  predicate CacheSound(w: World, sid: SessionId, cache: Option<Cache>) {
    cache.Some? ==>
      cache.value.lastChecked <= w.clock && (cache.value.allowed ==> RecordedAt(w, sid, cache.value.lastChecked))
  }

  predicate SuspendedSound(w: World, h: Suspended) {
    match h
    case Starting(client, user, machine) => true
    case Checking(client, sid, kind, now) => sid in w.sessions && now <= w.clock && (w.gateway == RDP ==> kind == Data)
    case Checked(client, sid, kind, now, answer, at) =>
      && sid in w.sessions && now <= at <= w.clock && (w.gateway == RDP ==> kind == Data)
      && (answer ==> Answer(w.sessions[sid].user, w.sessions[sid].machine, at) in w.answers)
    case PollingToken(client, sid) => sid in w.sessions
    case PollingAccess(client, sid) => sid in w.sessions
    case Polled(client, sid, answer, at) =>
      && sid in w.sessions && at <= w.clock
      && (answer ==> Answer(w.sessions[sid].user, w.sessions[sid].machine, at) in w.answers)
    case Closing(client, sid) => sid in w.sessions
  }

  /** The output relied on a positive answer recorded at most five seconds before its handler read the clock. */
  predicate Covered(w: World, o: Output) {
    && o.relied.Some? && o.relied.value.allowed
    && 0 <= o.now - o.relied.value.lastChecked <= ACCESS_CACHE_MS
    && RecordedAt(w, o.session, o.relied.value.lastChecked)
  }

  /** The outputs that a check must cover: all but the window sizes of the RDP gateway. */
  predicate NeedsCover(w: World, o: Output) {
    w.gateway == SSH || o.kind == Data
  }

  predicate Sound(w: World) {
    && (forall c :: c in w.current ==> w.current[c] in w.sessions)
    && (forall sid :: sid in w.sessions ==> CacheSound(w, sid, w.sessions[sid].cache))
    && (forall c :: c in w.suspended ==> SuspendedSound(w, w.suspended[c]))
    && (forall r :: r in w.records ==> RecordSound(w, r))
    && (forall i :: 0 <= i < |w.outputs| && NeedsCover(w, w.outputs[i]) ==> Covered(w, w.outputs[i]))
  }

  /** Nothing that a recorded fact depends on is lost. */
  predicate Extends(w: World, w': World) {
    && w.gateway == w'.gateway
    && w.clock <= w'.clock
    && w.answers <= w'.answers
    && w.records <= w'.records
    && (forall sid :: sid in w.sessions ==> sid in w'.sessions && SameSession(w, w', sid))
  }

  predicate SameSession(w: World, w': World, sid: SessionId)
    requires sid in w.sessions && sid in w'.sessions
  {
    w.sessions[sid].user == w'.sessions[sid].user && w.sessions[sid].machine == w'.sessions[sid].machine
  }

  lemma SuspendedExtends(w: World, w': World, h: Suspended)
    requires Extends(w, w') && SuspendedSound(w, h)
    ensures SuspendedSound(w', h)
  {
    if !h.Starting? {
      assert SameSession(w, w', h.session);
    }
  }

  lemma CacheExtends(w: World, w': World, sid: SessionId, cache: Option<Cache>)
    requires Extends(w, w') && CacheSound(w, sid, cache)
    ensures CacheSound(w', sid, cache)
  {
  }

  lemma RecordExtends(w: World, w': World, r: Record)
    requires Extends(w, w') && RecordSound(w, r)
    ensures RecordSound(w', r)
  {
    assert SameSession(w, w', r.session);
  }

  lemma CoveredExtends(w: World, w': World, o: Output)
    requires Extends(w, w') && Covered(w, o)
    ensures Covered(w', o)
  {
  }

  /** A step need only account for what it adds. */
  lemma SoundExtends(w: World, w': World)
    requires Sound(w) && Extends(w, w')
    requires forall c :: c in w'.current ==> w'.current[c] in w'.sessions
    requires forall sid :: sid in w'.sessions ==>
               (sid in w.sessions && w'.sessions[sid].cache == w.sessions[sid].cache)
               || CacheSound(w', sid, w'.sessions[sid].cache)
    requires forall c :: c in w'.suspended ==>
               (c in w.suspended && w.suspended[c] == w'.suspended[c]) || SuspendedSound(w', w'.suspended[c])
    requires forall r :: r in w'.records ==> r in w.records || RecordSound(w', r)
    requires forall i :: 0 <= i < |w'.outputs| ==>
               (i < |w.outputs| && w.outputs[i] == w'.outputs[i])
               || (NeedsCover(w', w'.outputs[i]) ==> Covered(w', w'.outputs[i]))
    ensures Sound(w')
  {
    forall sid | sid in w'.sessions
      ensures CacheSound(w', sid, w'.sessions[sid].cache)
    {
      if sid in w.sessions && w'.sessions[sid].cache == w.sessions[sid].cache {
        CacheExtends(w, w', sid, w.sessions[sid].cache);
      }
    }
    forall c | c in w'.suspended
      ensures SuspendedSound(w', w'.suspended[c])
    {
      if c in w.suspended && w.suspended[c] == w'.suspended[c] {
        SuspendedExtends(w, w', w.suspended[c]);
      }
    }
    forall r | r in w'.records
      ensures RecordSound(w', r)
    {
      if r in w.records {
        RecordExtends(w, w', r);
      }
    }
    forall i | 0 <= i < |w'.outputs| && NeedsCover(w', w'.outputs[i])
      ensures Covered(w', w'.outputs[i])
    {
      if i < |w.outputs| && w.outputs[i] == w'.outputs[i] {
        CoveredExtends(w, w', w.outputs[i]);
      }
    }
  }

  lemma TeardownSound(w: World, client: ClientId, sid: SessionId)
    requires Sound(w)
    ensures Sound(Teardown(w, client, sid))
  {
    SoundExtends(w, Teardown(w, client, sid));
  }

  lemma FinishedSound(w: World, call: CallId)
    requires Sound(w)
    ensures Sound(Finished(w, call))
  {
    SoundExtends(w, Finished(w, call));
  }

  lemma SuspendSound(w: World, call: CallId, h: Suspended)
    requires Sound(w) && SuspendedSound(w, h)
    ensures Sound(Suspend(w, call, h))
  {
    SuspendedExtends(w, Suspend(w, call, h), h);
    SoundExtends(w, Suspend(w, call, h));
  }

  lemma EmitSound(w: World, sid: SessionId, kind: Kind, now: int)
    requires Sound(w)
    requires var o := Output(sid, kind, now, CacheOf(w, sid)); NeedsCover(w, o) ==> Covered(w, o)
    ensures Sound(Emit(w, sid, kind, now))
  {
    var w' := Emit(w, sid, kind, now);
    if NeedsCover(w, w'.outputs[|w.outputs|]) {
      CoveredExtends(w, w', w'.outputs[|w.outputs|]);
    }
    SoundExtends(w, w');
  }

  /** What a handler or poll enters in the cache is backed by an answer. */
  lemma NotedSound(w: World, sid: SessionId, evaluatedAt: int, recordedAt: int, byPoll: bool, answer: bool)
    requires Sound(w) && sid in w.sessions && recordedAt <= w.clock
    requires answer ==> Answer(w.sessions[sid].user, w.sessions[sid].machine, evaluatedAt) in w.answers
    requires if byPoll then evaluatedAt <= recordedAt else recordedAt <= evaluatedAt
    ensures Sound(Noted(SetCache(w, sid, answer, recordedAt), sid, evaluatedAt, recordedAt, byPoll, answer))
  {
    var w' := Noted(SetCache(w, sid, answer, recordedAt), sid, evaluatedAt, recordedAt, byPoll, answer);
    if answer {
      var r := Record(sid, evaluatedAt, recordedAt, byPoll);
      assert r in w'.records && RecordSound(w', r);
    }
    assert CacheSound(w', sid, w'.sessions[sid].cache);
    SoundExtends(w, w');
  }

  lemma DecideSound(w: World, client: ClientId, sid: SessionId, kind: Kind, now: int, allowed: bool)
    requires Sound(w) && sid in w.sessions && now <= w.clock
    requires allowed ==> FreshlyAllowed(w.sessions[sid].cache, now) && w.sessions[sid].cache.value.lastChecked <= now
    ensures Sound(Decide(w, client, sid, kind, now, allowed))
  {
    if allowed {
      assert CacheSound(w, sid, w.sessions[sid].cache);
      EmitSound(w, sid, kind, now);
    } else {
      TeardownSound(w, client, sid);
    }
  }

  lemma ReceivedSound(w: World, call: CallId, client: ClientId, kind: Kind)
    requires Sound(w)
    ensures Sound(Received(w, call, client, kind, w.clock))
  {
    if call !in w.suspended && client in w.current {
      var sid := w.current[client];
      assert CacheSound(w, sid, w.sessions[sid].cache);
      if w.gateway == RDP && kind == Size {
        EmitSound(w, sid, kind, w.clock);
      } else if IsFresh(w.sessions[sid].cache, w.clock) {
        DecideSound(w, client, sid, kind, w.clock, w.sessions[sid].cache.value.allowed);
      } else {
        SuspendSound(w, call, Checking(client, sid, kind, w.clock));
      }
    }
  }

  lemma EvaluatedSound(w: World, call: CallId, answer: bool)
    requires Sound(w)
    ensures Sound(Evaluated(w, call, answer, w.clock))
  {
    var w' := Evaluated(w, call, answer, w.clock);
    if call in w.suspended {
      assert SuspendedSound(w, w.suspended[call]);
    }
    SoundExtends(w, w');
  }

  lemma ResumedSound(w: World, call: CallId)
    requires Sound(w)
    ensures Sound(Resumed(w, call, w.clock))
  {
    if call in w.suspended {
      assert SuspendedSound(w, w.suspended[call]);
      FinishedSound(w, call);
      var f := Finished(w, call);
      match w.suspended[call]
      case Checked(client, sid, kind, now, answer, evaluatedAt) =>
        NotedSound(f, sid, evaluatedAt, now, false, answer);
        DecideSound(Noted(SetCache(f, sid, answer, now), sid, evaluatedAt, now, false, answer),
                    client, sid, kind, now, answer);
      case Polled(client, sid, answer, evaluatedAt) =>
        NotedSound(f, sid, evaluatedAt, w.clock, true, answer);
        TeardownSound(Noted(SetCache(f, sid, answer, w.clock), sid, evaluatedAt, w.clock, true, answer), client, sid);
      case Closing(client, sid) => TeardownSound(f, client, sid);
      case _ =>
    }
  }

  lemma ApplySound(w: World, e: Event)
    requires Sound(w) && e.at == w.clock
    ensures Sound(Apply(w, e))
  {
    match e
    case Start(call, client, user, machine, at) => SuspendSound(w, call, Starting(client, user, machine));
    case Opened(call, sid, at) => SoundExtends(w, Apply(w, e));
    case Message(call, client, kind, at) => ReceivedSound(w, call, client, kind);
    case Evaluate(call, answer, at) => EvaluatedSound(w, call, answer);
    case PollTick(call, client, at) =>
      if client in w.current {
        SuspendSound(w, call, PollingToken(client, w.current[client]));
      }
    case TokenRead(call, revoked, at) => TokenReadSound(w, call, revoked);
    case Disconnect(call, client, at) =>
      if client in w.current {
        SuspendSound(w, call, Closing(client, w.current[client]));
      }
    case Resume(call, at) => ResumedSound(w, call);
    case Fail(call, at) => FinishedSound(w, call);
    case RemoteClose(sid, at) => SoundExtends(w, Apply(w, e));
  }

  lemma TokenReadSound(w: World, call: CallId, revoked: bool)
    requires Sound(w)
    ensures Sound(Apply(w, TokenRead(call, revoked, w.clock)))
  {
    if call in w.suspended && w.suspended[call].PollingToken? {
      var h := w.suspended[call];
      assert SuspendedSound(w, h);
      if revoked {
        FinishedSound(w, call);
        NotedSound(Finished(w, call), h.session, w.clock, w.clock, true, false);
        TeardownSound(SetCache(Finished(w, call), h.session, false, w.clock), h.client, h.session);
      } else {
        SuspendSound(w, call, PollingAccess(h.client, h.session));
      }
    }
  }

  lemma StepSound(w: World, e: Event)
    requires Sound(w)
    ensures Sound(Step(w, e))
  {
    if e.at >= w.clock {
      SoundExtends(w, w.(clock := e.at));
      ApplySound(w.(clock := e.at), e);
    }
  }

  lemma {:induction false} RunSound(w: World, es: seq<Event>)
    requires Sound(w)
    ensures Sound(Run(w, es))
    decreases |es|
  {
    if es != [] {
      StepSound(w, es[0]);
      RunSound(Step(w, es[0]), es[1..]);
    }
  }

  lemma InitialSound(g: Gateway, clock: int)
    ensures Sound(Initial(g, clock))
  {
  }

  /** The session's user was allowed on its machine, as found by the check behind this record. */
  predicate Backs(w: World, r: Record, o: Output) {
    && r in w.records && r.session == o.session
    && 0 <= o.now - r.recordedAt <= ACCESS_CACHE_MS
    && RecordSound(w, r)
  }

  /**
    Forwarded input is freshly authorised: in every interleaving, each output other than a window size
    of the RDP gateway is backed by a check that answered true for the session's user and machine, and
    whose recorded time is at most five seconds before the handler read the clock.
   */
  lemma InputIsFreshlyAuthorised(g: Gateway, clock: int, es: seq<Event>, i: nat)
    requires i < |Run(Initial(g, clock), es).outputs|
    requires NeedsCover(Run(Initial(g, clock), es), Run(Initial(g, clock), es).outputs[i])
    ensures var w := Run(Initial(g, clock), es); exists r :: Backs(w, r, w.outputs[i])
  {
    var w := Run(Initial(g, clock), es);
    InitialSound(g, clock);
    RunSound(Initial(g, clock), es);
    var o := w.outputs[i];
    assert Covered(w, o);
    var r :| r in w.records && r.session == o.session && r.recordedAt == o.relied.value.lastChecked;
    assert Backs(w, r, o);
  }

  /** The last moment a check found the user of the session allowed on its machine. */
  predicate LastAllowed(w: World, sid: SessionId, last: int) {
    sid in w.sessions
    && forall a :: a in w.answers && a.user == w.sessions[sid].user && a.machine == w.sessions[sid].machine ==>
         a.at <= last
  }

  /** A poll records its answer at most this long after it was given. */
  predicate PollLatency(w: World, latency: nat) {
    forall r :: r in w.records && r.byPoll ==> r.recordedAt - r.evaluatedAt <= latency
  }

  /** A revocation shuts off input five seconds and one poll latency after the last positive check. */
  lemma RevocationWindow(g: Gateway, clock: int, es: seq<Event>, i: nat, last: int, latency: nat)
    requires var w := Run(Initial(g, clock), es);
             i < |w.outputs| && NeedsCover(w, w.outputs[i])
             && LastAllowed(w, w.outputs[i].session, last) && PollLatency(w, latency)
    ensures Run(Initial(g, clock), es).outputs[i].now <= last + ACCESS_CACHE_MS + latency
  {
    var w := Run(Initial(g, clock), es);
    InputIsFreshlyAuthorised(g, clock, es, i);
    var r :| Backs(w, r, w.outputs[i]);
    assert RecordSound(w, r);
  }

  // ----- What a step writes, and after teardown -----

  /** The step adds one output, to this session. */
  predicate WritesTo(w: World, e: Event, sid: SessionId) {
    var w' := Step(w, e);
    |w'.outputs| > |w.outputs| && w'.outputs[|w'.outputs| - 1].session == sid
  }

  /** A window size the SSH gateway sets without looking whether the stream still is writable. */
  predicate SetsSizeBlindly(w: World, e: Event, sid: SessionId) {
    w.gateway == SSH && e.at >= w.clock
    && ((e.Resume? && e.call in w.suspended
         && var h := w.suspended[e.call]; h.Checked? && h.session == sid && h.kind == Size && h.answer)
        || (e.Message? && e.kind == Size && e.call !in w.suspended && e.client in w.current
            && w.current[e.client] == sid && FreshlyAllowed(CacheOf(w, sid), e.at)))
  }

  predicate Closed(w: World, sid: SessionId) {
    sid in w.sessions && !w.sessions[sid].open
  }

  /** A step writes to a session that has been torn down if and only if it sets a window size over SSH. */
  lemma WritesAfterTeardown(w: World, e: Event, sid: SessionId)
    requires Sound(w) && Closed(w, sid)
    ensures Closed(Step(w, e), sid)
    ensures WritesTo(w, e, sid) <==> SetsSizeBlindly(w, e, sid)
    ensures WritesTo(w, e, sid) ==> Step(w, e).outputs[|Step(w, e).outputs| - 1].kind == Size
  {
    if e.Resume? && e.call in w.suspended {
      assert SuspendedSound(w, w.suspended[e.call]);
    }
  }

  lemma OutputsGrow(w: World, e: Event)
    ensures var w' := Step(w, e);
            w'.outputs == w.outputs || w'.outputs == w.outputs + [w'.outputs[|w'.outputs| - 1]]
    ensures Step(w, e).gateway == w.gateway
  {
  }

  /** Writes to the stream of a session: its data, and over RDP its window sizes too. */
  function DataTo(outputs: seq<Output>, sid: SessionId, g: Gateway): nat {
    if outputs == [] then 0
    else
      var o := outputs[|outputs| - 1];
      DataTo(outputs[..|outputs| - 1], sid, g) + (if o.session == sid && (o.kind == Data || g == RDP) then 1 else 0)
  }

  lemma DataToAppend(outputs: seq<Output>, o: Output, sid: SessionId, g: Gateway)
    ensures DataTo(outputs + [o], sid, g)
         == DataTo(outputs, sid, g) + (if o.session == sid && (o.kind == Data || g == RDP) then 1 else 0)
  {
    assert (outputs + [o])[..|outputs|] == outputs;
  }

  lemma {:induction false} TeardownStep(w: World, e: Event, sid: SessionId)
    requires Sound(w) && Closed(w, sid)
    ensures DataTo(Step(w, e).outputs, sid, w.gateway) == DataTo(w.outputs, sid, w.gateway)
  {
    WritesAfterTeardown(w, e, sid);
    OutputsGrow(w, e);
    var w' := Step(w, e);
    if w'.outputs != w.outputs {
      DataToAppend(w.outputs, w'.outputs[|w'.outputs| - 1], sid, w.gateway);
    }
  }

  /**
    Once a session has been torn down, nothing is written to its stream again, even by a handler that
    was suspended at the time: no data on either gateway, and no window size on the RDP gateway.
   */
  lemma NothingAfterTeardown(g: Gateway, clock: int, before: seq<Event>, after: seq<Event>, sid: SessionId)
    requires Closed(Run(Initial(g, clock), before), sid)
    ensures var w := Run(Initial(g, clock), before);
            DataTo(Run(w, after).outputs, sid, w.gateway) == DataTo(w.outputs, sid, w.gateway)
  {
    InitialSound(g, clock);
    RunSound(Initial(g, clock), before);
    ClosedForEver(Run(Initial(g, clock), before), after, sid);
  }

  lemma {:induction false} ClosedForEver(w: World, es: seq<Event>, sid: SessionId)
    requires Sound(w) && Closed(w, sid)
    ensures Closed(Run(w, es), sid) && Run(w, es).gateway == w.gateway
    ensures DataTo(Run(w, es).outputs, sid, w.gateway) == DataTo(w.outputs, sid, w.gateway)
    decreases |es|
  {
    if es != [] {
      WritesAfterTeardown(w, es[0], sid);
      TeardownStep(w, es[0], sid);
      OutputsGrow(w, es[0]);
      StepSound(w, es[0]);
      ClosedForEver(Step(w, es[0]), es[1..], sid);
    }
  }

  /** The step learns that the user's token is revoked or that access is denied. */
  predicate Refuses(w: World, e: Event) {
    e.at >= w.clock
    && ((e.Resume? && e.call in w.suspended
         && var h := w.suspended[e.call]; (h.Checked? || h.Polled?) && !h.answer)
        || (e.TokenRead? && e.revoked && e.call in w.suspended && w.suspended[e.call].PollingToken?))
  }

  /** Whoever learns it, handler or poll, tears the session down at once and leaves the client without one. */
  lemma RefusalTearsDown(w: World, e: Event)
    requires Sound(w) && Refuses(w, e)
    ensures Closed(Step(w, e), w.suspended[e.call].session)
    ensures w.suspended[e.call].client !in Step(w, e).current
    ensures Step(w, e).outputs == w.outputs
  {
    assert SuspendedSound(w, w.suspended[e.call]);
  }

  /** The RDP gateway passes on a window size without any check. */
  predicate SetsSizeUnchecked(w: World, e: Event) {
    w.gateway == RDP && e.at >= w.clock && e.Message? && e.kind == Size
    && e.call !in w.suspended && e.client in w.current && IsOpen(w, w.current[e.client])
    && !FreshlyAllowed(CacheOf(w, w.current[e.client]), e.at)
  }

  predicate Relies(o: Output) {
    FreshlyAllowed(o.relied, o.now)
  }

  /** Every step writes on the strength of a fresh positive check, except, exactly, for those window sizes. */
  lemma EveryStepRelies(w: World, e: Event)
    requires Sound(w)
    ensures (forall i :: |w.outputs| <= i < |Step(w, e).outputs| ==> Relies(Step(w, e).outputs[i]))
       <==> !SetsSizeUnchecked(w, e)
  {
    var w' := Step(w, e);
    OutputsGrow(w, e);
    if SetsSizeUnchecked(w, e) {
      assert !Relies(w'.outputs[|w.outputs|]);
    } else if w'.outputs != w.outputs {
      StepSound(w, e);
      assert Relies(w'.outputs[|w.outputs|]);
    }
  }

  // ----- What is forwarded -----

  /** A data message of the session's client on a fresh positive cache, or the end of a positive check for one. */
  predicate CarriesData(w: World, e: Event, sid: SessionId) {
    && e.at >= w.clock && sid in w.sessions
    && ((e.Message? && e.kind == Data && e.call !in w.suspended && e.client in w.current
         && w.current[e.client] == sid
         && w.sessions[sid].cache.Some? && w.sessions[sid].cache.value.allowed
         && e.at - w.sessions[sid].cache.value.lastChecked <= 5_000)
        || (e.Resume? && e.call in w.suspended
            && var h := w.suspended[e.call]; h.Checked? && h.session == sid && h.kind == Data && h.answer))
  }

  /** A window size of the session's client: over SSH like data, over RDP on arrival. */
  predicate CarriesSize(w: World, e: Event, sid: SessionId) {
    && e.at >= w.clock
    && (if w.gateway == RDP
        then && e.Message? && e.kind == Size && e.call !in w.suspended
             && e.client in w.current && w.current[e.client] == sid
        else SetsSizeBlindly(w, e, sid))
  }

  /** The clock reading of the handler that a step runs. */
  function HandlerClock(w: World, e: Event): int {
    if e.Resume? && e.call in w.suspended && w.suspended[e.call].Checked? then w.suspended[e.call].now else e.at
  }

  /** The step adds exactly this one output. */
  predicate AddsOne(w: World, e: Event, sid: SessionId, kind: Kind) {
    var w' := Step(w, e);
    && |w'.outputs| == |w.outputs| + 1 && w'.outputs[..|w.outputs|] == w.outputs
    && w'.outputs[|w.outputs|].session == sid
    && w'.outputs[|w.outputs|].kind == kind
    && w'.outputs[|w.outputs|].now == HandlerClock(w, e)
  }

  /**
    Allowed input arrives: a step writes data to a session if and only if its stream is open and the step
    carries data of its client on a positive answer, fresh or just received. It then writes once, with
    the clock reading of the handler.
   */
  lemma AllowedDataArrives(w: World, e: Event, sid: SessionId)
    requires Sound(w) && sid in w.sessions
    ensures AddsOne(w, e, sid, Data) <==> w.sessions[sid].open && CarriesData(w, e, sid)
    ensures !AddsOne(w, e, sid, Data) ==>
              forall i :: |w.outputs| <= i < |Step(w, e).outputs| ==>
                Step(w, e).outputs[i].session != sid || Step(w, e).outputs[i].kind == Size
  {
    OutputsGrow(w, e);
    if e.Message? && e.client in w.current {
      assert w.current[e.client] in w.sessions;
    }
    if e.Resume? && e.call in w.suspended {
      assert SuspendedSound(w, w.suspended[e.call]);
    }
    hide Sound;
  }

  /** The same for window sizes: over RDP on an open stream whatever the cache, over SSH whatever the stream. */
  lemma SizesArrive(w: World, e: Event, sid: SessionId)
    requires Sound(w) && sid in w.sessions
    ensures AddsOne(w, e, sid, Size) <==> CarriesSize(w, e, sid) && (w.gateway == RDP ==> w.sessions[sid].open)
  {
    if e.Resume? && e.call in w.suspended {
      assert SuspendedSound(w, w.suspended[e.call]);
    }
  }

  /** Only a check that answers true adds to the answers: its own, at its time, for its session's user and machine. */
  lemma AnswersAreGiven(w: World, e: Event, a: Answer)
    requires Sound(w)
    ensures a in Step(w, e).answers
       <==> || a in w.answers
            || (&& e.Evaluate? && e.answer && e.at >= w.clock && e.call in w.suspended
                && (w.suspended[e.call].Checking? || w.suspended[e.call].PollingAccess?)
                && var s := w.sessions[w.suspended[e.call].session]; a == Answer(s.user, s.machine, e.at))
  {
    if e.Evaluate? && e.call in w.suspended {
      assert SuspendedSound(w, w.suspended[e.call]);
    }
  }

  /** Only the end of a check that answered true adds a record. */
  lemma RecordsAreEarned(w: World, e: Event, r: Record)
    requires r in Step(w, e).records && r !in w.records
    ensures && e.Resume? && e.call in w.suspended
            && var h := w.suspended[e.call];
               && (h.Checked? || h.Polled?) && h.answer && r.session == h.session && r.evaluatedAt == h.at
               && r.byPoll == h.Polled? && r.recordedAt == if h.Polled? then e.at else h.now
  {
  }

  /** A second session is not started on a connection that has one; a failed await and a closed stream do no more. */
  lemma NothingElseHappens(w: World, call: CallId, client: ClientId, user: UserId, machine: MachineId,
                           sid: SessionId, at: int)
    requires at >= w.clock
    ensures client in w.current ==> Step(w, Start(call, client, user, machine, at)) == w.(clock := at)
    ensures call in w.suspended ==> Step(w, Start(call, client, user, machine, at)) == w.(clock := at)
    ensures Step(w, Fail(call, at)) == w.(clock := at, suspended := w.suspended - {call})
    ensures sid in w.sessions ==>
              var closed := w.sessions[sid].(open := false);
              Step(w, RemoteClose(sid, at)) == w.(clock := at, sessions := w.sessions[sid := closed])
  {
  }

  /** A message that finds no fresh answer waits for one; so does the poll, once the token is found good. */
  lemma StaleMessageWaits(w: World, call: CallId, client: ClientId, kind: Kind, at: int)
    requires Sound(w) && at >= w.clock && call !in w.suspended && client in w.current
    requires w.gateway == SSH || kind == Data
    requires var cache := w.sessions[w.current[client]].cache; cache == None || at - cache.value.lastChecked > 5_000
    ensures var w' := Step(w, Message(call, client, kind, at));
            && call in w'.suspended
            && w'.suspended[call] == Checking(client, w.current[client], kind, at)
            && w'.outputs == w.outputs && w'.sessions == w.sessions && w'.current == w.current
  {
  }

  /** A message on a fresh refusal tears its session down at once and leaves the client without one. */
  lemma CachedRefusalTearsDown(w: World, call: CallId, client: ClientId, kind: Kind, at: int)
    requires Sound(w) && at >= w.clock && call !in w.suspended && client in w.current
    requires w.gateway == SSH || kind == Data
    requires var cache := w.sessions[w.current[client]].cache;
             cache.Some? && !cache.value.allowed && at - cache.value.lastChecked <= 5_000
    ensures var w' := Step(w, Message(call, client, kind, at));
            && Closed(w', w.current[client]) && w'.current == w.current - {client}
            && w'.outputs == w.outputs && w'.suspended == w.suspended
  {
  }

  /**
    A data message that waits for its check and that nothing interrupts: on a positive answer the data is
    written if the stream is open, on a negative one the session is ended and the client has none.
   */
  lemma MessageAlone(w: World, call: CallId, client: ClientId, answer: bool, at: int, later: int)
    requires Sound(w) && w.clock <= at <= later && call !in w.suspended && client in w.current
    requires var cache := w.sessions[w.current[client]].cache; cache == None || at - cache.value.lastChecked > 5_000
    ensures var sid := w.current[client];
            var w' := Step(Step(Step(w, Message(call, client, Data, at)), Evaluate(call, answer, later)),
                           Resume(call, later));
            && sid in w'.sessions && w'.sessions[sid].cache == Some(Cache(answer, at)) && w'.suspended == w.suspended
            && (if answer
                then && w'.sessions[sid].open == w.sessions[sid].open && w'.current == w.current
                     && w'.outputs == w.outputs + if w.sessions[sid].open
                                                  then [Output(sid, Data, at, Some(Cache(true, at)))] else []
                else !w'.sessions[sid].open && w'.current == w.current - {client} && w'.outputs == w.outputs)
  {
    assert w.current[client] in w.sessions;
    hide Sound;
    var w1 := Step(w, Message(call, client, Data, at));
    var w2 := Step(w1, Evaluate(call, answer, later));
    var w3 := Step(w2, Resume(call, later));
    assert w2.suspended[call] == Checked(client, w.current[client], Data, at, answer, later);
    assert w3.suspended == w.suspended;
  }

  /** The session's cache after a check: a handler dates it by its own clock, a poll by the moment it records. */
  lemma AnswersAreRemembered(w: World, e: Event)
    requires Sound(w) && e.Resume? && e.at >= w.clock && e.call in w.suspended
    requires w.suspended[e.call].Checked? || w.suspended[e.call].Polled?
    ensures var h := w.suspended[e.call];
            && h.session in Step(w, e).sessions
            && Step(w, e).sessions[h.session].cache == Some(Cache(h.answer, if h.Checked? then h.now else e.at))
            && e.call !in Step(w, e).suspended
            && (h.answer ==> Step(w, e).sessions[h.session].open == w.sessions[h.session].open
                             && Step(w, e).current == w.current)
            && (h.answer ==>
                  Record(h.session, h.at, if h.Checked? then h.now else e.at, h.Polled?) in Step(w, e).records)
  {
    assert SuspendedSound(w, w.suspended[e.call]);
  }

  /** A poll runs through: it reads the token, asks for access, and remembers a positive answer. */
  lemma PollAlone(w: World, call: CallId, client: ClientId, answer: bool, at: int)
    requires Sound(w) && at >= w.clock && call !in w.suspended && client in w.current
    ensures var sid := w.current[client];
            var w' := Step(Step(Step(Step(w, PollTick(call, client, at)), TokenRead(call, false, at)),
                                Evaluate(call, answer, at)), Resume(call, at));
            && sid in w'.sessions && w'.sessions[sid].cache == Some(Cache(answer, at))
            && w'.outputs == w.outputs && w'.suspended == w.suspended
            && (if answer then w'.sessions[sid].open == w.sessions[sid].open && w'.current == w.current
                else !w'.sessions[sid].open && w'.current == w.current - {client})
  {
    var w1 := Step(w, PollTick(call, client, at));
    var w2 := Step(w1, TokenRead(call, false, at));
    var w3 := Step(w2, Evaluate(call, answer, at));
    var w4 := Step(w3, Resume(call, at));
    assert w4.suspended == w.suspended;
  }

  /** A disconnect ends the stream of the session the client had. */
  lemma DisconnectAlone(w: World, call: CallId, client: ClientId, at: int)
    requires Sound(w) && at >= w.clock && call !in w.suspended && client in w.current
    ensures var w' := Step(Step(w, Disconnect(call, client, at)), Resume(call, at));
            && Closed(w', w.current[client]) && w'.current == w.current - {client}
            && w'.outputs == w.outputs && w'.suspended == w.suspended
  {
    var w' := Step(Step(w, Disconnect(call, client, at)), Resume(call, at));
    assert w'.suspended == w.suspended;
  }

  /** A start leads to an open session of this user on this machine, with nothing cached. */
  lemma StartAlone(w: World, call: CallId, client: ClientId, user: UserId, machine: MachineId,
                   sid: SessionId, at: int)
    requires at >= w.clock && call !in w.suspended && client !in w.current && sid !in w.sessions
    ensures var w' := Step(Step(w, Start(call, client, user, machine, at)), Opened(call, sid, at));
            && w'.sessions == w.sessions[sid := Session(client, user, machine, None, true)]
            && w'.current == w.current[client := sid]
            && w'.outputs == w.outputs && w'.suspended == w.suspended
  {
    var w' := Step(Step(w, Start(call, client, user, machine, at)), Opened(call, sid, at));
    assert w'.suspended == w.suspended;
  }

  // ----- Both failures happen -----

  lemma {:induction false} RunLast(w: World, es: seq<Event>, e: Event)
    ensures Run(w, es + [e]) == Step(Run(w, es), e)
    decreases |es|
  {
    if es == [] {
      assert [e][1..] == [];
    } else {
      HeadTail(es, [e]);
      RunLast(Step(w, es[0]), es[1..], e);
    }
  }

  /** A session is opened for client 1: session 1, on machine 3, by user 2. */
  function OpenSession(): seq<Event> {
    [Start(0, 1, 2, 3, 0)] + [Opened(0, 1, 0)]
  }

  function OpenWorld(g: Gateway): World {
    World(g, 0, map[1 := Session(1, 2, 3, None, true)], map[1 := 1], map[], [], {}, {})
  }

  lemma SessionOpens(g: Gateway)
    ensures Run(Initial(g, 0), OpenSession()) == OpenWorld(g)
  {
    RunLast(Initial(g, 0), [], Start(0, 1, 2, 3, 0));
    assert [] + [Start(0, 1, 2, 3, 0)] == [Start(0, 1, 2, 3, 0)];
    RunLast(Initial(g, 0), [Start(0, 1, 2, 3, 0)], Opened(0, 1, 0));
    var w1 := Step(Initial(g, 0), Start(0, 1, 2, 3, 0));
    assert Step(w1, Opened(0, 1, 0)).suspended == map[];
  }

  /** A window size waits for its check; the poll meanwhile finds the token revoked. */
  function SizeThenRevoked(): seq<Event> {
    OpenSession() + [Message(0, 1, Size, 0)] + [Evaluate(0, true, 0)] + [PollTick(5, 1, 0)] + [TokenRead(5, true, 0)]
  }

  function RevokedWorld(): World {
    World(SSH, 0, map[1 := Session(1, 2, 3, Some(Cache(false, 0)), false)], map[],
          map[0 := Checked(1, 1, Size, 0, true, 0)], [], {Answer(2, 3, 0)}, {})
  }

  lemma SizeWaits()
    ensures Step(Step(OpenWorld(SSH), Message(0, 1, Size, 0)), Evaluate(0, true, 0))
         == OpenWorld(SSH).(suspended := map[0 := Checked(1, 1, Size, 0, true, 0)], answers := {Answer(2, 3, 0)})
  {
  }

  lemma PollTearsDown()
    ensures var w := OpenWorld(SSH).(suspended := map[0 := Checked(1, 1, Size, 0, true, 0)],
                                     answers := {Answer(2, 3, 0)});
            Step(Step(w, PollTick(5, 1, 0)), TokenRead(5, true, 0)) == RevokedWorld()
  {
    var w := OpenWorld(SSH).(suspended := map[0 := Checked(1, 1, Size, 0, true, 0)], answers := {Answer(2, 3, 0)});
    var w' := Step(Step(w, PollTick(5, 1, 0)), TokenRead(5, true, 0));
    assert w'.suspended == RevokedWorld().suspended && w'.current == map[];
    assert w'.sessions == RevokedWorld().sessions;
  }

  /** Over SSH the window size is set on the session that the poll has torn down. */
  lemma SizeAfterTeardown()
    ensures var w := Run(Initial(SSH, 0), SizeThenRevoked());
            Closed(w, 1) && WritesTo(w, Resume(0, 0), 1)
  {
    hide Step;
    var w0, es := Initial(SSH, 0), OpenSession();
    SessionOpens(SSH);
    RunLast(w0, es, Message(0, 1, Size, 0));
    RunLast(w0, es + [Message(0, 1, Size, 0)], Evaluate(0, true, 0));
    RunLast(w0, es + [Message(0, 1, Size, 0)] + [Evaluate(0, true, 0)], PollTick(5, 1, 0));
    RunLast(w0, es + [Message(0, 1, Size, 0)] + [Evaluate(0, true, 0)] + [PollTick(5, 1, 0)], TokenRead(5, true, 0));
    SizeWaits();
    PollTearsDown();
    BlindSize();
  }

  lemma BlindSize()
    ensures Closed(RevokedWorld(), 1) && WritesTo(RevokedWorld(), Resume(0, 0), 1)
  {
  }

  /** Over RDP the first window size of a session goes out before any check is on record. */
  lemma SizeWithoutCheck()
    ensures var w := Run(Initial(RDP, 0), OpenSession());
            && SetsSizeUnchecked(w, Message(0, 1, Size, 0))
            && w.records == {}
            && Step(w, Message(0, 1, Size, 0)).outputs == [Output(1, Size, 0, None)]
  {
    SessionOpens(RDP);
  }

  // ----- The gateway object -----

  /** The maps of a gateway, changed by the synchronous stretches of its handlers. */
  class TerminalGateway {
    const gateway: Gateway
    var clock: int
    var sessions: map<SessionId, Session>
    var current: map<ClientId, SessionId>
    var suspended: map<CallId, Suspended>
    var outputs: seq<Output>
    ghost var answers: set<Answer>
    ghost var records: set<Record>

    constructor (gateway: Gateway, clock: int)
      ensures this.gateway == gateway && State() == Initial(gateway, clock)
    {
      this.gateway := gateway;
      this.clock := clock;
      sessions, current, suspended, outputs := map[], map[], map[], [];
      answers, records := {}, {};
    }

    ghost function State(): World
      reads this
    {
      World(gateway, clock, sessions, current, suspended, outputs, answers, records)
    }

    method EndSession(client: ClientId, sid: SessionId)
      modifies this
      ensures State() == Teardown(old(State()), client, sid)
    {
      if sid in sessions {
        sessions := sessions[sid := sessions[sid].(open := false)];
      }
      current := current - {client};
    }

    method Remember(sid: SessionId, evaluatedAt: int, recordedAt: int, byPoll: bool, allowed: bool)
      requires sid in sessions
      modifies this
      ensures State()
           == Noted(SetCache(old(State()), sid, allowed, recordedAt), sid, evaluatedAt, recordedAt, byPoll, allowed)
    {
      sessions := sessions[sid := sessions[sid].(cache := Some(Cache(allowed, recordedAt)))];
      if allowed {
        records := records + {Record(sid, evaluatedAt, recordedAt, byPoll)};
      }
    }

    /** The tail of `handleInput`, `handleData` and the SSH `handleResize`. */
    method Forward(client: ClientId, sid: SessionId, kind: Kind, now: int, allowed: bool)
      requires sid in sessions
      modifies this
      ensures State() == Decide(old(State()), client, sid, kind, now, allowed)
      ensures allowed && (kind == Size || old(sessions)[sid].open) ==>
                outputs == old(outputs) + [Output(sid, kind, now, old(sessions)[sid].cache)]
                && sessions == old(sessions) && current == old(current)
      ensures !(allowed && (kind == Size || old(sessions)[sid].open)) ==> outputs == old(outputs)
      ensures !allowed ==> sid in sessions && !sessions[sid].open && client !in current
    {
      if !allowed {
        EndSession(client, sid);
        return;
      }
      if kind == Data {
        if sessions[sid].open {
          outputs := outputs + [Output(sid, kind, now, sessions[sid].cache)];
        }
      } else {
        outputs := outputs + [Output(sid, kind, now, sessions[sid].cache)];
      }
    }

    /** A message arrives; the handler runs to its end or to the access check. */
    method HandleMessage(call: CallId, client: ClientId, kind: Kind, at: int)
      requires at >= clock && call !in suspended
      requires client in current ==> current[client] in sessions
      modifies this
      ensures State() == Step(old(State()), Message(call, client, kind, at))
      ensures kind == Data && client in old(current) ==>
                var s := old(sessions)[old(current)[client]];
                outputs == old(outputs) +
                  if s.open && s.cache.Some? && s.cache.value.allowed && at - s.cache.value.lastChecked <= 5_000
                  then [Output(old(current)[client], Data, at, s.cache)] else []
    {
      clock := at;
      if client !in current { return; }
      var sid := current[client];
      var session := sessions[sid];
      if gateway == RDP && kind == Size {
        if session.open {
          outputs := outputs + [Output(sid, kind, at, session.cache)];
        }
        return;
      }
      if session.cache == None || at - session.cache.value.lastChecked > ACCESS_CACHE_MS {
        suspended := suspended[call := Checking(client, sid, kind, at)];
        return;
      }
      Forward(client, sid, kind, at, session.cache.value.allowed);
    }

    /** The handler goes on after the access check it awaited. */
    method ContinueMessage(call: CallId, at: int)
      requires at >= clock && call in suspended && suspended[call].Checked? && suspended[call].session in sessions
      modifies this
      ensures State() == Step(old(State()), Resume(call, at))
      ensures old(suspended)[call].kind == Data ==>
                var h := old(suspended)[call];
                outputs == old(outputs) +
                  if h.answer && old(sessions)[h.session].open
                  then [Output(h.session, Data, h.now, Some(Cache(true, h.now)))] else []
    {
      clock := at;
      var h := suspended[call];
      suspended := suspended - {call};
      Remember(h.session, h.at, h.now, false, h.answer);
      Forward(h.client, h.session, h.kind, h.now, h.answer);
    }

    /** The poll goes on after the access check it awaited. */
    method ContinuePoll(call: CallId, at: int)
      requires at >= clock && call in suspended && suspended[call].Polled? && suspended[call].session in sessions
      modifies this
      ensures State() == Step(old(State()), Resume(call, at))
    {
      clock := at;
      var h := suspended[call];
      suspended := suspended - {call};
      Remember(h.session, h.at, at, true, h.answer);
      if !h.answer {
        EndSession(h.client, h.session);
      }
    }
  }
}
