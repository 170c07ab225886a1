/**
  One-time codes and the in-memory replay cache. The cache forgets entries older than five minutes;
  a run with the forgetting cache decides exactly as one that remembers for ever (the one-time rule
  of section 5.2 of RFC 6238). Clock readings are in milliseconds.
 */
module TotpReplay {
  import opened Common
  import opened JsText

  type UserId = nat

  const STEP_MS: int := 30_000
  const OTP_REPLAY_TTL_MS: int := 5 * 60_000

  // ----- Codes -----

  /** The dynamic truncation of `hotp`: a 20-byte HMAC to a number below 10^6. */
  function Truncate(hmac: seq<int>): (code: int)
    requires |hmac| == 20 && forall i :: 0 <= i < 20 ==> 0 <= hmac[i] < 256
    ensures 0 <= code < 1_000_000
  {
    var offset := hmac[19] % 16;
    var word := ((hmac[offset] * 256 + hmac[offset + 1]) * 256 + hmac[offset + 2]) * 256 + hmac[offset + 3];
    word % 0x8000_0000 % 1_000_000
  }

  /** The truncation as section 5.3 of RFC 4226 puts it: the sign bit of the first byte masked, then shifts. */
  lemma TruncationOfRfc(hmac: seq<int>)
    requires |hmac| == 20 && forall i :: 0 <= i < 20 ==> 0 <= hmac[i] < 256
    ensures var o := hmac[19] % 16;
            var binary := (hmac[o] % 128) * 0x100_0000 + hmac[o + 1] * 0x1_0000 + hmac[o + 2] * 0x100 + hmac[o + 3];
            0 <= binary < 0x8000_0000 && Truncate(hmac) == binary % 1_000_000
  {
    var o := hmac[19] % 16;
    var low := hmac[o + 1] * 0x1_0000 + hmac[o + 2] * 0x100 + hmac[o + 3];
    var high := hmac[o] / 128;
    assert hmac[o] == 128 * high + hmac[o] % 128;
    SignBit(high, (hmac[o] % 128) * 0x100_0000 + low);
  }

  lemma SignBit(high: int, rest: int)
    requires 0 <= rest < 0x8000_0000
    ensures (high * 0x8000_0000 + rest) % 0x8000_0000 == rest
  {
  }

  /** The worked example of section 5.4 of RFC 4226. */
  lemma TruncationExample()
    ensures Truncate([0x1F, 0x86, 0x98, 0x69, 0x0E, 0x02, 0xCA, 0x16, 0x61, 0x85,
                      0x50, 0xEF, 0x7F, 0x19, 0xDA, 0x8E, 0x94, 0x5B, 0x55, 0x5A]) == 872_921
  {
  }

  /** `s.padStart(n, '0')`. */
  function PadStart(s: JsString, n: nat): (r: JsString)
    ensures |r| == if |s| < n then n else |s|
    decreases n - |s|
  {
    if |s| >= n then s else PadStart([ZERO] + s, n)
  }

  /** The six-digit text of a truncated HMAC. */
  function CodeText(code: nat): JsString {
    PadStart(Decimal(code), 6)
  }

  /** The test `/^\d{6}$/`. */
  predicate SixDigits(token: JsString) {
    |token| == 6 && forall c :: c in token ==> IsDigit(c)
  }

  lemma {:induction false} LeadingZero(s: JsString)
    requires s != []
    ensures DigitsValue([ZERO] + s) == DigitsValue(s)
  {
    var t := [ZERO] + s;
    assert t[..|t| - 1] == [ZERO] + s[..|s| - 1];
    if |s| > 1 {
      LeadingZero(s[..|s| - 1]);
    } else {
      assert s[..0] == [];
      assert t[..1] == [ZERO] && [ZERO][..0] == [];
      assert DigitsValue([ZERO]) == 0;
    }
  }

  lemma {:induction false} PaddedDigits(s: JsString, n: nat)
    requires s != [] && forall c :: c in s ==> IsDigit(c)
    ensures forall c :: c in PadStart(s, n) ==> IsDigit(c)
    ensures DigitsValue(PadStart(s, n)) == DigitsValue(s)
    decreases n - |s|
  {
    if |s| < n {
      LeadingZero(s);
      PaddedDigits([ZERO] + s, n);
    }
  }

  lemma {:induction false} DecimalLength(n: nat, bound: nat, k: nat)
    requires k > 0 && bound == Power10(k) && n < bound
    ensures |Decimal(n)| <= k
  {
    if n >= 10 {
      DecimalLength(n / 10, Power10(k - 1), k - 1);
    }
  }

  function Power10(k: nat): nat {
    if k == 0 then 1 else 10 * Power10(k - 1)
  }

  /**
    Every generated code passes the format test of the verifier, and its digits denote the truncated
    HMAC: no code is refused for its shape, and two codes are equal only for equal truncations.
   */
  lemma CodeIsReadable(hmac: seq<int>)
    requires |hmac| == 20 && forall i :: 0 <= i < 20 ==> 0 <= hmac[i] < 256
    ensures SixDigits(CodeText(Truncate(hmac)))
    ensures DigitsValue(CodeText(Truncate(hmac))) == Truncate(hmac)
  {
    var code := Truncate(hmac);
    assert Power10(6) == 1_000_000;
    DecimalLength(code, 1_000_000, 6);
    DecimalDigits(code);
    DecimalValue(code);
    PaddedDigits(Decimal(code), 6);
  }

  // ----- verifyWithCounter -----

  /** `code(c)` is the six-digit code of counter `c` under the secret at hand. */
  type Codes = int -> JsString

  /** The latest counter of the window around `now` that produces the token. */
  function Matching(codes: Codes, token: JsString, now: int): Option<int> {
    var k := now / STEP_MS;
    if codes(k + 1) == token then Some(k + 1)
    else if codes(k) == token then Some(k)
    else if codes(k - 1) == token then Some(k - 1)
    else None
  }

  function Verified(codes: Codes, token: JsString, now: int, last: Option<int>): Option<int> {
    if !SixDigits(token) then None
    else
      var m := Matching(codes, token, now);
      if m.Some? && last.Some? && m.value <= last.value then None else m
  }

  method VerifyWithCounter(codes: Codes, token: JsString, now: int, last: Option<int>) returns (r: Option<int>)
    ensures r == Verified(codes, token, now, last)
    ensures r.Some? ==> -1 <= r.value - now / STEP_MS <= 1 && codes(r.value) == token
    ensures r.Some? && last.Some? ==> r.value > last.value
  {
    if !SixDigits(token) { return None; }
    var counter := now / STEP_MS;
    var matched: Option<int> := None;
    var deltas := [-1, 0, 1];
    for i := 0 to |deltas|
      invariant matched.Some? ==> counter - 1 <= matched.value < counter - 1 + i && codes(matched.value) == token
      invariant forall c :: counter - 1 <= c < counter - 1 + i && codes(c) == token ==>
                  matched.Some? && c <= matched.value
    {
      var c := counter + deltas[i];
      if codes(c) == token {
        matched := Some(c);
      }
    }
    if matched.None? { return None; }
    if last.Some? && matched.value <= last.value { return None; }
    return matched;
  }

  // ----- The cache -----

  datatype Entry = Entry(counter: int, ts: int)

  function LastOf(cache: map<UserId, Entry>, u: UserId): Option<int> {
    if u in cache then Some(cache[u].counter) else None
  }

  predicate Expired(e: Entry, now: int) {
    now - e.ts > OTP_REPLAY_TTL_MS
  }

  function Collected(cache: map<UserId, Entry>, now: int): map<UserId, Entry> {
    map u | u in cache && !Expired(cache[u], now) :: cache[u]
  }

  class ReplayCache {
    var otpLastCounter: map<UserId, Entry>

    method GcOtpReplayCache(now: int)
      modifies this
      ensures otpLastCounter == Collected(old(otpLastCounter), now)
      ensures forall u :: u in otpLastCounter <==>
                u in old(otpLastCounter) && now - old(otpLastCounter)[u].ts <= 300_000
      ensures forall u :: u in otpLastCounter ==> otpLastCounter[u] == old(otpLastCounter)[u]
    {
      var todo := otpLastCounter.Keys;
      while todo != {}
        invariant todo <= otpLastCounter.Keys <= old(otpLastCounter).Keys
        invariant forall u :: u in otpLastCounter ==> otpLastCounter[u] == old(otpLastCounter)[u]
        invariant forall u :: u in old(otpLastCounter) && u !in todo ==>
                    (u in otpLastCounter <==> !Expired(old(otpLastCounter)[u], now))
        decreases todo
      {
        var u :| u in todo;
        todo := todo - {u};
        if Expired(otpLastCounter[u], now) {
          otpLastCounter := otpLastCounter - {u};
        }
      }
    }

    /** The part of `verifyOtp` between its awaits; the three clock readings come in this order. */
    method CheckCode(u: UserId, codes: Codes, token: JsString, collected: int, verified: int, stored: int)
      returns (matched: Option<int>)
      modifies this
      ensures (matched, otpLastCounter)
           == Checked(old(otpLastCounter), u, codes, token, collected, verified, stored)
    {
      GcOtpReplayCache(collected);
      var last := LastOf(otpLastCounter, u);
      matched := VerifyWithCounter(codes, token, verified, last);
      if matched.Some? {
        otpLastCounter := otpLastCounter[u := Entry(matched.value, stored)];
      }
    }

    /** `enableOtp`: the new secret has no history, so no counter is held against it. */
    method EnableOtp(u: UserId, codes: Codes, token: JsString, verified: int, stored: int)
      returns (matched: Option<int>)
      modifies this
      ensures matched == Verified(codes, token, verified, None)
      ensures otpLastCounter ==
        if matched.Some? then old(otpLastCounter)[u := Entry(matched.value, stored)] else old(otpLastCounter)
    {
      matched := VerifyWithCounter(codes, token, verified, None);
      if matched.Some? {
        otpLastCounter := otpLastCounter[u := Entry(matched.value, stored)];
      }
    }
  }

  /** `verifyOtp` on a cache value. */
  function Checked(cache: map<UserId, Entry>, u: UserId, codes: Codes, token: JsString,
                   collected: int, verified: int, stored: int): (Option<int>, map<UserId, Entry>) {
    var kept := Collected(cache, collected);
    var m := Verified(codes, token, verified, LastOf(kept, u));
    (m, if m.Some? then kept[u := Entry(m.value, stored)] else kept)
  }

  // ----- Runs -----

  /** A code checked against the active secret, or one checked against a new secret and activating it. */
  datatype Event =
    | Verify(u: UserId, codes: Codes, token: JsString, collected: int, verified: int, stored: int)
    | Enable(u: UserId, codes: Codes, token: JsString, verified: int, stored: int)

  /**
    The cache, a memory that never forgets, and for each user the counters accepted under the
    current secret, in order.
   */
  datatype World = World(cache: map<UserId, Entry>, memory: map<UserId, int>, accepted: map<UserId, seq<int>>)

  function Record(w: World, u: UserId, c: int, isNew: bool): World {
    w.(memory := w.memory[u := c],
       accepted := w.accepted[u := (if isNew || u !in w.accepted then [] else w.accepted[u]) + [c]])
  }

  /** The decision of the program. */
  function Decision(w: World, e: Event): Option<int> {
    match e
    case Verify(u, codes, token, collected, verified, stored) =>
      Checked(w.cache, u, codes, token, collected, verified, stored).0
    case Enable(u, codes, token, verified, stored) => Verified(codes, token, verified, None)
  }

  /** The decision of a cache that never forgets. */
  function IdealDecision(w: World, e: Event): Option<int> {
    match e
    case Verify(u, codes, token, collected, verified, stored) =>
      Verified(codes, token, verified, if u in w.memory then Some(w.memory[u]) else None)
    case Enable(u, codes, token, verified, stored) => Verified(codes, token, verified, None)
  }

  function Step(w: World, e: Event): World {
    var m := Decision(w, e);
    match e
    case Verify(u, codes, token, collected, verified, stored) =>
      var w' := w.(cache := Checked(w.cache, u, codes, token, collected, verified, stored).1);
      if m.Some? then Record(w', u, m.value, false) else w'
    case Enable(u, codes, token, verified, stored) =>
      if m.Some? then Record(w.(cache := w.cache[u := Entry(m.value, stored)]), u, m.value, true) else w
  }

  function Run(es: seq<Event>): World {
    if es == [] then World(map[], map[], map[]) else Step(Run(es[..|es| - 1]), es[|es| - 1])
  }

  function Start(e: Event): int {
    if e.Verify? then e.collected else e.verified
  }

  /** A step decides and stores what the methods of the cache do, with the same three clock readings. */
  lemma StepsAreMethods(w: World, u: UserId, codes: Codes, token: JsString, collected: int, verified: int, stored: int)
    ensures var e := Verify(u, codes, token, collected, verified, stored);
            (Decision(w, e), Step(w, e).cache) == Checked(w.cache, u, codes, token, collected, verified, stored)
    ensures var e := Enable(u, codes, token, verified, stored);
            && Decision(w, e) == Verified(codes, token, verified, None)
            && Step(w, e).cache ==
                 if Decision(w, e).Some? then w.cache[u := Entry(Decision(w, e).value, stored)] else w.cache
  {
  }

  /** Clock readings never go back. */
  predicate Timed(es: seq<Event>) {
    && (forall i :: 0 <= i < |es| ==> Start(es[i]) <= es[i].verified <= es[i].stored)
    && (forall i, j :: 0 <= i < j < |es| ==> es[i].stored <= Start(es[j]))
  }

  predicate Increasing(s: seq<int>) {
    forall i, j :: 0 <= i < j < |s| ==> s[i] < s[j]
  }

  /** The counter is one the window has moved past. */
  predicate MovedPast(c: int, now: int) {
    c < now / STEP_MS - 1
  }

  /** Cached entries agree with the memory and were possible when stored. */
  predicate CacheAgrees(w: World, now: int) {
    forall u :: u in w.cache ==>
      u in w.memory && w.cache[u].counter == w.memory[u]
      && w.cache[u].ts <= now && w.cache[u].counter <= w.cache[u].ts / STEP_MS + 1
  }

  /** What the cache has forgotten could not be accepted any more. */
  predicate ForgottenIsPast(w: World, now: int) {
    forall u :: u in w.memory && u !in w.cache ==> MovedPast(w.memory[u], now)
  }

  /** Accepted counters increase up to the remembered one. */
  predicate AcceptedInOrder(w: World) {
    && w.accepted.Keys == w.memory.Keys
    && forall u :: u in w.memory ==> EndsAt(w.accepted[u], w.memory[u])
  }

  predicate EndsAt(s: seq<int>, c: int) {
    s != [] && s[|s| - 1] == c && Increasing(s)
  }

  predicate Faithful(w: World, now: int) {
    CacheAgrees(w, now) && ForgottenIsPast(w, now) && AcceptedInOrder(w)
  }

  lemma EvictedIsPast(e: Entry, now: int)
    requires e.counter <= e.ts / STEP_MS + 1 && Expired(e, now)
    ensures MovedPast(e.counter, now)
  {
  }

  lemma VerifiedInWindow(codes: Codes, token: JsString, now: int, last: Option<int>)
    ensures var m := Verified(codes, token, now, last);
            m.Some? ==> now / STEP_MS - 1 <= m.value <= now / STEP_MS + 1
                        && (last.Some? ==> m.value > last.value)
  {
  }

  lemma LaterWindow(c: int, now: int, later: int)
    requires MovedPast(c, now) && now <= later
    ensures MovedPast(c, later)
  {
  }

  lemma FaithfulLater(w: World, now: int, later: int)
    requires Faithful(w, now) && now <= later
    ensures Faithful(w, later)
  {
    forall u | u in w.memory && u !in w.cache
      ensures MovedPast(w.memory[u], later)
    {
      LaterWindow(w.memory[u], now, later);
    }
  }

  lemma CollectKeeps(w: World, now: int)
    requires Faithful(w, now)
    ensures Faithful(w.(cache := Collected(w.cache, now)), now)
  {
    forall u | u in w.memory && u !in Collected(w.cache, now)
      ensures MovedPast(w.memory[u], now)
    {
      if u in w.cache {
        EvictedIsPast(w.cache[u], now);
      }
    }
  }

  /** Having forgotten an entry makes no difference to what is accepted. */
  lemma SameDecision(w: World, u: UserId, codes: Codes, token: JsString, collected: int, now: int)
    requires Faithful(w, collected) && collected <= now
    ensures Verified(codes, token, now, LastOf(w.cache, u))
         == Verified(codes, token, now, if u in w.memory then Some(w.memory[u]) else None)
  {
    if u in w.memory && u !in w.cache {
      LaterWindow(w.memory[u], collected, now);
      VerifiedInWindow(codes, token, now, None);
    }
  }

  lemma OneMoreAccepted(s: seq<int>, last: int, c: int)
    requires s == [] || (EndsAt(s, last) && last < c)
    ensures EndsAt(s + [c], c)
  {
    assert forall i :: 0 <= i < |s| ==> (s + [c])[i] == s[i];
  }

  lemma RecordKeeps(w: World, u: UserId, c: int, isNew: bool, stored: int)
    requires Faithful(w, stored) && c <= stored / STEP_MS + 1
    requires !isNew && u in w.memory ==> c > w.memory[u]
    ensures Faithful(Record(w.(cache := w.cache[u := Entry(c, stored)]), u, c, isNew), stored)
  {
    var s := if isNew || u !in w.accepted then [] else w.accepted[u];
    OneMoreAccepted(s, if s == [] then 0 else w.memory[u], c);
    RecordKeepsOrder(w.(cache := w.cache[u := Entry(c, stored)]), u, c, isNew);
  }

  lemma RecordKeepsOrder(w: World, u: UserId, c: int, isNew: bool)
    requires AcceptedInOrder(w)
    requires EndsAt((if isNew || u !in w.accepted then [] else w.accepted[u]) + [c], c)
    ensures AcceptedInOrder(Record(w, u, c, isNew))
  {
    var r := Record(w, u, c, isNew);
    assert r.accepted.Keys == w.accepted.Keys + {u};
    forall v | v in r.memory
      ensures EndsAt(r.accepted[v], r.memory[v])
    {
      assert v != u ==> v in w.memory;
    }
  }

  lemma StepKeeps(w: World, e: Event, now: int)
    requires Faithful(w, now) && now <= Start(e) <= e.verified <= e.stored
    ensures Faithful(Step(w, e), e.stored)
    ensures Decision(w, e) == IdealDecision(w, e)
  {
    FaithfulLater(w, now, Start(e));
    match e
    case Verify(u, codes, token, collected, verified, stored) =>
      var k := w.(cache := Collected(w.cache, collected));
      CollectKeeps(w, collected);
      SameDecision(k, u, codes, token, collected, verified);
      VerifiedInWindow(codes, token, verified, IfKnown(w, u));
      FaithfulLater(k, collected, stored);
      var m := Decision(w, e);
      if m.Some? {
        RecordKeeps(k, u, m.value, false, stored);
      }
    case Enable(u, codes, token, verified, stored) =>
      VerifiedInWindow(codes, token, verified, None);
      FaithfulLater(w, now, stored);
      var m := Decision(w, e);
      if m.Some? {
        RecordKeeps(w, u, m.value, true, stored);
      }
  }

  function IfKnown(w: World, u: UserId): Option<int> {
    if u in w.memory then Some(w.memory[u]) else None
  }

  lemma {:induction false} RunFaithful(es: seq<Event>, now: int)
    requires Timed(es) && (es != [] ==> es[|es| - 1].stored <= now)
    ensures Faithful(Run(es), now)
    decreases |es|
  {
    if es != [] {
      var e := es[|es| - 1];
      RunFaithful(es[..|es| - 1], Start(e));
      StepKeeps(Run(es[..|es| - 1]), e, Start(e));
      FaithfulLater(Run(es), e.stored, now);
    }
  }

  /**
    Forgetting never weakens replay protection: with a clock that never goes back, every decision of
    every run is the one a cache that never forgets would take.
   */
  lemma EvictionIsInvisible(es: seq<Event>, e: Event)
    requires Timed(es + [e])
    ensures Decision(Run(es), e) == IdealDecision(Run(es), e)
  {
    assert (es + [e])[|es|] == e;
    assert forall i :: 0 <= i < |es| ==> (es + [e])[i] == es[i];
    RunFaithful(es, Start(e));
    StepKeeps(Run(es), e, Start(e));
  }

  /** The counters accepted for a user since the secret was last set are strictly increasing. */
  lemma {:induction false} AcceptedCountersIncrease(es: seq<Event>, u: UserId)
    requires Timed(es)
    ensures Increasing(History(es, u))
  {
    AcceptedIsHistory(es, u);
    if es == [] {
      RunFaithful(es, 0);
    } else {
      RunFaithful(es, es[|es| - 1].stored);
    }
  }

  /** The counters accepted for a user since the last new secret, read off the decisions of the run. */
  function History(es: seq<Event>, u: UserId): seq<int> {
    if es == [] then []
    else
      var front, e := es[..|es| - 1], es[|es| - 1];
      var m := Decision(Run(front), e);
      if e.u != u || m == None then History(front, u)
      else if e.Enable? then [m.value]
      else History(front, u) + [m.value]
  }

  /** What the model keeps of accepted counters is exactly what the decisions were. */
  lemma {:induction false} AcceptedIsHistory(es: seq<Event>, u: UserId)
    ensures AcceptedOf(Run(es), u) == History(es, u)
  {
    if es != [] {
      AcceptedIsHistory(es[..|es| - 1], u);
    }
  }

  /** The format test accepts the texts of six characters from 0 to 9 and no others. */
  lemma FormatTest(token: JsString)
    ensures SixDigits(token) <==> |token| == 6 && forall i :: 0 <= i < 6 ==> 0x30 <= token[i] <= 0x39
  {
    if SixDigits(token) {
      assert forall i :: 0 <= i < 6 ==> token[i] in token;
    }
  }

  // ----- The same text twice -----

  /** A counter of the window whose code is the token, later than every counter accepted so far. */
  ghost predicate StillOpen(accepted: seq<int>, codes: Codes, token: JsString, now: int) {
    exists c :: now / STEP_MS - 1 <= c <= now / STEP_MS + 1 && codes(c) == token && After(accepted, c)
  }

  predicate After(accepted: seq<int>, c: int) {
    forall i :: 0 <= i < |accepted| ==> accepted[i] < c
  }

  function AcceptedOf(w: World, u: UserId): seq<int> {
    if u in w.accepted then w.accepted[u] else []
  }

  lemma LastIsGreatest(s: seq<int>, last: int, c: int)
    requires EndsAt(s, last)
    ensures After(s, c) <==> last < c
  {
  }

  /**
    A code is accepted if and only if it has six digits and is the code of a counter of the window later
    than every counter accepted under the current secret. So a text is accepted again exactly when some
    later counter of the window has the same code.
   */
  lemma AcceptedExactly(es: seq<Event>, e: Event)
    requires Timed(es + [e]) && e.Verify?
    ensures Decision(Run(es), e).Some?
       <==> SixDigits(e.token) && StillOpen(History(es, e.u), e.codes, e.token, e.verified)
  {
    var w := Run(es);
    AcceptedIsHistory(es, e.u);
    assert (es + [e])[|es|] == e;
    assert forall i :: 0 <= i < |es| ==> (es + [e])[i] == es[i];
    RunFaithful(es, Start(e));
    EvictionIsInvisible(es, e);
    MatchingIsOpen(w, e);
  }

  lemma MatchingIsOpen(w: World, e: Event)
    requires AcceptedInOrder(w) && e.Verify?
    ensures Verified(e.codes, e.token, e.verified, IfKnown(w, e.u)).Some?
       <==> SixDigits(e.token) && StillOpen(AcceptedOf(w, e.u), e.codes, e.token, e.verified)
  {
    var accepted := AcceptedOf(w, e.u);
    var m := Matching(e.codes, e.token, e.verified);
    if m.Some? {
      if e.u in w.memory {
        LastIsGreatest(accepted, w.memory[e.u], m.value);
      }
      assert After(accepted, m.value) ==> StillOpen(accepted, e.codes, e.token, e.verified);
    }
    if c :| e.verified / STEP_MS - 1 <= c <= e.verified / STEP_MS + 1 && e.codes(c) == e.token && After(accepted, c) {
      assert m.Some? && c <= m.value;
      if e.u in w.memory {
        LastIsGreatest(accepted, w.memory[e.u], c);
      }
    }
  }

  /** The one-time rule: a text whose counter has been accepted, and which no later one shares, is refused. */
  lemma {:induction false} UsedCodeIsRefused(es: seq<Event>, e: Event, c: int)
    requires Timed(es + [e]) && e.Verify?
    requires c in History(es, e.u)
    requires forall d :: c < d <= e.verified / STEP_MS + 1 ==> e.codes(d) != e.token
    ensures Decision(Run(es), e) == None
  {
    AcceptedExactly(es, e);
  }

  const ZEROS: JsString := [ZERO, ZERO, ZERO, ZERO, ZERO, ZERO]

  /** Two counters may have the same code: then the same text is accepted twice. */
  lemma SameCodeAcceptedTwice()
    ensures var codes := (c: int) => ZEROS;
            var e0, e1 := Verify(0, codes, ZEROS, 0, 0, 0), Verify(0, codes, ZEROS, 60_000, 60_000, 60_000);
            Timed([e0] + [e1]) && Decision(Run([]), e0) == Some(1) && Decision(Run([e0]), e1) == Some(3)
  {
    var codes := (c: int) => ZEROS;
    var e0, e1 := Verify(0, codes, ZEROS, 0, 0, 0), Verify(0, codes, ZEROS, 60_000, 60_000, 60_000);
    assert Collected(map[], 0) == map[];
    assert [e0][..0] == [];
    assert Run([e0]) == Step(Run([]), e0);
  }
}
