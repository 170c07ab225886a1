/**
  The attempt counter that guards one user's one-time codes. Every database call is one atomic step;
  any number of `verifyOtp` calls interleave. Clock readings are in milliseconds.
 */
module OtpLockout {
  import opened Common

  const OTP_MAX_ATTEMPTS: nat := 5
  const OTP_BACKOFF_BASE_MS: nat := 30_000
  const OTP_BACKOFF_MAX_MS: nat := 30 * 60 * 1000

  /** The user's row of the lockout table. */
  datatype Row = Row(attempts: nat, lockedUntil: Option<int>)

  function Min(a: int, b: int): int {
    if a <= b then a else b
  }

  function Attempts(row: Option<Row>): nat {
    if row.Some? then row.value.attempts else 0
  }

  predicate Refuses(row: Option<Row>, now: int) {
    row.Some? && row.value.attempts >= OTP_MAX_ATTEMPTS
    && row.value.lockedUntil.Some? && row.value.lockedUntil.value > now
  }

  function Incremented(row: Option<Row>): Option<Row> {
    if row.Some? then Some(row.value.(attempts := row.value.attempts + 1)) else Some(Row(1, None))
  }

  function Backoff(attempts: nat): nat
    requires attempts > OTP_MAX_ATTEMPTS
  {
    var overflow := attempts - OTP_MAX_ATTEMPTS;
    Min(OTP_BACKOFF_BASE_MS * Pow2(overflow - 1), OTP_BACKOFF_MAX_MS)
  }

  // ----- The service, one call at a time -----

  /** What a call alone does: whether it resolves, and the row it leaves. */
  function Consumed(row: Option<Row>, read: int, locked: int): (bool, Option<Row>) {
    if Refuses(row, read) then (false, row)
    else
      var after := Incremented(row);
      if after.value.attempts <= OTP_MAX_ATTEMPTS then (true, after)
      else (false, Some(after.value.(lockedUntil := Some(locked + Backoff(after.value.attempts)))))
  }

  class OtpLockoutService {
    var row: Option<Row>

    constructor ()
      ensures row == None
    {
      row := None;
    }

    method ConsumeAttempt(read: int, locked: int) returns (resolved: bool)
      modifies this
      ensures (resolved, row) == Consumed(old(row), read, locked)
    {
      var existing := row;
      if existing.Some? && existing.value.attempts >= OTP_MAX_ATTEMPTS
         && existing.value.lockedUntil.Some? && existing.value.lockedUntil.value > read {
        return false;
      }
      if row.Some? {
        row := Some(Row(row.value.attempts + 1, row.value.lockedUntil));
      } else {
        row := Some(Row(1, None));
      }
      if row.value.attempts > OTP_MAX_ATTEMPTS {
        row := Some(Row(row.value.attempts, Some(locked + Backoff(row.value.attempts))));
        return false;
      }
      return true;
    }

    method Reset()
      modifies this
      ensures row == None
    {
      row := None;
    }
  }

  // ----- Sequential runs: the backoff ladder -----

  /** The clock readings of one call: at the gate, and when the window is written. */
  datatype Call = Call(read: int, locked: int)

  /** A window given to a call past the cap. */
  datatype Window = Window(since: int, until: int)

  datatype History = History(row: Option<Row>, windows: seq<Window>)

  /** One more call of a sequential run. */
  function Called(h: History, c: Call): History {
    var after := Consumed(h.row, c.read, c.locked).1;
    History(after,
            if Refuses(h.row, c.read) || Attempts(after) <= OTP_MAX_ATTEMPTS then h.windows
            else h.windows + [Window(c.locked, after.value.lockedUntil.value)])
  }

  function Replay(calls: seq<Call>): History {
    if calls == [] then History(None, []) else Called(Replay(calls[..|calls| - 1]), calls[|calls| - 1])
  }

  /** Each call finishes before the next one starts. */
  predicate OneAtATime(calls: seq<Call>) {
    && (forall i :: 0 <= i < |calls| ==> calls[i].read <= calls[i].locked)
    && (forall i, j :: 0 <= i < j < |calls| ==> calls[i].locked <= calls[j].read)
  }

  predicate IsLadder(ws: seq<Window>) {
    && (forall i :: 0 <= i < |ws| ==> Length(ws[i]) == Min(OTP_BACKOFF_BASE_MS * Pow2(i), OTP_BACKOFF_MAX_MS))
    && (forall i :: 0 < i < |ws| ==> ws[i - 1].until <= ws[i].since)
  }

  function Length(w: Window): int {
    w.until - w.since
  }

  /** Past the cap the row counts the windows given and remembers the last. */
  predicate RowMatches(h: History) {
    && (h.windows == [] ==> Attempts(h.row) <= OTP_MAX_ATTEMPTS
                            && (h.row.Some? ==> h.row.value.lockedUntil == None))
    && (h.windows != [] ==> h.row.Some? && h.row.value.attempts == OTP_MAX_ATTEMPTS + |h.windows|
                            && h.row.value.lockedUntil == Some(h.windows[|h.windows| - 1].until))
  }

  lemma LadderExtends(ws: seq<Window>, w: Window)
    requires IsLadder(ws)
    requires Length(w) == Min(OTP_BACKOFF_BASE_MS * Pow2(|ws|), OTP_BACKOFF_MAX_MS)
    requires ws != [] ==> ws[|ws| - 1].until <= w.since
    ensures IsLadder(ws + [w])
  {
  }

  lemma {:induction false} PowGrows(m: nat, n: nat)
    requires m <= n
    ensures Pow2(m) <= Pow2(n)
  {
    if m < n {
      PowGrows(m, n - 1);
    }
  }

  lemma {:induction false} LadderInvariant(calls: seq<Call>)
    requires OneAtATime(calls)
    ensures IsLadder(Replay(calls).windows) && RowMatches(Replay(calls))
  {
    if calls != [] {
      var h := Replay(calls[..|calls| - 1]);
      var c := calls[|calls| - 1];
      LadderInvariant(calls[..|calls| - 1]);
      var after := Consumed(h.row, c.read, c.locked).1;
      if !Refuses(h.row, c.read) && Attempts(after) > OTP_MAX_ATTEMPTS {
        LadderExtends(h.windows, Window(c.locked, after.value.lockedUntil.value));
      }
    }
  }

  /** A window is open at `now`. */
  predicate WindowOpen(h: History, now: int) {
    h.windows != [] && now < h.windows[|h.windows| - 1].until
  }

  lemma {:induction false} AttemptsSoFar(calls: seq<Call>)
    requires OneAtATime(calls)
    ensures |calls| <= 5 ==> Attempts(Replay(calls).row) == |calls| && Replay(calls).windows == []
    ensures |calls| >= 5 ==> Attempts(Replay(calls).row) == 5 + |Replay(calls).windows|
  {
    if calls != [] {
      LadderInvariant(calls[..|calls| - 1]);
      AttemptsSoFar(calls[..|calls| - 1]);
    }
  }

  lemma ReplayGrows(calls: seq<Call>, c: Call)
    requires OneAtATime(calls + [c])
    ensures OneAtATime(calls)
    ensures Replay(calls + [c]) == Called(Replay(calls), c)
  {
    hide Called;
    assert (calls + [c])[..|calls|] == calls;
    assert forall i :: 0 <= i < |calls| ==> (calls + [c])[i] == calls[i];
  }

  lemma NextStep(h: History, n: nat, c: Call)
    requires RowMatches(h)
    requires n <= 5 ==> Attempts(h.row) == n && h.windows == []
    requires n >= 5 ==> Attempts(h.row) == 5 + |h.windows|
    ensures var h' := Called(h, c);
            && (Consumed(h.row, c.read, c.locked).0 <==> n < 5)
            && (n < 5 ==> h'.windows == [])
            && (n >= 5 && WindowOpen(h, c.read) ==> h' == h)
            && (n >= 5 && !WindowOpen(h, c.read) ==>
                  h'.windows == h.windows +
                    [Window(c.locked, c.locked + Min(30_000 * Pow2(|h.windows|), 1_800_000))])
  {
  }

  /**
    Every call of a sequential run without reset: the first five resolve; after that a call during an
    open window is refused and leaves no trace, and a call at or after its end is refused and opens the
    next window of the ladder.
   */
  lemma {:induction false} NextCall(calls: seq<Call>, c: Call)
    requires OneAtATime(calls + [c])
    ensures var h, h' := Replay(calls), Replay(calls + [c]);
            && (Consumed(h.row, c.read, c.locked).0 <==> |calls| < 5)
            && (|calls| < 5 ==> h'.windows == [])
            && (|calls| >= 5 && WindowOpen(h, c.read) ==> h' == h)
            && (|calls| >= 5 && !WindowOpen(h, c.read) ==>
                  h'.windows == h.windows +
                    [Window(c.locked, c.locked + Min(30_000 * Pow2(|h.windows|), 1_800_000))])
  {
    hide *;
    ReplayGrows(calls, c);
    LadderInvariant(calls);
    AttemptsSoFar(calls);
    NextStep(Replay(calls), |calls|, c);
  }

  /**
    The backoff ladder: in a sequential run without reset the n-th window (counting from 0) lasts
    min(30 000 * 2^n, 1 800 000) ms, windows never shrink, last at most half an hour and never overlap.
   */
  lemma {:induction false} BackoffLadder(calls: seq<Call>, m: nat, n: nat)
    requires OneAtATime(calls)
    requires m <= n < |Replay(calls).windows|
    ensures var ws := Replay(calls).windows;
            && Length(ws[n]) == Min(OTP_BACKOFF_BASE_MS * Pow2(n), OTP_BACKOFF_MAX_MS)
            && Length(ws[m]) <= Length(ws[n]) <= OTP_BACKOFF_MAX_MS
            && (m < n ==> ws[m].until <= ws[n].since)
  {
    LadderInvariant(calls);
    PowGrows(m, n);
    if m < n {
      WindowsApart(Replay(calls).windows, m, n);
    }
  }

  lemma {:induction false} WindowsApart(ws: seq<Window>, m: nat, n: nat)
    requires IsLadder(ws) && m < n < |ws|
    ensures ws[m].until <= ws[n].since
  {
    if m < n - 1 {
      WindowsApart(ws, m, n - 1);
      assert Length(ws[n - 1]) >= 0;
    }
  }

  // ----- Interleaved calls -----

  type CallId = nat

  /** Where a `verifyOtp` call stands between its awaits. */
  datatype Phase =
    | Gate                  // about to read the row
    | Increment             // let through, about to increment
    | Lock(attempts: nat)   // past the cap, about to write the window
    | Rejected
    | Verifying             // resolved: one code may be compared
    | Resetting             // the code matched, the row is about to be deleted
    | Finished

  datatype Event =
    | Start(id: CallId)
    | Read(id: CallId, now: int)
    | Upsert(id: CallId)
    | WriteLock(id: CallId, now: int)
    | Compare(id: CallId, matches: bool)
    | NoSecret(id: CallId)
    | DeleteRow(id: CallId)

  datatype World = World(row: Option<Row>, calls: map<CallId, Phase>)

  const Quiet: World := World(None, map[])

  predicate At(w: World, id: CallId, p: Phase) {
    id in w.calls && w.calls[id] == p
  }

  function Move(w: World, id: CallId, p: Phase): World {
    w.(calls := w.calls[id := p])
  }

  /** One step; an event whose call is not at that point does nothing. */
  function Step(w: World, e: Event): World {
    match e
    case Start(id) => if id in w.calls then w else Move(w, id, Gate)
    case Read(id, now) =>
      if !At(w, id, Gate) then w else Move(w, id, if Refuses(w.row, now) then Rejected else Increment)
    case Upsert(id) =>
      if !At(w, id, Increment) then w
      else
        var row := Incremented(w.row);
        var n := Attempts(row);
        Move(w, id, if n > OTP_MAX_ATTEMPTS then Lock(n) else Verifying).(row := row)
    case WriteLock(id, now) =>
      if !(id in w.calls && w.calls[id].Lock? && w.calls[id].attempts > OTP_MAX_ATTEMPTS) then w
      else
        // updating a row that a reset has deleted throws; the call is rejected either way
        var until := Some(now + Backoff(w.calls[id].attempts));
        Move(w, id, Rejected).(row := if w.row.Some? then Some(w.row.value.(lockedUntil := until)) else None)
    case Compare(id, matches) =>
      if !At(w, id, Verifying) then w else Move(w, id, if matches then Resetting else Finished)
    case NoSecret(id) => if !At(w, id, Verifying) then w else Move(w, id, Finished)
    case DeleteRow(id) => if !At(w, id, Resetting) then w else Move(w, id, Finished).(row := None)
  }

  function Run(w: World, es: seq<Event>): World
    decreases |es|
  {
    if es == [] then w else Run(Step(w, es[0]), es[1..])
  }

  predicate Admits(w: World, e: Event) {
    e.Upsert? && At(w, e.id, Increment) && Attempts(w.row) < OTP_MAX_ATTEMPTS
  }

  predicate Compares(w: World, e: Event) {
    e.Compare? && At(w, e.id, Verifying)
  }

  predicate Matches(w: World, e: Event) {
    Compares(w, e) && e.matches
  }

  predicate Resets(w: World, e: Event) {
    e.DeleteRow? && At(w, e.id, Resetting)
  }

  /** How many events of a run satisfy `p` where they happen. */
  function Count(p: (World, Event) -> bool, w: World, es: seq<Event>): nat
    decreases |es|
  {
    if es == [] then 0 else (if p(w, es[0]) then 1 else 0) + Count(p, Step(w, es[0]), es[1..])
  }

  /** A call running alone does what the sequential service does. */
  lemma AloneIsASchedule(w: World, id: CallId, read: int, locked: int)
    requires id !in w.calls
    ensures var w' := Run(w, [Start(id), Read(id, read), Upsert(id), WriteLock(id, locked)]);
            var r := Consumed(w.row, read, locked);
            w'.row == r.1 && w'.calls == w.calls[id := if r.0 then Verifying else Rejected]
  {
    var es := [Start(id), Read(id, read), Upsert(id), WriteLock(id, locked)];
    var w1 := Step(w, es[0]);
    var w2 := Step(w1, es[1]);
    var w3 := Step(w2, es[2]);
    var w4 := Step(w3, es[3]);
    assert es[1..] == [es[1], es[2], es[3]];
    assert es[1..][1..] == [es[2], es[3]];
    assert es[1..][1..][1..] == [es[3]];
    assert es[1..][1..][1..][1..] == [];
    assert Run(w, es) == Run(w1, es[1..]) == Run(w2, es[1..][1..]) == Run(w3, es[1..][1..][1..]) == w4;
    assert Consumed(w.row, read, locked).0 ==> w4.calls == w.calls[id := Verifying];
  }

  /** Where a call may go from where it is. */
  predicate Next(p: Phase, q: Phase) {
    match p
    case Gate => q == Rejected || q == Increment
    case Increment => q == Verifying || q.Lock?
    case Lock(n) => q == Rejected
    case Verifying => q == Resetting || q == Finished
    case Resetting => q == Finished
    case _ => false
  }

  /** A step moves its own call only, along its path; the row changes at increments, locks and deletions only. */
  lemma StepsInOrder(w: World, e: Event, id: CallId)
    requires id in w.calls
    ensures id in Step(w, e).calls
    ensures Step(w, e).calls[id] != w.calls[id] ==> e.id == id && Next(w.calls[id], Step(w, e).calls[id])
    ensures Step(w, e).row != w.row ==>
              e.id in w.calls && (w.calls[e.id] == Increment || w.calls[e.id].Lock? || w.calls[e.id] == Resetting)
  {
  }

  /** A resolved call ends in one of three ways; only a match deletes the row, and then all tries are back. */
  lemma ResolvedCallEnds(w: World, id: CallId)
    requires At(w, id, Verifying)
    ensures Step(w, NoSecret(id)) == World(w.row, w.calls[id := Finished])
    ensures Step(w, Compare(id, false)) == World(w.row, w.calls[id := Finished])
    ensures Step(Step(w, Compare(id, true)), DeleteRow(id)).row == None
    ensures Attempts(Step(Step(w, Compare(id, true)), DeleteRow(id)).row) == 0
  {
  }

  /** Between resets the tries still open are five less the attempts recorded. */
  lemma {:induction false} TriesPerEpoch(w: World, es: seq<Event>)
    requires Count(Resets, w, es) == 0
    ensures Count(Admits, w, es)
         == Min(Attempts(Run(w, es).row), OTP_MAX_ATTEMPTS) - Min(Attempts(w.row), OTP_MAX_ATTEMPTS)
    decreases |es|
  {
    if es != [] {
      TriesPerEpoch(Step(w, es[0]), es[1..]);
    }
  }

  /**
    At most five tries per epoch: in any interleaving, of the calls whose increment falls in a stretch
    without reset at most `OTP_MAX_ATTEMPTS` resolve.
   */
  lemma AtMostFivePerEpoch(before: seq<Event>, epoch: seq<Event>)
    requires Count(Resets, Run(Quiet, before), epoch) == 0
    ensures Count(Admits, Run(Quiet, before), epoch) <= OTP_MAX_ATTEMPTS
  {
    TriesPerEpoch(Run(Quiet, before), epoch);
  }

  // ----- Codes compared over a whole run -----

  function InPhase(w: World, p: Phase): set<CallId> {
    set id | id in w.calls && w.calls[id] == p
  }

  lemma Leaves(w: World, id: CallId, p: Phase, q: Phase)
    requires p != q
    ensures |InPhase(Move(w, id, p), q)| == |InPhase(w, q)| - (if At(w, id, q) then 1 else 0)
  {
    assert InPhase(Move(w, id, p), q) == InPhase(w, q) - {id};
  }

  lemma Enters(w: World, id: CallId, p: Phase)
    requires !At(w, id, p)
    ensures |InPhase(Move(w, id, p), p)| == |InPhase(w, p)| + 1
  {
    assert InPhase(Move(w, id, p), p) == InPhase(w, p) + {id};
  }

  lemma MoveCounts(w: World, id: CallId, p: Phase, q: Phase)
    requires !At(w, id, p)
    ensures |InPhase(Move(w, id, p), q)|
         == |InPhase(w, q)| + (if p == q then 1 else 0) - (if At(w, id, q) then 1 else 0)
  {
    if p == q {
      Enters(w, id, p);
    } else {
      Leaves(w, id, p, q);
    }
  }

  /** The tries open now: unused attempts, calls about to compare, and resets about to happen. */
  function Open(w: World): int {
    OTP_MAX_ATTEMPTS - Min(Attempts(w.row), OTP_MAX_ATTEMPTS)
    + |InPhase(w, Verifying)| + OTP_MAX_ATTEMPTS * |InPhase(w, Resetting)|
  }

  /** Only a matching code opens new tries, five at a time; comparing uses one up. */
  lemma OpenStep(w: World, e: Event)
    ensures Open(Step(w, e)) + (if Compares(w, e) then 1 else 0)
         <= Open(w) + (if Matches(w, e) then OTP_MAX_ATTEMPTS else 0)
  {
    var w' := Step(w, e);
    if w' != w {
      assert InPhase(Move(w, e.id, w'.calls[e.id]), Verifying) == InPhase(w', Verifying);
      assert InPhase(Move(w, e.id, w'.calls[e.id]), Resetting) == InPhase(w', Resetting);
      MoveCounts(w, e.id, w'.calls[e.id], Verifying);
      MoveCounts(w, e.id, w'.calls[e.id], Resetting);
    }
  }

  lemma {:induction false} OpenRun(w: World, es: seq<Event>)
    ensures Open(Run(w, es)) + Count(Compares, w, es) <= Open(w) + OTP_MAX_ATTEMPTS * Count(Matches, w, es)
    decreases |es|
  {
    if es != [] {
      OpenStep(w, es[0]);
      OpenRun(Step(w, es[0]), es[1..]);
    }
  }

  /**
    Over a whole run, whatever the interleaving and however long it lasts, the codes compared are at
    most five for each code that matched, and five more.
   */
  lemma FiveGuessesPerMatch(es: seq<Event>)
    ensures Count(Compares, Quiet, es) <= OTP_MAX_ATTEMPTS * (1 + Count(Matches, Quiet, es))
  {
    OpenRun(Quiet, es);
    assert InPhase(Quiet, Verifying) == {} && InPhase(Quiet, Resetting) == {};
  }

  // ----- The lockout never ends -----

  /** A call that has resolved and may still compare a code or delete the row. */
  predicate Underway(w: World, id: CallId) {
    At(w, id, Verifying) || At(w, id, Resetting)
  }

  ghost predicate Spent(w: World) {
    Attempts(w.row) >= OTP_MAX_ATTEMPTS && forall id :: !Underway(w, id)
  }

  lemma SpentStep(w: World, e: Event)
    requires Spent(w)
    ensures Spent(Step(w, e)) && !Admits(w, e) && !Compares(w, e)
  {
    assert !Underway(w, e.id);
    forall id
      ensures !Underway(Step(w, e), id)
    {
      assert !Underway(w, id);
    }
  }

  lemma {:induction false} SpentForEver(w: World, es: seq<Event>)
    requires Spent(w)
    ensures Spent(Run(w, es)) && Count(Admits, w, es) == 0 && Count(Compares, w, es) == 0
    decreases |es|
  {
    if es != [] {
      SpentStep(w, es[0]);
      SpentForEver(Step(w, es[0]), es[1..]);
    }
  }

  /** Some later run compares a code. */
  ghost predicate CanStillVerify(w: World) {
    exists es :: Count(Compares, w, es) > 0
  }

  /** A call that resolves and compares a code, given a world that still has a try or a pending reset. */
  lemma FreshCallCompares(w: World, id: CallId)
    requires id !in w.calls && Attempts(w.row) < OTP_MAX_ATTEMPTS
    ensures CanStillVerify(w)
  {
    var es := [Start(id), Read(id, 0), Upsert(id), Compare(id, false)];
    assert es[1..] == [es[1], es[2], es[3]];
    assert es[1..][1..] == [es[2], es[3]];
    assert es[1..][1..][1..] == [es[3]];
    var w1 := Step(w, es[0]);
    var w2 := Step(w1, es[1]);
    var w3 := Step(w2, es[2]);
    assert At(w3, id, Verifying);
    assert Count(Compares, w3, es[1..][1..][1..]) > 0;
    assert Count(Compares, w2, es[1..][1..]) > 0;
    assert Count(Compares, w1, es[1..]) > 0;
    assert Count(Compares, w, es) > 0;
  }

  lemma PendingCompares(w: World, id: CallId)
    requires At(w, id, Verifying)
    ensures CanStillVerify(w)
  {
    assert Count(Compares, w, [Compare(id, false)]) > 0;
  }

  lemma PendingResets(w: World, id: CallId, spare: CallId)
    requires At(w, id, Resetting) && spare !in w.calls
    ensures CanStillVerify(w)
  {
    var w1 := Step(w, DeleteRow(id));
    FreshCallCompares(w1, spare);
    var es :| Count(Compares, w1, es) > 0;
    var all := [DeleteRow(id)] + es;
    assert all[1..] == es;
    assert Count(Compares, w, all) > 0;
  }

  /**
    Waiting out the window does not restore the second factor: codes can be compared again if and
    only if fewer than five attempts are recorded, or a call that resolved earlier is still under way.
   */
  lemma LockoutOutlivesWindows(w: World, spare: CallId)
    requires spare !in w.calls
    ensures CanStillVerify(w)
       <==> (Attempts(w.row) < OTP_MAX_ATTEMPTS || exists id :: Underway(w, id))
  {
    if Attempts(w.row) < OTP_MAX_ATTEMPTS {
      FreshCallCompares(w, spare);
    } else if id :| Underway(w, id) {
      if At(w, id, Verifying) {
        PendingCompares(w, id);
      } else {
        PendingResets(w, id, spare);
      }
    } else if CanStillVerify(w) {
      var es :| Count(Compares, w, es) > 0;
      assert Spent(w);
      SpentForEver(w, es);
      assert false;
    }
  }

  // ----- Five wrong codes -----

  /** A call that resolves and compares a wrong code. */
  function WrongCode(id: CallId): seq<Event> {
    [Start(id), Read(id, 0), Upsert(id), Compare(id, false)]
  }

  function WrongCodes(n: nat): seq<Event> {
    if n == 0 then [] else WrongCodes(n - 1) + WrongCode(n - 1)
  }

  lemma {:induction false} RunAppend(w: World, a: seq<Event>, b: seq<Event>)
    ensures Run(w, a + b) == Run(Run(w, a), b)
    decreases |a|
  {
    if a == [] {
      assert a + b == b;
    } else {
      HeadTail(a, b);
      RunAppend(Step(w, a[0]), a[1..], b);
    }
  }

  lemma OneWrongCode(w: World, id: CallId)
    requires id !in w.calls && Attempts(w.row) < OTP_MAX_ATTEMPTS
    ensures Run(w, WrongCode(id)) == World(Incremented(w.row), w.calls[id := Finished])
  {
    var es := WrongCode(id);
    var w1 := Step(w, es[0]);
    var w2 := Step(w1, es[1]);
    var w3 := Step(w2, es[2]);
    var w4 := Step(w3, es[3]);
    assert es[1..] == [es[1], es[2], es[3]];
    assert es[1..][1..] == [es[2], es[3]];
    assert es[1..][1..][1..] == [es[3]];
    assert es[1..][1..][1..][1..] == [];
    assert Run(w, es) == Run(w1, es[1..]) == Run(w2, es[1..][1..]) == Run(w3, es[1..][1..][1..]) == w4;
    assert w4.calls == w.calls[id := Finished];
  }

  lemma {:induction false} AfterWrongCodes(n: nat)
    requires n <= OTP_MAX_ATTEMPTS
    ensures var w := Run(Quiet, WrongCodes(n));
            Attempts(w.row) == n && forall id :: id in w.calls ==> id < n && w.calls[id] == Finished
  {
    if n > 0 {
      AfterWrongCodes(n - 1);
      RunAppend(Quiet, WrongCodes(n - 1), WrongCode(n - 1));
      OneWrongCode(Run(Quiet, WrongCodes(n - 1)), n - 1);
    }
  }

  /** Five wrong codes, with nothing else under way, and no code is ever compared again. */
  lemma FiveWrongCodesLockOut()
    ensures !CanStillVerify(Run(Quiet, WrongCodes(OTP_MAX_ATTEMPTS)))
  {
    var w := Run(Quiet, WrongCodes(OTP_MAX_ATTEMPTS));
    AfterWrongCodes(OTP_MAX_ATTEMPTS);
    LockoutOutlivesWindows(w, OTP_MAX_ATTEMPTS);
  }
}
