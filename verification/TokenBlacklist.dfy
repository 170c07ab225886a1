/**
  The access-token blacklist and the part of the HTTP guard that consults it. The guard reads the
  clock twice, once to check the token's expiry (in seconds) and once, after the awaited lookup,
  to check the row's (in milliseconds).
 */
module TokenBlacklist {
  import opened Common

  /** `exp` is the expiry claim in seconds, 0 when the token has none. */
  datatype Jwt = Jwt(id: nat, exp: nat)

  /** Rows keyed by the token's digest, with their expiry in milliseconds. */
  type Table = map<Jwt, nat>

  /** The upsert of `add`: an existing row is left alone. A token without expiry is refused. */
  function Added(table: Table, token: Jwt): Table {
    if token.exp == 0 || token in table then table else table[token := token.exp * 1000]
  }

  function CleanedUp(table: Table, now: nat): Table {
    map t | t in table && table[t] >= now :: table[t]
  }

  predicate Blacklisted(table: Table, token: Jwt, now: nat) {
    token in table && !(table[token] < now)
  }

  /** The expiry test of RFC 7519, section 4.1.4, on a clock in milliseconds. */
  predicate Unexpired(token: Jwt, now: nat) {
    token.exp == 0 || now / 1000 < token.exp
  }

  /** `verified` is the clock at the expiry test; `table` and `checked` belong to the lookup. */
  predicate GuardPasses(table: Table, token: Jwt, verified: nat, checked: nat) {
    Unexpired(token, verified) && !Blacklisted(table, token, checked)
  }

  class TokenBlacklistService {
    var table: Table

    method Add(token: Jwt) returns (ok: bool)
      modifies this
      ensures ok <==> token.exp != 0
      ensures table == Added(old(table), token)
    {
      if token.exp == 0 { return false; }
      var expiresAt := token.exp * 1000;
      if token !in table {
        table := table[token := expiresAt];
      }
      return true;
    }

    method CleanupExpiredTokens(now: nat) returns (count: nat)
      modifies this
      ensures table == CleanedUp(old(table), now)
      ensures forall t :: t in table <==> t in old(table) && old(table)[t] >= now
      ensures forall t :: t in table ==> table[t] == old(table)[t]
      ensures count == |old(table)| - |table|
    {
      var kept := map t | t in table && table[t] >= now :: table[t];
      FewerKeys(kept, table);
      count := |table| - |kept|;
      table := kept;
    }

    method IsBlacklisted(token: Jwt, now: nat) returns (r: bool)
      ensures r <==> Blacklisted(table, token, now)
    {
      if token !in table { return false; }
      if table[token] < now { return false; }
      return true;
    }
  }

  lemma FewerKeys(a: Table, b: Table)
    requires a.Keys <= b.Keys
    ensures |a| <= |b|
  {
    SubsetSize(a.Keys, b.Keys);
  }

  // ----- Runs -----

  datatype Event = Add(token: Jwt, at: nat) | Cleanup(at: nat)

  function Step(table: Table, e: Event): Table {
    match e
    case Add(token, _) => Added(table, token)
    case Cleanup(now) => CleanedUp(table, now)
  }

  function Run(es: seq<Event>): Table {
    if es == [] then map[] else Step(Run(es[..|es| - 1]), es[|es| - 1])
  }

  /** A cleanup in a run removes the rows that expired before it, and no other. */
  lemma CleanupStep(table: Table, now: nat, token: Jwt)
    ensures token in Step(table, Cleanup(now)) <==> token in table && table[token] >= now
    ensures token in Step(table, Cleanup(now)) ==> Step(table, Cleanup(now))[token] == table[token]
  {
  }

  /** The same run on a blacklist that is never cleaned. */
  function RunKeeping(es: seq<Event>): Table {
    if es == [] then map[]
    else
      var before := RunKeeping(es[..|es| - 1]);
      if es[|es| - 1].Add? then Added(before, es[|es| - 1].token) else before
  }

  /** The clock never goes back, and has not passed `now`. */
  predicate Timed(es: seq<Event>, now: nat) {
    && (forall i, j :: 0 <= i < j < |es| ==> es[i].at <= es[j].at)
    && (forall i :: 0 <= i < |es| ==> es[i].at <= now)
  }

  predicate EverAdded(es: seq<Event>, token: Jwt) {
    exists e :: e in es && e.Add? && e.token == token && token.exp != 0
  }

  lemma {:induction false} KeptTable(es: seq<Event>, token: Jwt)
    ensures token in RunKeeping(es) <==> EverAdded(es, token)
    ensures token in RunKeeping(es) ==> RunKeeping(es)[token] == token.exp * 1000
  {
    if es != [] {
      KeptTable(es[..|es| - 1], token);
      assert es == es[..|es| - 1] + [es[|es| - 1]];
    }
  }

  /** Cleaning only ever loses rows that had already expired. */
  lemma {:induction false} LostRowsExpired(es: seq<Event>, now: nat, token: Jwt)
    requires Timed(es, now)
    ensures token in Run(es) ==>
              token in RunKeeping(es) && Run(es)[token] == RunKeeping(es)[token]
    ensures token in RunKeeping(es) && token !in Run(es) ==> RunKeeping(es)[token] < now
  {
    if es != [] {
      var e := es[|es| - 1];
      LostRowsExpired(es[..|es| - 1], e.at, token);
      KeptTable(es[..|es| - 1], token);
    }
  }

  /** However additions and cleanups interleave, cleaning up never changes a guard's verdict. */
  lemma CleanupIsInvisible(es: seq<Event>, token: Jwt, verified: nat, looked: nat, checked: nat)
    requires Timed(es, looked) && verified <= looked <= checked
    ensures GuardPasses(Run(es), token, verified, checked)
       <==> GuardPasses(RunKeeping(es), token, verified, checked)
  {
    LostRowsExpired(es, looked, token);
  }

  /**
    The guard lets a token pass exactly when it is unexpired at the expiry test and was never
    blacklisted before the lookup, or else its expiry falls between the two clock readings.
   */
  lemma GuardVerdict(es: seq<Event>, token: Jwt, verified: nat, looked: nat, checked: nat)
    requires Timed(es, looked) && verified <= looked <= checked
    ensures GuardPasses(Run(es), token, verified, checked)
       <==> Unexpired(token, verified) && (!EverAdded(es, token) || token.exp * 1000 < checked)
  {
    CleanupIsInvisible(es, token, verified, looked, checked);
    KeptTable(es, token);
  }

  /** Without a delay between the readings, a blacklisted token never passes. */
  lemma BlacklistedNeverPasses(es: seq<Event>, token: Jwt, now: nat)
    requires Timed(es, now)
    ensures GuardPasses(Run(es), token, now, now)
       <==> Unexpired(token, now) && !EverAdded(es, token)
  {
    GuardVerdict(es, token, now, now, now);
    SecondsAgree(token.exp, now);
  }

  lemma SecondsAgree(exp: nat, now: nat)
    ensures now / 1000 < exp <==> now < exp * 1000
  {
  }

  /** With a delay across the expiry it does: verified just before, checked just after. */
  lemma ExpiryDuringLookupPasses(token: Jwt)
    requires token.exp > 0
    ensures var es := [Add(token, 0)];
            EverAdded(es, token)
            && GuardPasses(Run(es), token, token.exp * 1000 - 1, token.exp * 1000 + 1)
  {
    var es := [Add(token, 0)];
    assert es[0] in es;
    GuardVerdict(es, token, token.exp * 1000 - 1, token.exp * 1000 - 1, token.exp * 1000 + 1);
    SecondsAgree(token.exp, token.exp * 1000 - 1);
  }
}
