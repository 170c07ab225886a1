/**
  The audit service: inserting rows, building the metadata of `log`, and the integrity report
  over a whole reading of the table.
 */
module AuditService {
  import opened Common
  import opened JsText
  import opened CanonicalJson
  import opened CanonicalJsonProofs
  import opened AuditLog

  // ----- Writing -----

  class AuditWriter {
    const mac: JsString -> Digest
    var table: seq<StoredRow>

    constructor (mac: JsString -> Digest)
      ensures this.mac == mac && table == []
    {
      this.mac := mac;
      table := [];
    }

    /** `createRow`, with the fresh id, the clock reading and the user snapshot as parameters. */
    method CreateRow(id: JsString, timestamp: JsString, userId: Option<JsString>, action: JsString,
                     category: JsString, authMethod: Option<JsString>, ipAddress: Option<JsString>,
                     metadata: Js, userSnapshot: Js)
      modifies this
      ensures table == old(table) + [Store(mac, Fields(id, action, userId, timestamp, Some(category),
                                                       ipAddress, metadata, userSnapshot), authMethod)]
    {
      var hmac := ComputeHmac(mac, Fields(id, action, userId, timestamp, Some(category), ipAddress,
                                          metadata, userSnapshot));
      table := table + [StoredRow(id, action, userId, timestamp, Some(category), ipAddress,
                                  Persisted(metadata), Persisted(userSnapshot), authMethod, Some(hmac))];
    }
  }

  // ----- The metadata of `log` -----

  /** One field of an entities block, such as `machines`, with its ids. */
  datatype EntityField = EntityField(name: JsString, ids: seq<JsString>)

  /** The non-empty ids, first occurrences only. */
  function Unique(ids: seq<JsString>): (r: seq<JsString>)
    ensures forall x :: x in r <==> x in ids && x != []
  {
    if ids == [] then []
    else
      var before := Unique(ids[..|ids| - 1]);
      var id := ids[|ids| - 1];
      assert forall x :: x in ids <==> x in ids[..|ids| - 1] || x == id;
      if id == [] || id in before then before else before + [id]
  }

  function Strings(ids: seq<JsString>): (r: seq<Js>)
    ensures |r| == |ids| && forall x :: x in r ==> x.Str?
  {
    seq(|ids|, i requires 0 <= i < |ids| => Str(ids[i]))
  }

  /** Fields left with no id are dropped. */
  function NormaliseEntities(fields: seq<EntityField>): seq<Member> {
    if fields == [] then []
    else if Unique(fields[0].ids) == [] then NormaliseEntities(fields[1..])
    else [Member(fields[0].name, Arr(Strings(Unique(fields[0].ids))))] + NormaliseEntities(fields[1..])
  }

  /** `{...ms, key: val}`: an existing key keeps its place. */
  function Put(ms: seq<Member>, key: JsString, val: Js): seq<Member> {
    if ms == [] then [Member(key, val)]
    else if ms[0].key == key then [Member(key, val)] + ms[1..]
    else [ms[0]] + Put(ms[1..], key, val)
  }

  function IdsOf(ms: seq<Member>, key: JsString): seq<Js> {
    if ms == [] then []
    else if ms[0].key == key && ms[0].val.Arr? then ms[0].val.items
    else IdsOf(ms[1..], key)
  }

  /** The entities block: what the caller named, and the actor among the users. */
  function FinalEntities(actorId: Option<JsString>, fields: seq<EntityField>): seq<Member> {
    var named := NormaliseEntities(fields);
    if actorId.None? || actorId.value == [] then named
    else
      var users := IdsOf(named, Ascii("users"));
      var withActor := if Str(actorId.value) in users then users else users + [Str(actorId.value)];
      Put(named, Ascii("users"), Arr(withActor))
  }

  function LogMetadata(actorId: Option<JsString>, details: Option<seq<Member>>,
                       fields: seq<EntityField>): Js {
    var block := FinalEntities(actorId, fields);
    if details.None? && block == [] then Null
    else
      var d := if details.None? then [] else details.value;
      Obj(Put(d, Ascii("entities"), if block == [] then Undefined else Obj(block)))
  }

  /** The event names an actor or some entity. */
  predicate NamesSomething(actorId: Option<JsString>, fields: seq<EntityField>) {
    (actorId.Some? && actorId.value != [])
    || exists f: EntityField, id :: f in fields && id in f.ids && id != []
  }

  ghost predicate ArraysOfStrings(ms: seq<Member>) {
    forall m: Member :: m in ms ==> m.val.Arr? && forall x :: x in m.val.items ==> x.Str?
  }

  lemma {:induction false} PutMembers(ms: seq<Member>, key: JsString, val: Js)
    requires DistinctKeys(ms)
    ensures DistinctKeys(Put(ms, key, val))
    ensures forall m: Member ::
              m in Put(ms, key, val) <==> m == Member(key, val) || (m in ms && m.key != key)
  {
    if ms != [] {
      assert ms == [ms[0]] + ms[1..];
      if ms[0].key != key {
        PutMembers(ms[1..], key, val);
        var r := Put(ms[1..], key, val);
        forall i | 0 <= i < |r|
          ensures r[i].key != ms[0].key
        {
          assert r[i] in r;
        }
      } else {
        forall m: Member | m in ms[1..]
          ensures m.key != key
        {
        }
      }
    }
  }

  lemma {:induction false} NormalisedEntities(fields: seq<EntityField>)
    ensures ArraysOfStrings(NormaliseEntities(fields))
    ensures NormaliseEntities(fields) == []
       <==> !exists f: EntityField, id :: f in fields && id in f.ids && id != []
    ensures forall m: Member :: m in NormaliseEntities(fields) ==>
              exists f: EntityField :: f in fields && f.name == m.key
  {
    if fields != [] {
      NormalisedEntities(fields[1..]);
      assert fields == [fields[0]] + fields[1..];
      assert fields[0] in fields;
      var ids := Unique(fields[0].ids);
      assert ids != [] ==> ids[0] in ids;
    }
  }

  predicate DistinctNames(fields: seq<EntityField>) {
    forall i, j :: 0 <= i < j < |fields| ==> fields[i].name != fields[j].name
  }

  lemma {:induction false} NormalisedDistinct(fields: seq<EntityField>)
    requires DistinctNames(fields)
    ensures DistinctKeys(NormaliseEntities(fields))
  {
    if fields != [] {
      NormalisedDistinct(fields[1..]);
      NormalisedEntities(fields[1..]);
      forall m: Member | m in NormaliseEntities(fields[1..])
        ensures m.key != fields[0].name
      {
      }
    }
  }

  lemma {:induction false} IdsOfStrings(ms: seq<Member>, key: JsString)
    requires ArraysOfStrings(ms)
    ensures forall x :: x in IdsOf(ms, key) ==> x.Str?
  {
    if ms != [] {
      assert ms[0] in ms;
      IdsOfStrings(ms[1..], key);
    }
  }

  lemma FinalEntitiesShape(actorId: Option<JsString>, fields: seq<EntityField>)
    requires DistinctNames(fields)
    ensures ArraysOfStrings(FinalEntities(actorId, fields)) && DistinctKeys(FinalEntities(actorId, fields))
    ensures FinalEntities(actorId, fields) != [] <==> NamesSomething(actorId, fields)
  {
    var named := NormaliseEntities(fields);
    NormalisedEntities(fields);
    NormalisedDistinct(fields);
    IdsOfStrings(named, Ascii("users"));
    if actorId.Some? && actorId.value != [] {
      var users := IdsOf(named, Ascii("users"));
      var withActor := if Str(actorId.value) in users then users else users + [Str(actorId.value)];
      PutMembers(named, Ascii("users"), Arr(withActor));
      assert Member(Ascii("users"), Arr(withActor)) in FinalEntities(actorId, fields);
    }
  }

  /** The block lists the id under the name. */
  predicate Lists(ms: seq<Member>, name: JsString, id: JsString) {
    exists m: Member :: m in ms && m.key == name && m.val.Arr? && Str(id) in m.val.items
  }

  /** The caller gave the id under the name, and it is not empty. */
  predicate Given(fields: seq<EntityField>, name: JsString, id: JsString) {
    id != [] && exists f: EntityField :: f in fields && f.name == name && id in f.ids
  }

  lemma InStrings(ids: seq<JsString>, id: JsString)
    ensures Str(id) in Strings(ids) <==> id in ids
  {
    if id in ids {
      var i :| 0 <= i < |ids| && ids[i] == id;
      assert Strings(ids)[i] == Str(id);
    }
  }

  lemma {:induction false} NormalisedLists(fields: seq<EntityField>, name: JsString, id: JsString)
    ensures Lists(NormaliseEntities(fields), name, id) <==> Given(fields, name, id)
  {
    if fields != [] {
      var f, rest := fields[0], fields[1..];
      var ids := Unique(f.ids);
      NormalisedLists(rest, name, id);
      InStrings(ids, id);
      assert fields == [f] + rest;
      var m := Member(f.name, Arr(Strings(ids)));
      assert ids == [] ==> id !in ids;
      assert forall n: Member :: n in [m] + NormaliseEntities(rest) <==> n == m || n in NormaliseEntities(rest);
      assert m in [m] + NormaliseEntities(rest);
      assert f in fields;
    }
  }

  lemma {:induction false} IdsListed(ms: seq<Member>, key: JsString, id: JsString)
    requires DistinctKeys(ms)
    ensures Str(id) in IdsOf(ms, key) <==> Lists(ms, key, id)
  {
    if ms != [] {
      assert ms == [ms[0]] + ms[1..];
      assert ms[0] in ms;
      assert forall m: Member :: m in ms[1..] ==> m.key != ms[0].key;
      IdsListed(ms[1..], key, id);
    }
  }

  /**
    The entities block lists exactly the non-empty ids the caller gave, each under its own name, and the
    actor among the users.
   */
  lemma FinalEntitiesList(actorId: Option<JsString>, fields: seq<EntityField>, name: JsString, id: JsString)
    requires DistinctNames(fields)
    ensures Lists(FinalEntities(actorId, fields), name, id)
       <==> Given(fields, name, id) || (name == Ascii("users") && id != [] && actorId == Some(id))
  {
    var named := NormaliseEntities(fields);
    NormalisedDistinct(fields);
    NormalisedEntities(fields);
    NormalisedLists(fields, name, id);
    if actorId.Some? && actorId.value != [] {
      var users := IdsOf(named, Ascii("users"));
      IdsListed(named, Ascii("users"), id);
      var withActor := if Str(actorId.value) in users then users else users + [Str(actorId.value)];
      PutMembers(named, Ascii("users"), Arr(withActor));
      assert Str(id) in withActor <==> Str(id) in users || id == actorId.value;
      PutLists(named, Ascii("users"), withActor, name, id);
    }
  }

  lemma PutLists(ms: seq<Member>, key: JsString, items: seq<Js>, name: JsString, id: JsString)
    requires DistinctKeys(ms)
    ensures Lists(Put(ms, key, Arr(items)), name, id)
       <==> if name == key then Str(id) in items else Lists(ms, name, id)
  {
    PutMembers(ms, key, Arr(items));
    assert Member(key, Arr(items)) in Put(ms, key, Arr(items));
  }

  lemma BlockKept(block: seq<Member>)
    requires ArraysOfStrings(block) && DistinctKeys(block)
    ensures Proper(Obj(block)) && NothingDropped(Obj(block))
  {
  }

  /** Each id is listed once. */
  lemma {:induction false} UniqueOnce(ids: seq<JsString>, i: nat, j: nat)
    requires i < j < |Unique(ids)|
    ensures Unique(ids)[i] != Unique(ids)[j]
  {
    var before := Unique(ids[..|ids| - 1]);
    if j < |before| {
      UniqueOnce(ids[..|ids| - 1], i, j);
    }
  }

  /** First occurrences come in the order given: the ids of a front are listed in front. */
  lemma {:induction false} UniqueInOrder(ids: seq<JsString>, more: seq<JsString>)
    ensures Unique(ids) <= Unique(ids + more)
    decreases |more|
  {
    if more == [] {
      assert ids + more == ids;
    } else {
      UniqueInOrder(ids, more[..|more| - 1]);
      assert (ids + more)[..|ids + more| - 1] == ids + more[..|more| - 1];
    }
  }

  /**
    The metadata of an event: null when it names nothing and has no details; otherwise the details, with
    the entities block, or undefined when nothing is named, under `entities`.
   */
  lemma MetadataMembers(actorId: Option<JsString>, details: Option<seq<Member>>, fields: seq<EntityField>, m: Member)
    requires DistinctNames(fields) && (details.Some? ==> DistinctKeys(details.value))
    ensures var v := LogMetadata(actorId, details, fields);
            if details == None && !NamesSomething(actorId, fields) then v == Null
            else
              && v.Obj?
              && (m.key != Ascii("entities") ==> (m in v.members <==> details.Some? && m in details.value))
              && (m.key == Ascii("entities") ==>
                    (m in v.members <==>
                       m.val == if NamesSomething(actorId, fields)
                                then Obj(FinalEntities(actorId, fields)) else Undefined))
  {
    var block := FinalEntities(actorId, fields);
    FinalEntitiesShape(actorId, fields);
    PutMembers(if details.None? then [] else details.value, Ascii("entities"),
               if block == [] then Undefined else Obj(block));
  }

  /** `details` other than its own `entities` member, which `log` overwrites. */
  predicate KeptDetails(details: Option<seq<Member>>) {
    details.Some? ==> forall m: Member ::
      m in details.value && m.key != Ascii("entities") ==> !Droppable(m.val) && NothingDropped(m.val)
  }

  /**
    Storage drops nothing from the metadata that `log` builds exactly when the event names an actor
    or an entity, or carries no details at all, and the details hold nothing JSON leaves out.
   */
  lemma LogMetadataKept(actorId: Option<JsString>, details: Option<seq<Member>>, fields: seq<EntityField>)
    requires DistinctNames(fields) && (details.Some? ==> Proper(Obj(details.value)))
    ensures var v := LogMetadata(actorId, details, fields);
            && Proper(v)
            && (NothingDropped(v) <==>
                (details.None? || NamesSomething(actorId, fields)) && KeptDetails(details))
  {
    var block := FinalEntities(actorId, fields);
    FinalEntitiesShape(actorId, fields);
    if details.Some? || block != [] {
      var d := if details.None? then [] else details.value;
      var val := if block == [] then Undefined else Obj(block);
      PutMembers(d, Ascii("entities"), val);
      if block != [] {
        BlockKept(block);
      }
      assert Member(Ascii("entities"), val) in Put(d, Ascii("entities"), val);
    }
  }

  /** The event named something or carried no details, and its details are plain JSON. */
  predicate LoggedPlainly(actorId: Option<JsString>, details: Option<seq<Member>>, fields: seq<EntityField>) {
    (details.None? || NamesSomething(actorId, fields)) && KeptDetails(details)
  }

  /**
    When the integrity check is right about an untouched row that `log` wrote: when the event named
    something or carried no details, and its details are plain JSON. Otherwise neither text of the row
    is the tagged one, and it is reported exactly when their tags differ from its tag.
   */
  lemma LoggedRowVerdict(mac: JsString -> Digest, f: Fields, actorId: Option<JsString>,
                         details: Option<seq<Member>>, fields: seq<EntityField>,
                         authMethod: Option<JsString>, log: AuditRow)
    requires DistinctNames(fields) && (details.Some? ==> Proper(Obj(details.value)))
    requires f.metadata == LogMetadata(actorId, details, fields)
    requires Proper(f.userSnapshot) && NothingDropped(f.userSnapshot)
    requires ReadsBack(log, Store(mac, f, authMethod))
    ensures CanonicalText(log.fields) == CanonicalText(f) <==> LoggedPlainly(actorId, details, fields)
    ensures LoggedPlainly(actorId, details, fields) ==> Judge(mac, log) == Clean
    ensures !LoggedPlainly(actorId, details, fields) ==> ReportedByTags(mac, CanonicalText(f), log)
  {
    LogMetadataKept(actorId, details, fields);
    WrittenRowVerdict(mac, f, authMethod, log);
  }

  /** The metadata of a system event with the details `{"n": true}` and neither actor nor entities. */
  function SystemMetadata(): Js {
    LogMetadata(None, Some([Member(Ascii("n"), Bool(true))]), [])
  }

  /**
    A system event with details but neither actor nor entities: untouched, and yet its two texts both
    differ from the tagged one, so that the check reports it exactly when their tags differ from its tag.
   */
  lemma SystemEventFalselyReported(mac: JsString -> Digest, f: Fields, log: AuditRow)
    requires f.metadata == SystemMetadata() && f.userSnapshot == Null
    requires ReadsBack(log, Store(mac, f, None))
    ensures ReportedByTags(mac, CanonicalText(f), log)
  {
    var details := Some([Member(Ascii("n"), Bool(true))]);
    LoggedRowVerdict(mac, f, None, details, [], None, log);
  }

  /**
    Every such event has an untouched reading, and unless the MAC gives one of two given texts the tag
    of a third it is reported as tampered.
   */
  lemma FalseReportHappens(mac: JsString -> Digest, f: Fields) returns (log: AuditRow)
    requires f.metadata == SystemMetadata() && f.userSnapshot == Null
    ensures log.fields == f.(metadata := Obj([Member(Ascii("n"), Bool(true))]))
    ensures ReadsBack(log, Store(mac, f, None))
    ensures ReportedByTags(mac, CanonicalText(f), log)
  {
    log := AuditRow(f.(metadata := Obj([Member(Ascii("n"), Bool(true))])), None, Some(ComputeHmac(mac, f)));
    SystemRowRead();
    SystemEventFalselyReported(mac, f, log);
  }

  /** What the JSON column gives back for the system event is its details alone. */
  lemma SystemRowRead()
    ensures var kept := Obj([Member(Ascii("n"), Bool(true))]);
            Proper(kept) && Meaning(kept) == Persisted(SystemMetadata())
  {
    var n, lost := Member(Ascii("n"), Bool(true)), Member(Ascii("entities"), Undefined);
    assert |Ascii("n")| == 1 && |Ascii("entities")| == 8;
    assert [n][1..] == [] && [lost][1..] == [];
    assert Put([], lost.key, Undefined) == [lost];
    assert Put([n], lost.key, Undefined) == [n] + [lost];
    assert ([n] + [lost])[1..] == [lost] && PersistedMembers([lost]) == map[];
    assert PersistedMembers([n] + [lost]) == map[n.key := Persisted(n.val)];
  }

  // ----- The report -----

  datatype Report = Report(checked: nat, tampered: seq<JsString>, nullHmac: nat, legacyHmac: nat)

  /** The ids of the rows judged tampered, in reading order. */
  function TamperedIds(mac: JsString -> Digest, logs: seq<AuditRow>): seq<JsString> {
    if logs == [] then []
    else
      var last := logs[|logs| - 1];
      TamperedIds(mac, logs[..|logs| - 1]) + if Judge(mac, last) == Tampered then [last.fields.id] else []
  }

  function CountOf(mac: JsString -> Digest, logs: seq<AuditRow>, v: Verdict): nat {
    if logs == [] then 0
    else CountOf(mac, logs[..|logs| - 1], v) + if Judge(mac, logs[|logs| - 1]) == v then 1 else 0
  }

  method VerifyIntegrity(mac: JsString -> Digest, logs: seq<AuditRow>) returns (r: Report)
    ensures r.checked == |logs|
    ensures r.tampered == TamperedIds(mac, logs)
    ensures r.nullHmac == CountOf(mac, logs, NullHmac)
    ensures r.legacyHmac == CountOf(mac, logs, Legacy)
    ensures CountOf(mac, logs, Clean) + r.nullHmac + r.legacyHmac + |r.tampered| == r.checked
  {
    var tampered: seq<JsString> := [];
    var nullHmac, legacyHmac := 0, 0;
    for i := 0 to |logs|
      invariant tampered == TamperedIds(mac, logs[..i])
      invariant nullHmac == CountOf(mac, logs[..i], NullHmac)
      invariant legacyHmac == CountOf(mac, logs[..i], Legacy)
      invariant CountOf(mac, logs[..i], Clean) + nullHmac + legacyHmac + |tampered| == i
    {
      var log := logs[i];
      assert logs[..i + 1][..i] == logs[..i];
      if log.hmac.None? || log.hmac.value == [] {
        nullHmac := nullHmac + 1;
        continue;
      }
      var expectedCanonical := ComputeHmac(mac, log.fields);
      if expectedCanonical == log.hmac.value { continue; }
      var expectedLegacy := ComputeLegacyHmac(mac, log.fields);
      if expectedLegacy == log.hmac.value {
        legacyHmac := legacyHmac + 1;
        continue;
      }
      tampered := tampered + [log.fields.id];
    }
    assert logs[..|logs|] == logs;
    r := Report(|logs|, tampered, nullHmac, legacyHmac);
  }

  /** The places of the rows judged so. */
  function RowsJudged(mac: JsString -> Digest, logs: seq<AuditRow>, v: Verdict): set<nat> {
    set i: nat | i < |logs| && Judge(mac, logs[i]) == v
  }

  lemma FrontRowsJudged(mac: JsString -> Digest, front: seq<AuditRow>, last: AuditRow, v: Verdict)
    ensures RowsJudged(mac, front + [last], v)
         == RowsJudged(mac, front, v) + if Judge(mac, last) == v then {|front|} else {}
  {
    hide Judge;
    forall i: nat | i < |front|
      ensures (front + [last])[i] == front[i]
    {
    }
  }

  lemma LastRowJudged(mac: JsString -> Digest, logs: seq<AuditRow>, v: Verdict)
    requires logs != []
    ensures |RowsJudged(mac, logs, v)| == |RowsJudged(mac, logs[..|logs| - 1], v)|
                                          + if Judge(mac, logs[|logs| - 1]) == v then 1 else 0
  {
    hide Judge;
    var front, last := logs[..|logs| - 1], logs[|logs| - 1];
    assert logs == front + [last];
    FrontRowsJudged(mac, front, last, v);
    assert |front| !in RowsJudged(mac, front, v);
  }

  /** A count is the number of rows judged so. */
  lemma {:induction false} CountsAreRows(mac: JsString -> Digest, logs: seq<AuditRow>, v: Verdict)
    ensures CountOf(mac, logs, v) == |RowsJudged(mac, logs, v)|
  {
    hide Judge;
    if logs == [] {
      assert RowsJudged(mac, logs, v) == {};
    } else {
      hide RowsJudged;
      CountsAreRows(mac, logs[..|logs| - 1], v);
      LastRowJudged(mac, logs, v);
    }
  }

  /** One id is returned for each row judged tampered. */
  lemma {:induction false} OneIdPerRow(mac: JsString -> Digest, logs: seq<AuditRow>)
    ensures |TamperedIds(mac, logs)| == |RowsJudged(mac, logs, Tampered)|
  {
    hide Judge;
    if logs == [] {
      assert RowsJudged(mac, logs, Tampered) == {};
    } else {
      hide RowsJudged;
      OneIdPerRow(mac, logs[..|logs| - 1]);
      LastRowJudged(mac, logs, Tampered);
    }
  }

  lemma {:induction false} TamperedIdsExactly(mac: JsString -> Digest, logs: seq<AuditRow>, id: JsString)
    ensures id in TamperedIds(mac, logs)
       <==> exists log: AuditRow :: log in logs && log.fields.id == id && Judge(mac, log) == Tampered
  {
    if logs != [] {
      var front, last := logs[..|logs| - 1], logs[|logs| - 1];
      TamperedIdsExactly(mac, front, id);
      assert logs == front + [last];
    }
  }

  /** A row the service may have written: storage drops nothing from its JSON columns. */
  ghost predicate WrittenPlainly(mac: JsString -> Digest, row: StoredRow) {
    exists f, authMethod ::
      ProperFields(f) && NothingDropped(f.metadata) && NothingDropped(f.userSnapshot)
      && row == Store(mac, f, authMethod)
  }

  /** An untouched table of plainly written rows is never reported, in whatever order it is read. */
  lemma {:induction false} UntouchedTableIsClean(mac: JsString -> Digest, table: seq<StoredRow>, logs: seq<AuditRow>)
    requires forall row :: row in table ==> WrittenPlainly(mac, row)
    requires forall log :: log in logs ==> exists row :: row in table && ReadsBack(log, row)
    ensures TamperedIds(mac, logs) == []
    ensures forall log :: log in logs ==> Judge(mac, log) == Clean
  {
    forall log | log in logs
      ensures Judge(mac, log) == Clean
    {
      var row :| row in table && ReadsBack(log, row);
      var f, authMethod :| ProperFields(f) && NothingDropped(f.metadata) && NothingDropped(f.userSnapshot)
                           && row == Store(mac, f, authMethod);
      WrittenRowVerdict(mac, f, authMethod, log);
    }
    if TamperedIds(mac, logs) != [] {
      var id := TamperedIds(mac, logs)[0];
      TamperedIdsExactly(mac, logs, id);
      assert false;
    }
  }
}
