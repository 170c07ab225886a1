/**
  The tamper-evident audit log: how a row's tag is computed, what the database does to the row,
  and what `verifyIntegrity` reports. The MAC is a parameter; where a result needs it to be free of
  collisions, the result offers a collision instead.
 */
module AuditLog {
  import opened Common
  import opened JsText
  import opened CanonicalJson
  import opened CanonicalJsonProofs

  type Digest = d: JsString | d != [] witness [0]

  function Ascii(s: string): (r: JsString)
    ensures |r| == |s|
  {
    seq(|s|, i requires 0 <= i < |s| => s[i] as int)
  }

  // ----- What JSON storage keeps -----

  /** `JSON.stringify` leaves out an object member with such a value. */
  predicate Droppable(v: Js) {
    v.Undefined? || v.Unserializable?
  }

  /** The JSON value the database holds after `v` was written to a JSONB column. */
  function Persisted(v: Js): Json
    decreases v, 1
  {
    match v
    case Arr(items) => JArr(PersistedItems(items))
    case Obj(ms) => JObj(PersistedMembers(ms))
    case _ => Meaning(v)
  }

  function PersistedItems(items: seq<Js>): seq<Json>
    decreases items, 0
  {
    if items == [] then [] else [Persisted(items[0])] + PersistedItems(items[1..])
  }

  function PersistedMembers(ms: seq<Member>): map<JsString, Json>
    decreases ms, 0
  {
    if ms == [] then map[]
    else if Droppable(ms[0].val) then PersistedMembers(ms[1..])
    else PersistedMembers(ms[1..])[ms[0].key := Persisted(ms[0].val)]
  }

  /** No object inside `v` has a member that storage leaves out. */
  predicate NothingDropped(v: Js) {
    match v
    case Arr(items) => forall x :: x in items ==> NothingDropped(x)
    case Obj(ms) => forall m: Member :: m in ms ==> !Droppable(m.val) && NothingDropped(m.val)
    case _ => true
  }

  lemma {:induction false} PersistedKeys(ms: seq<Member>, k: JsString)
    ensures k in PersistedMembers(ms) <==> exists m: Member :: m in ms && m.key == k && !Droppable(m.val)
  {
    if ms != [] {
      PersistedKeys(ms[1..], k);
      assert ms == [ms[0]] + ms[1..];
    }
  }

  /** Storage keeps the meaning of a value exactly when it drops nothing from it. */
  lemma {:induction false} StorageKeepsMeaning(v: Js)
    requires Proper(v)
    ensures Persisted(v) == Meaning(v) <==> NothingDropped(v)
    decreases v, 1
  {
    match v
    case Arr(items) => ItemsKeepMeaning(items);
    case Obj(ms) => MembersKeepMeaning(ms);
    case _ =>
  }

  lemma {:induction false} ItemsKeepMeaning(items: seq<Js>)
    requires forall x :: x in items ==> Proper(x)
    ensures PersistedItems(items) == MeaningItems(items) <==> forall x :: x in items ==> NothingDropped(x)
    decreases items, 0
  {
    if items != [] {
      hide NothingDropped, Persisted, Meaning, Proper;
      assert items[0] in items;
      StorageKeepsMeaning(items[0]);
      ItemsKeepMeaning(items[1..]);
      SameFirst(Persisted(items[0]), PersistedItems(items[1..]), Meaning(items[0]), MeaningItems(items[1..]));
      assert items == [items[0]] + items[1..];
    }
  }

  lemma SameFirst<T>(a: T, s: seq<T>, b: T, t: seq<T>)
    ensures [a] + s == [b] + t <==> a == b && s == t
  {
    assert ([a] + s)[1..] == s && ([b] + t)[1..] == t;
    assert ([a] + s)[0] == a && ([b] + t)[0] == b;
  }

  lemma {:induction false} MembersKeepMeaning(ms: seq<Member>)
    requires Proper(Obj(ms))
    ensures PersistedMembers(ms) == MeaningMembers(ms) <==> NothingDropped(Obj(ms))
    decreases ms, 0
  {
    if ms != [] {
      hide NothingDropped, Persisted, Meaning, Droppable;
      var m := ms[0];
      assert m in ms;
      NothingDroppedSplits(ms);
      StorageKeepsMeaning(m.val);
      MembersKeepMeaning(ms[1..]);
      FirstKeyIsNew(ms);
      PersistedKeys(ms[1..], m.key);
      MeaningKeys(ms[1..], m.key);
      var p, q := PersistedMembers(ms[1..]), MeaningMembers(ms[1..]);
      SameUpdate(p, q, m.key, Persisted(m.val), Meaning(m.val));
    } else {
      assert PersistedMembers(ms) == MeaningMembers(ms);
    }
  }

  lemma NothingDroppedSplits(ms: seq<Member>)
    requires ms != []
    ensures NothingDropped(Obj(ms))
       <==> !Droppable(ms[0].val) && NothingDropped(ms[0].val) && NothingDropped(Obj(ms[1..]))
  {
    assert ms == [ms[0]] + ms[1..];
  }

  lemma SameUpdate(p: map<JsString, Json>, q: map<JsString, Json>, k: JsString, a: Json, b: Json)
    requires k !in p && k !in q
    ensures p[k := a] == q[k := b] <==> p == q && a == b
    ensures p != q[k := b]
  {
    if p[k := a] == q[k := b] {
      assert p[k := a][k] == q[k := b][k];
      assert p == p[k := a] - {k} && q == q[k := b] - {k};
    }
    assert k in q[k := b];
  }

  // ----- Plain JSON.stringify (the legacy algorithm) -----

  function PlainStringify(v: Js): JsString
    decreases v, 1
  {
    match v
    case Arr(items) => [OPEN_ARRAY] + PlainItems(items) + [CLOSE_ARRAY]
    case Obj(ms) => [OPEN_OBJECT] + JoinEntries(PlainEntries(ms)) + [CLOSE_OBJECT]
    case _ => CanonicalStringify(v)
  }

  function PlainItems(items: seq<Js>): JsString
    decreases items, 0
  {
    if items == [] then []
    else if |items| == 1 then PlainStringify(items[0])
    else PlainStringify(items[0]) + [COMMA] + PlainItems(items[1..])
  }

  /** The serializable members with their texts, in enumeration order. */
  function PlainEntries(ms: seq<Member>): seq<Entry>
    decreases ms, 0
  {
    if ms == [] then []
    else if Droppable(ms[0].val) then PlainEntries(ms[1..])
    else [Entry(ms[0].key, PlainStringify(ms[0].val))] + PlainEntries(ms[1..])
  }

  // ----- The legacy text reads back as what storage keeps -----

  lemma {:induction false} PlainReads(v: Js)
    requires Proper(v)
    ensures ReadsAs(PlainStringify(v), Persisted(v))
    decreases v, 2
  {
    match v
    case Arr(items) => PlainArrayReads(items);
    case Obj(ms) => PlainObjectReads(ms);
    case _ => CanonicalReads(v);
  }

  lemma {:induction false} PlainItemsRead(items: seq<Js>, tail: JsString)
    requires items != [] && forall x :: x in items ==> Proper(x)
    ensures ReadItems(PlainItems(items) + ([CLOSE_ARRAY] + tail)) == Done(PersistedItems(items), tail)
    decreases items, 0
  {
    hide PlainStringify, Persisted, ReadsAs, ReadItems;
    assert items[0] in items;
    PlainReads(items[0]);
    var first := PlainStringify(items[0]);
    if |items| == 1 {
      OneItemReads(first, Persisted(items[0]), tail);
      assert PersistedItems(items) == [Persisted(items[0])];
    } else {
      PlainItemsRead(items[1..], tail);
      var t := [CLOSE_ARRAY] + tail;
      Regroup(first, [COMMA], PlainItems(items[1..]), t);
      MoreItemsRead(first, Persisted(items[0]), PlainItems(items[1..]) + t);
    }
  }

  lemma {:induction false} PlainArrayReads(items: seq<Js>)
    requires forall x :: x in items ==> Proper(x)
    ensures ReadsAs(PlainStringify(Arr(items)), Persisted(Arr(items)))
    decreases items, 1
  {
    forall tail | Ends(tail)
      ensures ReadValue(PlainStringify(Arr(items)) + tail) == Done(JArr(PersistedItems(items)), tail)
    {
      var body := PlainItems(items) + ([CLOSE_ARRAY] + tail);
      Regroup([OPEN_ARRAY], PlainItems(items), [CLOSE_ARRAY], tail);
      if items == [] {
        EmptyReads(OPEN_ARRAY, CLOSE_ARRAY, tail);
      } else {
        PlainItemsRead(items, tail);
        ReadableStart(body);
        AfterFirst(OPEN_ARRAY, body);
      }
    }
  }

  lemma {:induction false} PlainMembersRead(ms: seq<Member>, tail: JsString)
    requires (forall m: Member :: m in ms ==> Proper(m.val)) && PlainEntries(ms) != []
    ensures ReadMembers(JoinEntries(PlainEntries(ms)) + ([CLOSE_OBJECT] + tail)) == Done(PersistedMembers(ms), tail)
    decreases ms, 0
  {
    hide PlainStringify, Persisted, ReadsAs, ReadMembers, Droppable;
    var m, rest := ms[0], ms[1..];
    assert m in ms;
    if Droppable(m.val) {
      PlainMembersRead(rest, tail);
    } else {
      PlainReads(m.val);
      var e := Entry(m.key, PlainStringify(m.val));
      if PlainEntries(rest) == [] {
        NothingPersisted(rest);
        OneMemberReads(e, Persisted(m.val), tail);
      } else {
        PlainMembersRead(rest, tail);
        var t := [CLOSE_OBJECT] + tail;
        assert PlainEntries(ms)[1..] == PlainEntries(rest);
        Regroup(EntryText(e), [COMMA], JoinEntries(PlainEntries(rest)), t);
        MoreMembersRead(e, Persisted(m.val), JoinEntries(PlainEntries(rest)) + t);
      }
    }
  }

  lemma {:induction false} NothingPersisted(ms: seq<Member>)
    ensures PlainEntries(ms) == [] <==> PersistedMembers(ms) == map[]
  {
    if ms != [] {
      NothingPersisted(ms[1..]);
      if !Droppable(ms[0].val) {
        assert ms[0].key in PersistedMembers(ms);
      }
    }
  }

  lemma {:induction false} PlainObjectReads(ms: seq<Member>)
    requires forall m: Member :: m in ms ==> Proper(m.val)
    ensures ReadsAs(PlainStringify(Obj(ms)), Persisted(Obj(ms)))
    decreases ms, 1
  {
    var es := PlainEntries(ms);
    forall tail | Ends(tail)
      ensures ReadValue(PlainStringify(Obj(ms)) + tail) == Done(JObj(PersistedMembers(ms)), tail)
    {
      var body := JoinEntries(es) + ([CLOSE_OBJECT] + tail);
      Regroup([OPEN_OBJECT], JoinEntries(es), [CLOSE_OBJECT], tail);
      if es == [] {
        EmptyReads(OPEN_OBJECT, CLOSE_OBJECT, tail);
        NothingPersisted(ms);
      } else {
        PlainMembersRead(ms, tail);
        AfterFirst(OPEN_OBJECT, body);
      }
    }
  }

  /** Values with the same legacy text are stored as the same value. */
  lemma SamePlainText(v: Js, w: Js)
    requires Proper(v) && Proper(w) && PlainStringify(v) == PlainStringify(w)
    ensures Persisted(v) == Persisted(w)
  {
    PlainReads(v);
    PlainReads(w);
    assert Ends([]);
    assert ReadValue(PlainStringify(v) + []) == Done(Persisted(v), []);
    assert ReadValue(PlainStringify(w) + []) == Done(Persisted(w), []);
  }

  lemma {:induction false} PlainEntriesInOrder(a: seq<Member>, b: seq<Member>)
    ensures PlainEntries(a + b) == PlainEntries(a) + PlainEntries(b)
  {
    if a == [] {
      assert a + b == b;
    } else {
      HeadTail(a, b);
      PlainEntriesInOrder(a[1..], b);
      if !Droppable(a[0].val) {
        Associative([Entry(a[0].key, PlainStringify(a[0].val))], PlainEntries(a[1..]), PlainEntries(b));
      }
    }
  }

  lemma {:induction false} PersistedOfMember(ms: seq<Member>, m: Member)
    requires DistinctKeys(ms) && m in ms
    ensures m.key in PersistedMembers(ms) <==> !Droppable(m.val)
    ensures !Droppable(m.val) ==> PersistedMembers(ms)[m.key] == Persisted(m.val)
  {
    PersistedKeys(ms[1..], m.key);
    if m == ms[0] {
      FirstKeyIsNew(ms);
    } else {
      PersistedOfMember(ms[1..], m);
    }
  }

  // ----- Rows -----

  /** The fields of a row that its tag covers, as the service holds them in memory. */
  datatype Fields = Fields(
    id: JsString, action: JsString, userId: Option<JsString>, timestamp: JsString,
    category: Option<JsString>, ipAddress: Option<JsString>, metadata: Js, userSnapshot: Js)

  /** A row as `findMany` returns it. The authentication method is not covered by the tag. */
  datatype AuditRow = AuditRow(fields: Fields, authMethod: Option<JsString>, hmac: Option<JsString>)

  /** A row in the database: JSON columns hold values without key order. */
  datatype StoredRow = StoredRow(
    id: JsString, action: JsString, userId: Option<JsString>, timestamp: JsString,
    category: Option<JsString>, ipAddress: Option<JsString>, metadata: Json, userSnapshot: Json,
    authMethod: Option<JsString>, hmac: Option<JsString>)

  function OrNull(s: Option<JsString>): Js {
    if s.None? then Null else Str(s.value)
  }

  function MissingToNull(v: Js): Js {
    if v.Undefined? then Null else v
  }

  /** The object that both tag algorithms print. */
  function PayloadMembers(f: Fields): seq<Member> {
    [Member(Ascii("id"), Str(f.id)),
     Member(Ascii("action"), Str(f.action)),
     Member(Ascii("userId"), OrNull(f.userId)),
     Member(Ascii("timestamp"), Str(f.timestamp)),
     Member(Ascii("category"), OrNull(f.category)),
     Member(Ascii("ipAddress"), OrNull(f.ipAddress)),
     Member(Ascii("metadata"), MissingToNull(f.metadata)),
     Member(Ascii("userSnapshot"), MissingToNull(f.userSnapshot))]
  }

  function CanonicalText(f: Fields): JsString {
    CanonicalStringify(Obj(PayloadMembers(f)))
  }

  function PlainText(f: Fields): JsString {
    PlainStringify(Obj(PayloadMembers(f)))
  }

  function ComputeHmac(mac: JsString -> Digest, f: Fields): Digest {
    mac(CanonicalText(f))
  }

  function ComputeLegacyHmac(mac: JsString -> Digest, f: Fields): Digest {
    mac(PlainText(f))
  }

  predicate ProperFields(f: Fields) {
    Proper(f.metadata) && Proper(f.userSnapshot)
  }

  /** Same covered content: equal scalars, and JSON columns equal up to key order. */
  predicate SameContent(f: Fields, g: Fields) {
    && f.id == g.id && f.action == g.action && f.userId == g.userId && f.timestamp == g.timestamp
    && f.category == g.category && f.ipAddress == g.ipAddress
    && Meaning(f.metadata) == Meaning(g.metadata)
    && Meaning(f.userSnapshot) == Meaning(g.userSnapshot)
  }

  /** The row that `createRow` inserts. */
  function Store(mac: JsString -> Digest, f: Fields, authMethod: Option<JsString>): StoredRow {
    StoredRow(f.id, f.action, f.userId, f.timestamp, f.category, f.ipAddress,
              Persisted(f.metadata), Persisted(f.userSnapshot), authMethod, Some(ComputeHmac(mac, f)))
  }

  /** `log` is a reading of `row`: the JSON columns may come back with their keys in any order. */
  predicate ReadsBack(log: AuditRow, row: StoredRow) {
    var g := log.fields;
    && ProperFields(g)
    && g.id == row.id && g.action == row.action && g.userId == row.userId && g.timestamp == row.timestamp
    && g.category == row.category && g.ipAddress == row.ipAddress
    && Meaning(g.metadata) == row.metadata && Meaning(g.userSnapshot) == row.userSnapshot
    && log.authMethod == row.authMethod && log.hmac == row.hmac
  }

  // ----- Payloads -----

  lemma PayloadKeysDistinct(f: Fields)
    ensures DistinctKeys(PayloadMembers(f))
  {
    var ms := PayloadMembers(f);
    assert ms[0].key[0] == 'i' as int && ms[1].key[0] == 'a' as int && ms[2].key[0] == 'u' as int
      && ms[3].key[0] == 't' as int && ms[4].key[0] == 'c' as int && ms[5].key[0] == 'i' as int
      && ms[6].key[0] == 'm' as int && ms[7].key[0] == 'u' as int;
    assert |ms[0].key| == 2 && |ms[2].key| == 6 && |ms[5].key| == 9 && |ms[7].key| == 12;
  }

  lemma PayloadProper(f: Fields)
    requires ProperFields(f)
    ensures Proper(Obj(PayloadMembers(f)))
  {
    PayloadKeysDistinct(f);
  }

  lemma {:induction false} CongruentMembers(ms: seq<Member>, ns: seq<Member>)
    requires |ms| == |ns|
    requires forall i :: 0 <= i < |ms| ==> ms[i].key == ns[i].key && Meaning(ms[i].val) == Meaning(ns[i].val)
    ensures MeaningMembers(ms) == MeaningMembers(ns)
  {
    if ms != [] {
      CongruentMembers(ms[1..], ns[1..]);
    }
  }

  lemma MeaningAt(f: Fields, g: Fields, i: nat)
    requires i < 8 && MeaningMembers(PayloadMembers(f)) == MeaningMembers(PayloadMembers(g))
    ensures Meaning(PayloadMembers(f)[i].val) == Meaning(PayloadMembers(g)[i].val)
  {
    PayloadKeysDistinct(f);
    PayloadKeysDistinct(g);
    MeaningOfMember(PayloadMembers(f), PayloadMembers(f)[i]);
    MeaningOfMember(PayloadMembers(g), PayloadMembers(g)[i]);
  }

  lemma SameContentSameMeaning(f: Fields, g: Fields)
    requires SameContent(f, g)
    ensures MeaningMembers(PayloadMembers(f)) == MeaningMembers(PayloadMembers(g))
  {
    CongruentMembers(PayloadMembers(f), PayloadMembers(g));
  }

  lemma SameMeaningSameContent(f: Fields, g: Fields)
    requires MeaningMembers(PayloadMembers(f)) == MeaningMembers(PayloadMembers(g))
    ensures SameContent(f, g)
  {
    forall i | 0 <= i < 8
      ensures Meaning(PayloadMembers(f)[i].val) == Meaning(PayloadMembers(g)[i].val)
    {
      MeaningAt(f, g, i);
    }
    ScalarMeanings(f, g);
  }

  lemma ScalarMeanings(f: Fields, g: Fields)
    requires forall i :: 0 <= i < 8 ==>
               Meaning(PayloadMembers(f)[i].val) == Meaning(PayloadMembers(g)[i].val)
    ensures SameContent(f, g)
  {
    var ms, ns := PayloadMembers(f), PayloadMembers(g);
    assert Meaning(ms[0].val) == Meaning(ns[0].val) && Meaning(ms[1].val) == Meaning(ns[1].val);
    assert Meaning(ms[2].val) == Meaning(ns[2].val) && Meaning(ms[3].val) == Meaning(ns[3].val);
    assert Meaning(ms[4].val) == Meaning(ns[4].val) && Meaning(ms[5].val) == Meaning(ns[5].val);
    assert Meaning(ms[6].val) == Meaning(ns[6].val) && Meaning(ms[7].val) == Meaning(ns[7].val);
  }

  /** What the database keeps of a covered JSON column. */
  function Kept(v: Js): Json {
    Persisted(MissingToNull(v))
  }

  lemma KeptAt(f: Fields, g: Fields, i: nat)
    requires i < 8 && PersistedMembers(PayloadMembers(f)) == PersistedMembers(PayloadMembers(g))
    ensures Persisted(PayloadMembers(f)[i].val) == Persisted(PayloadMembers(g)[i].val)
  {
    hide PayloadMembers, Persisted, PersistedMembers;
    PayloadKeys(f, g, i);
    PersistedOfMember(PayloadMembers(f), PayloadMembers(f)[i]);
    PersistedOfMember(PayloadMembers(g), PayloadMembers(g)[i]);
    BothDropped(PayloadMembers(f)[i].val, PayloadMembers(g)[i].val);
  }

  lemma BothDropped(v: Js, w: Js)
    ensures Droppable(v) && Droppable(w) ==> Persisted(v) == Persisted(w)
  {
  }

  lemma PayloadKeys(f: Fields, g: Fields, i: nat)
    requires i < 8
    ensures |PayloadMembers(f)| == |PayloadMembers(g)| == 8
    ensures DistinctKeys(PayloadMembers(f)) && DistinctKeys(PayloadMembers(g))
    ensures PayloadMembers(f)[i] in PayloadMembers(f) && PayloadMembers(g)[i] in PayloadMembers(g)
    ensures PayloadMembers(f)[i].key == PayloadMembers(g)[i].key
  {
    PayloadKeysDistinct(f);
    PayloadKeysDistinct(g);
  }

  /** The rows keep the same: equal scalars, and the same JSON of their columns. */
  predicate SameKept(f: Fields, g: Fields) {
    && f.id == g.id && f.action == g.action && f.userId == g.userId && f.timestamp == g.timestamp
    && f.category == g.category && f.ipAddress == g.ipAddress
    && Kept(f.metadata) == Kept(g.metadata) && Kept(f.userSnapshot) == Kept(g.userSnapshot)
  }

  lemma ScalarsKept(f: Fields, g: Fields)
    requires forall i :: 0 <= i < 8 ==> Persisted(PayloadMembers(f)[i].val) == Persisted(PayloadMembers(g)[i].val)
    ensures SameKept(f, g)
  {
    var ms, ns := PayloadMembers(f), PayloadMembers(g);
    assert Persisted(ms[0].val) == Persisted(ns[0].val) && Persisted(ms[1].val) == Persisted(ns[1].val);
    assert Persisted(ms[2].val) == Persisted(ns[2].val) && Persisted(ms[3].val) == Persisted(ns[3].val);
    assert Persisted(ms[4].val) == Persisted(ns[4].val) && Persisted(ms[5].val) == Persisted(ns[5].val);
    assert Persisted(ms[6].val) == Persisted(ns[6].val) && Persisted(ms[7].val) == Persisted(ns[7].val);
  }

  lemma PayloadLength(f: Fields)
    ensures |PayloadMembers(f)| == 8
  {
  }

  /** Rows with the same legacy text have the same scalars, and the same JSON is kept of their columns. */
  lemma LegacyTextIsContent(f: Fields, g: Fields)
    requires ProperFields(f) && ProperFields(g) && PlainText(f) == PlainText(g)
    ensures SameKept(f, g)
  {
    PayloadProper(f);
    PayloadProper(g);
    SamePlainText(Obj(PayloadMembers(f)), Obj(PayloadMembers(g)));
    KeptOfSame(f, g);
  }

  lemma KeptOfSame(f: Fields, g: Fields)
    requires Persisted(Obj(PayloadMembers(f))) == Persisted(Obj(PayloadMembers(g)))
    ensures SameKept(f, g)
  {
    assert PersistedMembers(PayloadMembers(f)) == PersistedMembers(PayloadMembers(g));
    hide *;
    PayloadLength(f);
    PayloadLength(g);
    forall i | 0 <= i < 8
      ensures Persisted(PayloadMembers(f)[i].val) == Persisted(PayloadMembers(g)[i].val)
    {
      KeptAt(f, g, i);
    }
    ScalarsKept(f, g);
  }

  /** A missing JSON column is covered as null, by both algorithms. */
  lemma MissingIsNull(f: Fields)
    ensures PlainText(f.(metadata := Undefined)) == PlainText(f.(metadata := Null))
    ensures CanonicalText(f.(metadata := Undefined)) == CanonicalText(f.(metadata := Null))
    ensures PlainText(f.(userSnapshot := Undefined)) == PlainText(f.(userSnapshot := Null))
    ensures CanonicalText(f.(userSnapshot := Undefined)) == CanonicalText(f.(userSnapshot := Null))
  {
  }

  /** The canonical payloads of two rows coincide exactly when their covered content does. */
  lemma CanonicalPayload(f: Fields, g: Fields)
    requires ProperFields(f) && ProperFields(g)
    ensures CanonicalText(f) == CanonicalText(g) <==> SameContent(f, g)
  {
    PayloadProper(f);
    PayloadProper(g);
    CanonicalTextIsMeaning(Obj(PayloadMembers(f)), Obj(PayloadMembers(g)));
    var ms, ns := PayloadMembers(f), PayloadMembers(g);
    if MeaningMembers(ms) == MeaningMembers(ns) {
      SameMeaningSameContent(f, g);
    } else if SameContent(f, g) {
      SameContentSameMeaning(f, g);
    }
  }

  // ----- The two algorithms never produce the same text -----

  lemma EntriesStart(es: seq<Entry>, c: CodeUnit)
    requires es != [] && es[0].key != [] && es[0].key[0] == c && 'a' as int <= c <= 'z' as int
    ensures var s := [OPEN_OBJECT] + JoinEntries(es) + [CLOSE_OBJECT];
            |s| > 2 && s[2] == c
  {
    assert Escaped(es[0].key)[0] == c;
    assert EntryText(es[0])[1] == c;
  }

  lemma PlainPayloadStart(f: Fields)
    ensures var s := PlainText(f);
            |s| > 2 && s[2] == 'i' as int
  {
    EntriesStart(PlainEntries(PayloadMembers(f)), 'i' as int);
  }

  /** The first letters of the payload's keys: `action` comes before every other key. */
  lemma PayloadLetters(f: Fields, m: Member)
    requires m in PayloadMembers(f)
    ensures m.key != [] && 'a' as int <= m.key[0] <= 'z' as int
    ensures m == PayloadMembers(f)[1] || m.key[0] > 'a' as int
  {
    var ms := PayloadMembers(f);
    assert ms[0].key[0] == 'i' as int && ms[1].key[0] == 'a' as int && ms[2].key[0] == 'u' as int
      && ms[3].key[0] == 't' as int && ms[4].key[0] == 'c' as int && ms[5].key[0] == 'i' as int
      && ms[6].key[0] == 'm' as int && ms[7].key[0] == 'u' as int;
  }

  lemma SortedHead(es: seq<Entry>, e: Entry)
    requires Sorted(es) && e in es
    ensures es[0] == e || Less(es[0].key, e.key)
  {
    if es[0] != e {
      assert e in es[1..];
    }
  }

  lemma CanonicalPayloadStart(f: Fields)
    requires ProperFields(f)
    ensures var s := CanonicalText(f);
            |s| > 2 && s[2] == 'a' as int
  {
    var ms := PayloadMembers(f);
    var es := SortedEntries(ms);
    var action := ms[1];
    PayloadProper(f);
    MembersDescribed(ms);
    EntryOf(ms, action);
    SortedHead(es, Entry(action.key, CanonicalStringify(action.val)));
    assert es[0] in es;
    var m := MemberOf(ms, es[0]);
    PayloadLetters(f, m);
    PayloadLetters(f, action);
    assert action.key[0] == 'a' as int;
    EntriesStart(es, 'a' as int);
  }

  lemma AlgorithmsDiffer(f: Fields, g: Fields)
    requires ProperFields(f)
    ensures CanonicalText(f) != PlainText(g)
  {
    CanonicalPayloadStart(f);
    PlainPayloadStart(g);
  }

  // ----- Verification of one row -----

  datatype Verdict = NullHmac | Clean | Legacy | Tampered

  function Judge(mac: JsString -> Digest, log: AuditRow): Verdict {
    if log.hmac.None? || log.hmac.value == [] then NullHmac
    else if ComputeHmac(mac, log.fields) == log.hmac.value then Clean
    else if ComputeLegacyHmac(mac, log.fields) == log.hmac.value then Legacy
    else Tampered
  }

  /**
    The check reports the row, unless the MAC gives the tagged text the tag of one of the two texts of
    the row, both of which differ from it.
   */
  predicate ReportedByTags(mac: JsString -> Digest, tagged: JsString, log: AuditRow) {
    && CanonicalText(log.fields) != tagged
    && PlainText(log.fields) != tagged
    && (Judge(mac, log) == Tampered <==>
          mac(CanonicalText(log.fields)) != mac(tagged) && mac(PlainText(log.fields)) != mac(tagged))
  }

  /**
    A row tagged by the current algorithm is clean while its covered content is what was tagged,
    whatever the key order. Any other content gives two texts that both differ from the tagged one, and
    the row is reported exactly when their tags differ from its tag too.
   */
  lemma TaggedRowVerdict(mac: JsString -> Digest, f: Fields, log: AuditRow)
    requires ProperFields(f) && ProperFields(log.fields) && log.hmac == Some(ComputeHmac(mac, f))
    ensures CanonicalText(log.fields) == CanonicalText(f) <==> SameContent(f, log.fields)
    ensures SameContent(f, log.fields) ==> Judge(mac, log) == Clean
    ensures !SameContent(f, log.fields) ==> ReportedByTags(mac, CanonicalText(f), log)
  {
    CanonicalPayload(f, log.fields);
    AlgorithmsDiffer(f, log.fields);
  }

  /**
    A row tagged before the upgrade is accepted while its plain text is reproduced, which includes the
    key order. With any other plain text both texts differ from the tagged one, and the row is reported
    exactly when their tags differ from its tag too.
   */
  lemma LegacyRowVerdict(mac: JsString -> Digest, f: Fields, log: AuditRow)
    requires ProperFields(log.fields) && log.hmac == Some(ComputeLegacyHmac(mac, f))
    ensures CanonicalText(log.fields) != PlainText(f)
    ensures PlainText(log.fields) == PlainText(f) ==>
              Judge(mac, log) == if mac(CanonicalText(log.fields)) == mac(PlainText(f)) then Clean else Legacy
    ensures PlainText(log.fields) != PlainText(f) ==> ReportedByTags(mac, PlainText(f), log)
  {
    AlgorithmsDiffer(log.fields, f);
  }

  /**
    A row written by `createRow` and read back untouched is clean if storage drops nothing from its
    JSON columns. If storage drops something, neither text of the row is the tagged one, and the row is
    falsely reported exactly when their tags differ from its tag.
   */
  lemma WrittenRowVerdict(mac: JsString -> Digest, f: Fields, authMethod: Option<JsString>, log: AuditRow)
    requires ProperFields(f) && ReadsBack(log, Store(mac, f, authMethod))
    ensures CanonicalText(log.fields) == CanonicalText(f)
       <==> NothingDropped(f.metadata) && NothingDropped(f.userSnapshot)
    ensures NothingDropped(f.metadata) && NothingDropped(f.userSnapshot) ==> Judge(mac, log) == Clean
    ensures !(NothingDropped(f.metadata) && NothingDropped(f.userSnapshot)) ==>
              ReportedByTags(mac, CanonicalText(f), log)
  {
    StorageKeepsMeaning(f.metadata);
    StorageKeepsMeaning(f.userSnapshot);
    TaggedRowVerdict(mac, f, log);
  }
}
