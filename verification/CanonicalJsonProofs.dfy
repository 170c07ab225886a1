/**
  The canonical text of a value determines its meaning, and the meaning determines the text:
  two values print alike exactly when they are equal up to the order of object keys.
 */
module CanonicalJsonProofs {
  import opened Common
  import opened JsText
  import opened CanonicalJson

  // ----- Strings are self-delimiting -----

  lemma HexRoundTrip(d: int)
    requires 0 <= d < 16
    ensures HexValue(HexDigit(d)) == d
  {
  }

  lemma HexDigitsOf(c: CodeUnit)
    requires 0 <= c < 0x1_0000
    ensures ((c / 4096 * 16 + c / 256 % 16) * 16 + c / 16 % 16) * 16 + c % 16 == c
    ensures c / 4096 < 16
  {
  }

  lemma UnicodeEscapeReads(c: CodeUnit, tail: JsString)
    requires 0 <= c < 0x1_0000
    ensures ReadChars(UnicodeEscape(c) + tail) == Cons(c, ReadChars(tail))
  {
    HexDigitsOf(c);
    HexRoundTrip(c / 4096);
    HexRoundTrip(c / 256 % 16);
    HexRoundTrip(c / 16 % 16);
    HexRoundTrip(c % 16);
    assert (UnicodeEscape(c) + tail)[6..] == tail;
  }

  lemma EscapedUnitReads(c: CodeUnit, tail: JsString)
    ensures ReadChars(EscapeUnit(c) + tail) == Cons(c, ReadChars(tail))
  {
    var s := EscapeUnit(c) + tail;
    if ShortEscape(c).Some? {
      assert s[2..] == tail;
    } else if 0 <= c < 0x20 || IsLead(c) || IsTrail(c) {
      UnicodeEscapeReads(c, tail);
    } else {
      assert s[1..] == tail;
    }
  }

  predicate IsHexDigit(c: CodeUnit) {
    0x30 <= c <= 0x39 || 0x61 <= c <= 0x66
  }

  /**
    The escapes of section 25.5.2.3 of ECMA-262, one by one: five letters, quote and backslash, lower-case
    hexadecimal for other control characters and lone surrogates, and every other unit as it is.
   */
  lemma EscapesOfEcma(c: CodeUnit)
    requires 0 <= c < 0x1_0000
    ensures c == 0x08 ==> EscapeUnit(c) == [0x5C, 0x62]
    ensures c == 0x09 ==> EscapeUnit(c) == [0x5C, 0x74]
    ensures c == 0x0A ==> EscapeUnit(c) == [0x5C, 0x6E]
    ensures c == 0x0C ==> EscapeUnit(c) == [0x5C, 0x66]
    ensures c == 0x0D ==> EscapeUnit(c) == [0x5C, 0x72]
    ensures c == 0x22 || c == 0x5C ==> EscapeUnit(c) == [0x5C, c]
    ensures (c < 0x20 && c !in {0x08, 0x09, 0x0A, 0x0C, 0x0D}) || 0xD800 <= c <= 0xDFFF ==>
              var t := EscapeUnit(c);
              && |t| == 6 && t[0] == 0x5C && t[1] == 0x75
              && IsHexDigit(t[2]) && IsHexDigit(t[3]) && IsHexDigit(t[4]) && IsHexDigit(t[5])
              && ((HexValue(t[2]) * 16 + HexValue(t[3])) * 16 + HexValue(t[4])) * 16 + HexValue(t[5]) == c
    ensures c >= 0x20 && c != 0x22 && c != 0x5C && !(0xD800 <= c <= 0xDFFF) ==> EscapeUnit(c) == [c]
  {
    HexDigitsOf(c);
    HexRoundTrip(c / 4096);
    HexRoundTrip(c / 256 % 16);
    HexRoundTrip(c / 16 % 16);
    HexRoundTrip(c % 16);
  }

  /** Strings are escaped unit by unit, but for surrogate pairs, which stay as they are. */
  lemma {:induction false} EscapedByUnits(c: CodeUnit, rest: JsString)
    ensures 0xD800 <= c <= 0xDBFF && rest != [] && 0xDC00 <= rest[0] <= 0xDFFF ==>
              Escaped([c] + rest) == [c, rest[0]] + Escaped(rest[1..])
    ensures !(0xD800 <= c <= 0xDBFF && rest != [] && 0xDC00 <= rest[0] <= 0xDFFF) ==>
              Escaped([c] + rest) == EscapeUnit(c) + Escaped(rest)
  {
    assert ([c] + rest)[1..] == rest;
    assert rest != [] ==> ([c] + rest)[2..] == rest[1..];
  }

  lemma SameHead(a: JsString, b: JsString, k: int)
    requires 0 < k <= |a| && k <= |b| && a[..k] == b[..k]
    ensures a[0] == b[0]
  {
    assert a[..k][0] == a[0] && b[..k][0] == b[0];
  }

  /** The order of keys is that of code units: a proper prefix first, else the first difference decides. */
  lemma {:induction false} LessIsCodeUnitOrder(a: JsString, b: JsString)
    ensures Less(a, b) <==> exists k :: 0 <= k <= |a| && k < |b| && a[..k] == b[..k] && (k == |a| || a[k] < b[k])
  {
    if a == [] || b == [] || a[0] != b[0] {
      if Less(a, b) {
        assert a[..0] == b[..0];
      }
      if k :| 0 <= k <= |a| && k < |b| && a[..k] == b[..k] && (k == |a| || a[k] < b[k]) {
        if k > 0 {
          SameHead(a, b, k);
        }
      }
    } else {
      LessIsCodeUnitOrder(a[1..], b[1..]);
      if Less(a[1..], b[1..]) {
        var k :| 0 <= k <= |a[1..]| && k < |b[1..]| && a[1..][..k] == b[1..][..k]
                 && (k == |a[1..]| || a[1..][k] < b[1..][k]);
        assert a[..k + 1] == [a[0]] + a[1..][..k] && b[..k + 1] == [b[0]] + b[1..][..k];
        assert k + 1 == |a| || a[k + 1] < b[k + 1];
      }
      if k :| 0 <= k <= |a| && k < |b| && a[..k] == b[..k] && (k == |a| || a[k] < b[k]) {
        assert a[1..][..k - 1] == a[..k][1..] && b[1..][..k - 1] == b[..k][1..];
        assert k - 1 == |a[1..]| || a[1..][k - 1] < b[1..][k - 1];
      }
    }
  }

  lemma RawUnitReads(c: CodeUnit, tail: JsString)
    requires c != QUOTE && c != BACKSLASH
    ensures ReadChars([c] + tail) == Cons(c, ReadChars(tail))
  {
    assert ([c] + tail)[1..] == tail;
  }

  lemma RawPairReads(c: CodeUnit, d: CodeUnit, tail: JsString)
    requires c != QUOTE && c != BACKSLASH && d != QUOTE && d != BACKSLASH
    ensures ReadChars([c, d] + tail) == Cons(c, Cons(d, ReadChars(tail)))
  {
    assert [c, d] + tail == [c] + ([d] + tail);
    RawUnitReads(c, [d] + tail);
    RawUnitReads(d, tail);
  }

  lemma ClosingQuoteReads(tail: JsString)
    ensures ReadChars([] + ([QUOTE] + tail)) == Done([], tail)
  {
    assert ([] + ([QUOTE] + tail))[1..] == tail;
  }

  lemma {:induction false} EscapedReads(s: JsString, tail: JsString)
    ensures ReadChars(Escaped(s) + ([QUOTE] + tail)) == Done(s, tail)
    decreases |s|
  {
    if s == [] {
      ClosingQuoteReads(tail);
    } else if |s| >= 2 && IsLead(s[0]) && IsTrail(s[1]) {
      var later := Escaped(s[2..]);
      EscapedReads(s[2..], tail);
      Associative([s[0], s[1]], later, [QUOTE] + tail);
      RawPairReads(s[0], s[1], later + ([QUOTE] + tail));
      FirstTwo(s);
    } else {
      var later := Escaped(s[1..]);
      EscapedReads(s[1..], tail);
      Associative(EscapeUnit(s[0]), later, [QUOTE] + tail);
      EscapedUnitReads(s[0], later + ([QUOTE] + tail));
      assert [s[0]] + s[1..] == s;
    }
  }

  lemma FirstTwo(s: JsString)
    requires |s| >= 2
    ensures [s[0]] + ([s[1]] + s[2..]) == s
  {
  }

  /** A quoted string, whatever follows it, reads back as the string and leaves what follows. */
  lemma {:induction false} QuoteReads(s: JsString, tail: JsString)
    ensures Quote(s) + tail == [QUOTE] + (Escaped(s) + ([QUOTE] + tail))
    ensures ReadChars((Quote(s) + tail)[1..]) == Done(s, tail)
  {
    Regroup([QUOTE], Escaped(s), [QUOTE], tail);
    assert (Quote(s) + tail)[1..] == Escaped(s) + ([QUOTE] + tail);
    EscapedReads(s, tail);
  }

  // ----- Values -----

  /** `tail` cannot be taken for the continuation of a number. */
  predicate Ends(tail: JsString) {
    tail == [] || !IsNumberUnit(tail[0])
  }

  ghost predicate ReadsAs(text: JsString, j: Json) {
    forall tail :: Ends(tail) ==> ReadValue(text + tail) == Done(j, tail)
  }

  lemma {:induction false} NumberRunOf(t: JsString, tail: JsString)
    requires (forall c :: c in t ==> IsNumberUnit(c)) && Ends(tail)
    ensures NumberRun(t + tail) == |t|
  {
    if t == [] {
      assert t + tail == tail;
    } else {
      assert t[0] in t;
      NumberRunOf(t[1..], tail);
      assert (t + tail)[1..] == t[1..] + tail;
    }
  }

  lemma NumberReads(t: JsString)
    requires IsNumberText(t)
    ensures ReadsAs(t, JNum(t))
  {
    forall tail | Ends(tail)
      ensures ReadValue(t + tail) == Done(JNum(t), tail)
    {
      var s := t + tail;
      assert t[0] in t && s[0] == t[0];
      NumberRunOf(t, tail);
      assert s[..|t|] == t && s[|t|..] == tail;
    }
  }

  lemma StringReads(s: JsString)
    ensures ReadsAs(Quote(s), JStr(s))
  {
    forall tail | Ends(tail)
      ensures ReadValue(Quote(s) + tail) == Done(JStr(s), tail)
    {
      QuoteReads(s, tail);
    }
  }

  lemma LiteralReads(text: JsString, j: Json)
    requires (text == NULL_TEXT && j == JNull) || (text == TRUE_TEXT && j == JBool(true))
             || (text == FALSE_TEXT && j == JBool(false))
    ensures ReadsAs(text, j)
  {
    forall tail | Ends(tail)
      ensures ReadValue(text + tail) == Done(j, tail)
    {
      assert (text + tail)[|text|..] == tail;
    }
  }

  // ----- Arrays -----

  /** The first character of a readable text is never a closing bracket. */
  lemma ReadableStart(s: JsString)
    requires ReadValue(s).Done?
    ensures s != [] && s[0] != CLOSE_ARRAY
  {
  }

  lemma OneItemReads(first: JsString, j: Json, tail: JsString)
    requires ReadsAs(first, j)
    ensures ReadItems(first + ([CLOSE_ARRAY] + tail)) == Done([j], tail)
  {
    var t := [CLOSE_ARRAY] + tail;
    assert Ends(t) && t[1..] == tail;
  }

  lemma MoreItemsRead(first: JsString, j: Json, later: JsString)
    requires ReadsAs(first, j) && ReadItems(later).Done?
    ensures ReadItems(first + ([COMMA] + later)) == Done([j] + ReadItems(later).value, ReadItems(later).rest)
  {
    var t := [COMMA] + later;
    assert Ends(t) && t[1..] == later;
  }

  lemma {:induction false} ItemsRead(items: seq<Js>, tail: JsString)
    requires items != [] && forall x :: x in items ==> Proper(x)
    ensures ReadItems(JoinItems(items) + ([CLOSE_ARRAY] + tail)) == Done(MeaningItems(items), tail)
    decreases items, 0
  {
    assert items[0] in items;
    CanonicalReads(items[0]);
    var first := CanonicalStringify(items[0]);
    if |items| == 1 {
      OneItemReads(first, Meaning(items[0]), tail);
      assert MeaningItems(items) == [Meaning(items[0])];
    } else {
      ItemsRead(items[1..], tail);
      var t := [CLOSE_ARRAY] + tail;
      Regroup(first, [COMMA], JoinItems(items[1..]), t);
      MoreItemsRead(first, Meaning(items[0]), JoinItems(items[1..]) + t);
    }
  }

  lemma {:induction false} ArrayReads(items: seq<Js>)
    requires forall x :: x in items ==> Proper(x)
    ensures ReadsAs(CanonicalStringify(Arr(items)), Meaning(Arr(items)))
    decreases items, 1
  {
    forall tail | Ends(tail)
      ensures ReadValue(CanonicalStringify(Arr(items)) + tail) == Done(JArr(MeaningItems(items)), tail)
    {
      var body := JoinItems(items) + ([CLOSE_ARRAY] + tail);
      Regroup([OPEN_ARRAY], JoinItems(items), [CLOSE_ARRAY], tail);
      if items == [] {
        EmptyReads(OPEN_ARRAY, CLOSE_ARRAY, tail);
      } else {
        ItemsRead(items, tail);
        ReadableStart(body);
        AfterFirst(OPEN_ARRAY, body);
      }
    }
  }

  lemma AfterFirst(c: CodeUnit, body: JsString)
    ensures ([c] + body)[1..] == body
    ensures body != [] ==> ([c] + body)[1] == body[0]
  {
  }

  lemma EmptyReads(open: CodeUnit, close: CodeUnit, tail: JsString)
    ensures var s := [open] + ([] + ([close] + tail));
            |s| >= 2 && s[0] == open && s[1] == close && s[2..] == tail
  {
  }

  // ----- Objects -----

  ghost predicate Sorted(es: seq<Entry>) {
    es != [] ==> (forall e :: e in es[1..] ==> Less(es[0].key, e.key)) && Sorted(es[1..])
  }

  /** The entries are exactly the members of the object `m`, each readable as its value. */
  ghost predicate Describes(es: seq<Entry>, m: map<JsString, Json>) {
    && (forall e :: e in es ==> e.key in m && ReadsAs(e.text, m[e.key]))
    && (forall k :: k in m ==> exists e :: e in es && e.key == k)
    && Sorted(es)
  }

  lemma EntryReads(e: Entry, j: Json, t: JsString)
    requires ReadsAs(e.text, j) && Ends(t)
    ensures var s := EntryText(e) + t;
            && s != [] && s[0] == QUOTE
            && ReadChars(s[1..]) == Done(e.key, [COLON] + (e.text + t))
            && ReadValue(([COLON] + (e.text + t))[1..]) == Done(j, t)
  {
    Regroup(Quote(e.key), [COLON], e.text, t);
    QuoteReads(e.key, [COLON] + (e.text + t));
    AfterFirst(COLON, e.text + t);
  }

  lemma OneMemberReads(e: Entry, j: Json, tail: JsString)
    requires ReadsAs(e.text, j)
    ensures ReadMembers(EntryText(e) + ([CLOSE_OBJECT] + tail)) == Done(map[e.key := j], tail)
  {
    EntryReads(e, j, [CLOSE_OBJECT] + tail);
    AfterFirst(CLOSE_OBJECT, tail);
  }

  lemma MoreMembersRead(e: Entry, j: Json, later: JsString)
    requires ReadsAs(e.text, j) && ReadMembers(later).Done?
    ensures ReadMembers(EntryText(e) + ([COMMA] + later))
         == Done(ReadMembers(later).value[e.key := j], ReadMembers(later).rest)
  {
    EntryReads(e, j, [COMMA] + later);
    AfterFirst(COMMA, later);
  }

  lemma {:induction false} EntriesRead(es: seq<Entry>, m: map<JsString, Json>, tail: JsString)
    requires es != [] && Describes(es, m)
    ensures ReadMembers(JoinEntries(es) + ([CLOSE_OBJECT] + tail)) == Done(m, tail)
    decreases |es|
  {
    var e := es[0];
    assert e in es;
    if |es| == 1 {
      assert es == [e];
      OneMemberReads(e, m[e.key], tail);
      DescribesOne(e, m);
    } else {
      DescribesRest(es, m);
      EntriesRead(es[1..], m - {e.key}, tail);
      var t := [CLOSE_OBJECT] + tail;
      Regroup(EntryText(e), [COMMA], JoinEntries(es[1..]), t);
      MoreMembersRead(e, m[e.key], JoinEntries(es[1..]) + t);
      PutBack(m, e.key);
    }
  }

  lemma PutBack(m: map<JsString, Json>, k: JsString)
    requires k in m
    ensures (m - {k})[k := m[k]] == m
  {
  }

  lemma DescribesOne(e: Entry, m: map<JsString, Json>)
    requires Describes([e], m)
    ensures m == map[e.key := m[e.key]]
  {
  }

  lemma DescribesRest(es: seq<Entry>, m: map<JsString, Json>)
    requires es != [] && Describes(es, m)
    ensures Describes(es[1..], m - {es[0].key})
  {
    var m' := m - {es[0].key};
    forall e | e in es[1..]
      ensures e.key in m' && ReadsAs(e.text, m'[e.key])
    {
      assert e in es;
      LessTotal(es[0].key, e.key);
    }
    forall k | k in m'
      ensures exists e :: e in es[1..] && e.key == k
    {
      var e :| e in es && e.key == k;
      assert e in es[1..];
    }
  }

  lemma ObjectReads(es: seq<Entry>, m: map<JsString, Json>)
    requires Describes(es, m)
    ensures ReadsAs([OPEN_OBJECT] + JoinEntries(es) + [CLOSE_OBJECT], JObj(m))
  {
    forall tail | Ends(tail)
      ensures ReadValue([OPEN_OBJECT] + JoinEntries(es) + [CLOSE_OBJECT] + tail) == Done(JObj(m), tail)
    {
      var body := JoinEntries(es) + ([CLOSE_OBJECT] + tail);
      Regroup([OPEN_OBJECT], JoinEntries(es), [CLOSE_OBJECT], tail);
      if es == [] {
        EmptyReads(OPEN_OBJECT, CLOSE_OBJECT, tail);
        assert m == map[];
      } else {
        EntriesRead(es, m, tail);
        AfterFirst(OPEN_OBJECT, body);
      }
    }
  }

  // ----- All values -----

  lemma {:induction false} CanonicalReads(v: Js)
    requires Proper(v)
    ensures ReadsAs(CanonicalStringify(v), Meaning(v))
    decreases v, 2
  {
    match v
    case Bool(b) => LiteralReads(CanonicalStringify(v), Meaning(v));
    case Num(t) => NumberReads(t);
    case Str(s) => StringReads(s);
    case Date(iso) => StringReads(iso);
    case Arr(items) => ArrayReads(items);
    case Obj(ms) =>
      MembersDescribed(ms);
      ObjectReads(SortedEntries(ms), MeaningMembers(ms));
    case _ => LiteralReads(NULL_TEXT, JNull);
  }

  lemma {:induction false} MembersDescribed(ms: seq<Member>)
    requires DistinctKeys(ms) && forall m: Member :: m in ms ==> Proper(m.val)
    ensures Describes(SortedEntries(ms), MeaningMembers(ms))
    decreases ms, 1
  {
    if ms != [] {
      assert ms[0] in ms;
      CanonicalReads(ms[0].val);
      MembersDescribed(ms[1..]);
      FirstKeyIsNew(ms);
      InsertDescribed(Entry(ms[0].key, CanonicalStringify(ms[0].val)), Meaning(ms[0].val),
                      SortedEntries(ms[1..]), MeaningMembers(ms[1..]));
    }
  }

  lemma {:induction false} MeaningKeys(ms: seq<Member>, k: JsString)
    ensures k in MeaningMembers(ms) <==> exists m: Member :: m in ms && m.key == k
  {
    if ms != [] {
      MeaningKeys(ms[1..], k);
      assert ms == [ms[0]] + ms[1..];
    }
  }

  lemma FirstKeyIsNew(ms: seq<Member>)
    requires ms != [] && DistinctKeys(ms)
    ensures ms[0].key !in MeaningMembers(ms[1..])
  {
    MeaningKeys(ms[1..], ms[0].key);
  }

  lemma {:induction false} InsertDescribed(x: Entry, j: Json, es: seq<Entry>, m: map<JsString, Json>)
    requires Describes(es, m) && x.key !in m && ReadsAs(x.text, j)
    ensures Describes(Insert(x, es), m[x.key := j])
  {
    InsertMembers(x, es);
    InsertSorted(x, es);
    forall k {:trigger k in m} | k in m
      ensures exists e :: e in Insert(x, es) && e.key == k
    {
      var e :| e in es && e.key == k;
      assert e in Insert(x, es);
    }
    assert x in Insert(x, es);
  }

  // ----- Sorting -----

  lemma {:induction false} LessTotal(a: JsString, b: JsString)
    ensures Less(a, b) || Less(b, a) || a == b
    ensures !(Less(a, b) && Less(b, a))
    ensures !Less(a, a)
  {
    if a != [] && b != [] && a[0] == b[0] {
      LessTotal(a[1..], b[1..]);
      LessTotal(a[1..], a[1..]);
      assert a == [a[0]] + a[1..] && b == [b[0]] + b[1..];
    } else if a != [] {
      LessTotal(a[1..], a[1..]);
    }
  }

  lemma {:induction false} LessTransitive(a: JsString, b: JsString, c: JsString)
    requires Less(a, b) && Less(b, c)
    ensures Less(a, c)
  {
    if a != [] && a[0] == b[0] && b[0] == c[0] {
      LessTransitive(a[1..], b[1..], c[1..]);
    }
  }

  lemma {:induction false} InsertMembers(x: Entry, es: seq<Entry>)
    ensures forall e :: e in Insert(x, es) <==> e == x || e in es
  {
    if es != [] && !Less(x.key, es[0].key) {
      InsertMembers(x, es[1..]);
      assert es == [es[0]] + es[1..];
    }
  }

  lemma {:induction false} InsertSorted(x: Entry, es: seq<Entry>)
    requires Sorted(es) && forall e :: e in es ==> e.key != x.key
    ensures Sorted(Insert(x, es))
  {
    if es != [] {
      assert es[0] in es;
      if Less(x.key, es[0].key) {
        forall e | e in es
          ensures Less(x.key, e.key)
        {
          if e != es[0] {
            assert e in es[1..];
            LessTransitive(x.key, es[0].key, e.key);
          }
        }
        assert ([x] + es)[1..] == es;
      } else {
        LessTotal(x.key, es[0].key);
        InsertSorted(x, es[1..]);
        InsertMembers(x, es[1..]);
        assert ([es[0]] + Insert(x, es[1..]))[1..] == Insert(x, es[1..]);
      }
    }
  }

  /** A sorted list is determined by its elements. */
  lemma {:induction false} SortedUnique(es: seq<Entry>, fs: seq<Entry>)
    requires Sorted(es) && Sorted(fs) && forall e :: e in es <==> e in fs
    ensures es == fs
  {
    assert es != [] ==> es[0] in es;
    assert fs != [] ==> fs[0] in fs;
    if es != [] && fs != [] {
      assert es[0] in fs;
      assert fs[0] in es;
      if es[0] != fs[0] {
        assert es[0] in fs[1..] && fs[0] in es[1..];
        LessTotal(es[0].key, fs[0].key);
        assert false;
      }
      forall e
        ensures e in es[1..] <==> e in fs[1..]
      {
        LessTotal(es[0].key, es[0].key);
        assert e in es <==> e == es[0] || e in es[1..];
        assert e in fs <==> e == fs[0] || e in fs[1..];
      }
      SortedUnique(es[1..], fs[1..]);
      assert es == [es[0]] + es[1..] && fs == [fs[0]] + fs[1..];
    }
  }

  // ----- Equal meaning, equal text -----

  lemma {:induction false} EntryOf(ms: seq<Member>, m: Member)
    requires m in ms
    ensures Entry(m.key, CanonicalStringify(m.val)) in SortedEntries(ms)
  {
    InsertMembers(Entry(ms[0].key, CanonicalStringify(ms[0].val)), SortedEntries(ms[1..]));
    if m != ms[0] {
      assert m in ms[1..];
      EntryOf(ms[1..], m);
    }
  }

  lemma {:induction false} MemberOf(ms: seq<Member>, e: Entry) returns (m: Member)
    requires e in SortedEntries(ms)
    ensures m in ms && e == Entry(m.key, CanonicalStringify(m.val))
  {
    InsertMembers(Entry(ms[0].key, CanonicalStringify(ms[0].val)), SortedEntries(ms[1..]));
    if e == Entry(ms[0].key, CanonicalStringify(ms[0].val)) {
      m := ms[0];
    } else {
      m := MemberOf(ms[1..], e);
    }
  }

  lemma {:induction false} MeaningOfMember(ms: seq<Member>, m: Member)
    requires DistinctKeys(ms) && m in ms
    ensures m.key in MeaningMembers(ms) && MeaningMembers(ms)[m.key] == Meaning(m.val)
  {
    if m != ms[0] {
      assert m in ms[1..];
      MeaningOfMember(ms[1..], m);
    }
  }

  lemma {:induction false} SameMeaningSameText(v: Js, w: Js)
    requires Proper(v) && Proper(w) && Meaning(v) == Meaning(w)
    ensures CanonicalStringify(v) == CanonicalStringify(w)
    decreases v, 2
  {
    if v.Arr? {
      SameItems(v.items, w.items);
    } else if v.Obj? {
      SameMembers(v.members, w.members);
    }
  }

  lemma {:induction false} SameItems(xs: seq<Js>, ys: seq<Js>)
    requires (forall x :: x in xs ==> Proper(x)) && (forall y :: y in ys ==> Proper(y))
    requires MeaningItems(xs) == MeaningItems(ys)
    ensures JoinItems(xs) == JoinItems(ys)
    decreases xs, 1
  {
    assert |xs| == |MeaningItems(xs)| == |ys|;
    if xs != [] {
      assert xs[0] in xs && ys[0] in ys;
      assert MeaningItems(xs)[0] == MeaningItems(ys)[0];
      SameMeaningSameText(xs[0], ys[0]);
      assert MeaningItems(xs)[1..] == MeaningItems(ys)[1..];
      SameItems(xs[1..], ys[1..]);
    }
  }

  lemma {:induction false} SameMembers(ms: seq<Member>, ns: seq<Member>)
    requires Proper(Obj(ms)) && Proper(Obj(ns)) && MeaningMembers(ms) == MeaningMembers(ns)
    ensures SortedEntries(ms) == SortedEntries(ns)
    decreases ms, 1
  {
    MembersDescribed(ms);
    MembersDescribed(ns);
    forall e
      ensures e in SortedEntries(ms) <==> e in SortedEntries(ns)
    {
      if e in SortedEntries(ms) {
        var m := MemberOf(ms, e);
        var n := Partner(ms, ns, m);
        SameMeaningSameText(m.val, n.val);
        EntryOf(ns, n);
      }
      if e in SortedEntries(ns) {
        var n := MemberOf(ns, e);
        var m := Partner(ns, ms, n);
        SameMeaningSameText(m.val, n.val);
        EntryOf(ms, m);
      }
    }
    SortedUnique(SortedEntries(ms), SortedEntries(ns));
  }

  lemma Partner(ms: seq<Member>, ns: seq<Member>, m: Member) returns (n: Member)
    requires DistinctKeys(ms) && DistinctKeys(ns) && MeaningMembers(ms) == MeaningMembers(ns) && m in ms
    ensures n in ns && n.key == m.key && Meaning(n.val) == Meaning(m.val)
  {
    MeaningOfMember(ms, m);
    MeaningKeys(ns, m.key);
    n :| n in ns && n.key == m.key;
    MeaningOfMember(ns, n);
  }

  /**
    Two values have the same canonical text exactly when they mean the same JSON value, that is,
    when they are equal up to the order of object keys (and to what prints as `null`).
   */
  lemma CanonicalTextIsMeaning(v: Js, w: Js)
    requires Proper(v) && Proper(w)
    ensures CanonicalStringify(v) == CanonicalStringify(w) <==> Meaning(v) == Meaning(w)
  {
    if Meaning(v) == Meaning(w) {
      SameMeaningSameText(v, w);
    }
    CanonicalReads(v);
    CanonicalReads(w);
    assert ReadValue(CanonicalStringify(v) + []) == Done(Meaning(v), []);
    assert ReadValue(CanonicalStringify(w) + []) == Done(Meaning(w), []);
  }
}
