/**
  The canonical JSON printer behind the audit log's integrity tag: object keys are sorted
  recursively and strings are quoted as `JSON.stringify` quotes them. A reader for the printed
  text shows that the text determines the value up to key order, and only up to key order.
 */
module CanonicalJson {
  import opened Common
  import opened JsText

  /** A JavaScript value handed to the printer. */
  datatype Js =
    | Null
    | Undefined
    | Unserializable               // functions and symbols
    | NonFinite                    // NaN and the infinities
    | Bool(b: bool)
    | Num(text: JsString)          // a finite number, by its unique JavaScript rendering
    | Str(s: JsString)
    | Date(iso: JsString)
    | Arr(items: seq<Js>)
    | Obj(members: seq<Member>)    // own enumerable string keys, in enumeration order

  datatype Member = Member(key: JsString, val: Js)

  /** A JSON value; an object is a finite map, so key order is not part of it. */
  datatype Json =
    | JNull
    | JBool(b: bool)
    | JNum(text: JsString)
    | JStr(s: JsString)
    | JArr(items: seq<Json>)
    | JObj(members: map<JsString, Json>)

  const QUOTE: CodeUnit := 0x22
  const BACKSLASH: CodeUnit := 0x5C
  const COLON: CodeUnit := 0x3A
  const OPEN_ARRAY: CodeUnit := 0x5B
  const CLOSE_ARRAY: CodeUnit := 0x5D
  const OPEN_OBJECT: CodeUnit := 0x7B
  const CLOSE_OBJECT: CodeUnit := 0x7D
  const NULL_TEXT: JsString := [0x6E, 0x75, 0x6C, 0x6C]
  const TRUE_TEXT: JsString := [0x74, 0x72, 0x75, 0x65]
  const FALSE_TEXT: JsString := [0x66, 0x61, 0x6C, 0x73, 0x65]

  /** Digits, signs, the point and the exponent letter. */
  predicate IsNumberUnit(c: CodeUnit) {
    IsDigit(c) || c == MINUS || c == PLUS || c == DOT || c == 0x65
  }

  predicate IsNumberText(t: JsString) {
    t != [] && forall c :: c in t ==> IsNumberUnit(c)
  }

  predicate DistinctKeys(ms: seq<Member>) {
    forall i, j :: 0 <= i < j < |ms| ==> ms[i].key != ms[j].key
  }

  /** A value JavaScript can hold: keys of one object differ, numbers print as numbers. */
  predicate Proper(v: Js) {
    match v
    case Num(t) => IsNumberText(t)
    case Arr(items) => forall x :: x in items ==> Proper(x)
    case Obj(ms) => DistinctKeys(ms) && forall m: Member :: m in ms ==> Proper(m.val)
    case _ => true
  }

  // ----- Strings -----

  function HexDigit(d: int): CodeUnit {
    if d < 10 then ZERO + d else 0x61 + d - 10
  }

  function HexValue(c: CodeUnit): int {
    if IsDigit(c) then c - ZERO else c - 0x61 + 10
  }

  const LETTER_U: CodeUnit := 0x75

  function UnicodeEscape(c: CodeUnit): JsString {
    [BACKSLASH, LETTER_U, HexDigit(c / 4096), HexDigit(c / 256 % 16), HexDigit(c / 16 % 16), HexDigit(c % 16)]
  }

  /** The letter of a two-unit escape, if `c` has one. */
  function ShortEscape(c: CodeUnit): Option<CodeUnit> {
    if c == QUOTE || c == BACKSLASH then Some(c)
    else if c == 0x08 then Some(0x62)
    else if c == 0x09 then Some(0x74)
    else if c == 0x0A then Some(0x6E)
    else if c == 0x0C then Some(0x66)
    else if c == 0x0D then Some(0x72)
    else None
  }

  function ShortUnescape(letter: CodeUnit): Option<CodeUnit> {
    if letter == QUOTE || letter == BACKSLASH then Some(letter)
    else if letter == 0x62 then Some(0x08)
    else if letter == 0x74 then Some(0x09)
    else if letter == 0x6E then Some(0x0A)
    else if letter == 0x66 then Some(0x0C)
    else if letter == 0x72 then Some(0x0D)
    else None
  }

  predicate IsLead(c: CodeUnit) { 0xD800 <= c <= 0xDBFF }

  predicate IsTrail(c: CodeUnit) { 0xDC00 <= c <= 0xDFFF }

  function EscapeUnit(c: CodeUnit): JsString {
    if ShortEscape(c).Some? then [BACKSLASH, ShortEscape(c).value]
    else if 0 <= c < 0x20 || IsLead(c) || IsTrail(c) then UnicodeEscape(c)
    else [c]
  }

  /** The inside of `JSON.stringify(s)`: a surrogate is escaped unless it is half of a pair. */
  function Escaped(s: JsString): JsString {
    if s == [] then []
    else if |s| >= 2 && IsLead(s[0]) && IsTrail(s[1]) then [s[0], s[1]] + Escaped(s[2..])
    else EscapeUnit(s[0]) + Escaped(s[1..])
  }

  /** `JSON.stringify(s)` of a string. */
  function Quote(s: JsString): JsString {
    [QUOTE] + Escaped(s) + [QUOTE]
  }

  // ----- Printer -----

  /** Code-unit order, the order of `Array.prototype.sort` on strings. */
  predicate Less(a: JsString, b: JsString) {
    b != [] && (a == [] || a[0] < b[0] || (a[0] == b[0] && Less(a[1..], b[1..])))
  }

  /** A key with the text its value prints to. */
  datatype Entry = Entry(key: JsString, text: JsString)

  function Insert(e: Entry, es: seq<Entry>): seq<Entry> {
    if es == [] || Less(e.key, es[0].key) then [e] + es else [es[0]] + Insert(e, es[1..])
  }

  function EntryText(e: Entry): JsString {
    Quote(e.key) + [COLON] + e.text
  }

  function JoinEntries(es: seq<Entry>): JsString {
    if es == [] then []
    else if |es| == 1 then EntryText(es[0])
    else EntryText(es[0]) + [COMMA] + JoinEntries(es[1..])
  }

  function CanonicalStringify(v: Js): JsString
    decreases v, 1
  {
    match v
    case Null => NULL_TEXT
    case Undefined => NULL_TEXT
    case Unserializable => NULL_TEXT
    case NonFinite => NULL_TEXT
    case Bool(b) => if b then TRUE_TEXT else FALSE_TEXT
    case Num(t) => t
    case Str(s) => Quote(s)
    case Date(iso) => Quote(iso)
    case Arr(items) => [OPEN_ARRAY] + JoinItems(items) + [CLOSE_ARRAY]
    case Obj(ms) => [OPEN_OBJECT] + JoinEntries(SortedEntries(ms)) + [CLOSE_OBJECT]
  }

  function JoinItems(items: seq<Js>): JsString
    decreases items, 0
  {
    if items == [] then []
    else if |items| == 1 then CanonicalStringify(items[0])
    else CanonicalStringify(items[0]) + [COMMA] + JoinItems(items[1..])
  }

  /** The members with their texts, in key order. */
  function SortedEntries(ms: seq<Member>): seq<Entry>
    decreases ms, 0
  {
    if ms == [] then []
    else Insert(Entry(ms[0].key, CanonicalStringify(ms[0].val)), SortedEntries(ms[1..]))
  }

  // ----- Meaning -----

  /** The JSON value that the canonical text stands for. */
  function Meaning(v: Js): Json
    decreases v, 1
  {
    match v
    case Null => JNull
    case Undefined => JNull
    case Unserializable => JNull
    case NonFinite => JNull
    case Bool(b) => JBool(b)
    case Num(t) => JNum(t)
    case Str(s) => JStr(s)
    case Date(iso) => JStr(iso)
    case Arr(items) => JArr(MeaningItems(items))
    case Obj(ms) => JObj(MeaningMembers(ms))
  }

  function MeaningItems(items: seq<Js>): (r: seq<Json>)
    ensures |r| == |items|
    decreases items, 0
  {
    if items == [] then [] else [Meaning(items[0])] + MeaningItems(items[1..])
  }

  function MeaningMembers(ms: seq<Member>): map<JsString, Json>
    decreases ms, 0
  {
    if ms == [] then map[] else MeaningMembers(ms[1..])[ms[0].key := Meaning(ms[0].val)]
  }

  // ----- Reader -----

  datatype Read<T> = Failed | Done(value: T, rest: JsString)

  /** Read the inside of a quoted string up to and including its closing quote. */
  function ReadChars(s: JsString): (r: Read<JsString>)
    ensures r.Done? ==> |r.rest| < |s|
    decreases |s|
  {
    if s == [] then Failed
    else if s[0] == QUOTE then Done([], s[1..])
    else if s[0] != BACKSLASH then Cons(s[0], ReadChars(s[1..]))
    else if |s| < 2 then Failed
    else if s[1] == LETTER_U then
      if |s| < 6 then Failed
      else Cons(((HexValue(s[2]) * 16 + HexValue(s[3])) * 16 + HexValue(s[4])) * 16 + HexValue(s[5]),
                ReadChars(s[6..]))
    else if ShortUnescape(s[1]).None? then Failed
    else Cons(ShortUnescape(s[1]).value, ReadChars(s[2..]))
  }

  function Cons(c: CodeUnit, r: Read<JsString>): Read<JsString> {
    if r.Failed? then Failed else Done([c] + r.value, r.rest)
  }

  function NumberRun(s: JsString): (k: nat)
    ensures k <= |s|
  {
    if s != [] && IsNumberUnit(s[0]) then 1 + NumberRun(s[1..]) else 0
  }

  function ReadValue(s: JsString): (r: Read<Json>)
    ensures r.Done? ==> |r.rest| < |s|
    decreases |s|, 1
  {
    if s == [] then Failed
    else if s[0] == QUOTE then
      var r := ReadChars(s[1..]);
      if r.Failed? then Failed else Done(JStr(r.value), r.rest)
    else if s[0] == OPEN_ARRAY then
      if |s| >= 2 && s[1] == CLOSE_ARRAY then Done(JArr([]), s[2..])
      else
        var r := ReadItems(s[1..]);
        if r.Failed? then Failed else Done(JArr(r.value), r.rest)
    else if s[0] == OPEN_OBJECT then
      if |s| >= 2 && s[1] == CLOSE_OBJECT then Done(JObj(map[]), s[2..])
      else
        var r := ReadMembers(s[1..]);
        if r.Failed? then Failed else Done(JObj(r.value), r.rest)
    else if NULL_TEXT <= s then Done(JNull, s[4..])
    else if TRUE_TEXT <= s then Done(JBool(true), s[4..])
    else if FALSE_TEXT <= s then Done(JBool(false), s[5..])
    else
      var k := NumberRun(s);
      if k == 0 then Failed else Done(JNum(s[..k]), s[k..])
  }

  /** One or more values separated by commas, and the closing bracket. */
  function ReadItems(s: JsString): (r: Read<seq<Json>>)
    ensures r.Done? ==> |r.rest| < |s|
    decreases |s|, 2
  {
    var first := ReadValue(s);
    if first.Failed? || first.rest == [] then Failed
    else if first.rest[0] == CLOSE_ARRAY then Done([first.value], first.rest[1..])
    else if first.rest[0] != COMMA then Failed
    else
      var more := ReadItems(first.rest[1..]);
      if more.Failed? then Failed else Done([first.value] + more.value, more.rest)
  }

  /** One or more members separated by commas, and the closing brace. */
  function ReadMembers(s: JsString): (r: Read<map<JsString, Json>>)
    ensures r.Done? ==> |r.rest| < |s|
    decreases |s|, 2
  {
    if s == [] || s[0] != QUOTE then Failed
    else
      var key := ReadChars(s[1..]);
      if key.Failed? || key.rest == [] || key.rest[0] != COLON then Failed
      else
        var val := ReadValue(key.rest[1..]);
        if val.Failed? || val.rest == [] then Failed
        else if val.rest[0] == CLOSE_OBJECT then Done(map[key.value := val.value], val.rest[1..])
        else if val.rest[0] != COMMA then Failed
        else
          var more := ReadMembers(val.rest[1..]);
          if more.Failed? then Failed else Done(more.value[key.value := val.value], more.rest)
  }
}
