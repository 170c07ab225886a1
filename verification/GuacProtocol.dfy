/**
  The Guacamole wire codec: a length-prefixed encoder and a streaming parser that keeps
  the unparsed tail of its input between calls.
 */
module GuacProtocol {
  import opened Common
  import opened JsText

  datatype Instruction = Instruction(opcode: JsString, args: seq<JsString>)

  // ----- Encoder -----

  /** An encoder argument: `null` and `undefined` are sent as the empty string. */
  function ArgText(v: Option<JsString>): JsString {
    if v.None? then [] else v.value
  }

  function ArgTexts(vs: seq<Option<JsString>>): (r: seq<JsString>)
    ensures |r| == |vs|
    ensures forall i :: 0 <= i < |vs| ==> r[i] == ArgText(vs[i])
  {
    seq(|vs|, i requires 0 <= i < |vs| => ArgText(vs[i]))
  }

  function EncodePart(s: JsString): JsString {
    Decimal(|s|) + [DOT] + s
  }

  /** The parts joined by commas. */
  function EncodeParts(vs: seq<JsString>): JsString
    requires vs != []
  {
    if |vs| == 1 then EncodePart(vs[0]) else EncodePart(vs[0]) + [COMMA] + EncodeParts(vs[1..])
  }

  function EncodeInstruction(opcode: Option<JsString>, args: seq<Option<JsString>>): JsString {
    EncodeParts(ArgTexts([opcode] + args)) + [SEMICOLON]
  }

  // ----- Parser specification -----

  datatype Parse = NeedMore | Bad | Got(instr: Instruction, rest: JsString)

  predicate ValidLength(p: ParsedInt) {
    p.Integer? && 0 <= p.value < INFINITY_THRESHOLD
  }

  /** One `L.V` part and its separator, read off the front of `s`. */
  datatype Part = Unfinished | Malformed | Part(value: JsString, sep: CodeUnit, rest: JsString)

  function ReadPart(s: JsString): (p: Part)
    ensures p.Part? ==> |p.rest| < |s|
  {
    var dot := IndexOf(s, DOT);
    if dot < 0 then Unfinished
    else
      var len := ParseInt(s[..dot]);
      if !ValidLength(len) then Malformed
      else
        var valEnd := dot + 1 + len.value;
        if valEnd >= |s| then Unfinished
        else if s[valEnd] != SEMICOLON && s[valEnd] != COMMA then Malformed
        else Part(s[dot + 1..valEnd], s[valEnd], s[valEnd + 1..])
  }

  /** Parse the remaining parts of one instruction, `args` being those already read. */
  function ParseParts(s: JsString, args: seq<JsString>): (p: Parse)
    ensures p.Got? ==> |p.rest| < |s|
    decreases |s|
  {
    match ReadPart(s)
    case Unfinished => NeedMore
    case Malformed => Bad
    case Part(value, sep, rest) =>
      var args' := args + [value];
      if sep == SEMICOLON then Got(Instruction(args'[0], args'[1..]), rest)
      else ParseParts(rest, args')
  }

  function ParseOne(buffer: JsString): Parse {
    ParseParts(buffer, [])
  }

  /** Every complete instruction of `buffer`, what is left, and whether the parser threw there. */
  datatype Drained = Drained(out: seq<Instruction>, rest: JsString, threw: bool)

  function Drain(buffer: JsString): Drained
    decreases |buffer|
  {
    match ParseOne(buffer)
    case NeedMore => Drained([], buffer, false)
    case Bad => Drained([], buffer, true)
    case Got(instr, rest) =>
      var d := Drain(rest);
      Drained([instr] + d.out, d.rest, d.threw)
  }

  function Prepend(out: seq<Instruction>, d: Drained): Drained {
    Drained(out + d.out, d.rest, d.threw)
  }

  lemma PrependOne(out: seq<Instruction>, buffer: JsString)
    ensures match ParseOne(buffer)
            case NeedMore => Prepend(out, Drain(buffer)) == Drained(out, buffer, false)
            case Bad => Prepend(out, Drain(buffer)) == Drained(out, buffer, true)
            case Got(instr, rest) =>
              Prepend(out, Drain(buffer)) == Prepend(out + [instr], Drain(rest))
  {
    hide ParseOne;
    match ParseOne(buffer)
    case NeedMore =>
    case Bad =>
    case Got(instr, rest) => Associative(out, [instr], Drain(rest).out);
  }

  /** `ReadPart(buffer[pos..])`, its first dot being at `dot`, in terms of positions in `buffer`. */
  function ReadPartAfter(buffer: JsString, pos: nat, dot: nat): Part
    requires pos <= dot < |buffer|
  {
    var len := ParseInt(buffer[pos..dot]);
    if !ValidLength(len) then Malformed
    else
      var valEnd := dot + 1 + len.value;
      if valEnd >= |buffer| then Unfinished
      else if buffer[valEnd] != SEMICOLON && buffer[valEnd] != COMMA then Malformed
      else Part(buffer[dot + 1..valEnd], buffer[valEnd], buffer[valEnd + 1..])
  }

  lemma ReadPartAt(buffer: JsString, pos: nat)
    requires pos <= |buffer|
    ensures var dot := IndexOfFrom(buffer, DOT, pos);
            ReadPart(buffer[pos..]) == if dot < 0 then Unfinished else ReadPartAfter(buffer, pos, dot)
  {
    var s := buffer[pos..];
    var rel := IndexOf(s, DOT);
    if rel >= 0 {
      var dot := pos + rel;
      assert buffer[pos..dot] == s[..rel];
      var len := ParseInt(s[..rel]);
      if ValidLength(len) && dot + 1 + len.value < |buffer| {
        assert buffer[dot + 1..dot + 1 + len.value] == s[rel + 1..rel + 1 + len.value];
        assert buffer[dot + 1 + len.value + 1..] == s[rel + 1 + len.value + 1..];
      }
    }
  }

  /** The parsing loop may stand at `pos` of `buffer` with `args` read. */
  ghost predicate Leads(buffer: JsString, pos: nat, args: seq<JsString>) {
    pos <= |buffer| && ParseParts(buffer[pos..], args) == ParseOne(buffer)
  }

  /** Returning `instr` or throwing, with `rest` as the new buffer, is right for `buffer`. */
  ghost predicate Yields(buffer: JsString, instr: Option<Instruction>, failed: bool, rest: JsString) {
    match ParseOne(buffer)
    case NeedMore => instr.None? && !failed && rest == buffer
    case Bad => instr.None? && failed && rest == buffer
    case Got(i, r) => instr == Some(i) && !failed && rest == r
  }

  lemma LeadsInit(buffer: JsString)
    ensures Leads(buffer, 0, [])
  {
    assert buffer[0..] == buffer;
  }

  /** One turn of the parsing loop: how it leaves the method, or where it goes on. */
  lemma LoopTurn(buffer: JsString, pos: nat, args: seq<JsString>)
    requires Leads(buffer, pos, args)
    ensures var dot := IndexOfFrom(buffer, DOT, pos);
            if dot < 0 then Yields(buffer, None, false, buffer)
            else
              match ReadPartAfter(buffer, pos, dot)
              case Unfinished => Yields(buffer, None, false, buffer)
              case Malformed => Yields(buffer, None, true, buffer)
              case Part(value, sep, rest) =>
                var args' := args + [value];
                if sep == SEMICOLON then
                  Yields(buffer, Some(Instruction(args'[0], args'[1..])), false, rest)
                else Leads(buffer, |buffer| - |rest|, args')
  {
    ReadPartAt(buffer, pos);
  }

  lemma LeadsEnd(buffer: JsString, args: seq<JsString>)
    requires Leads(buffer, |buffer|, args)
    ensures Yields(buffer, None, false, buffer)
  {
    assert buffer[|buffer|..] == [];
  }

  // ----- The parser object -----

  datatype FeedResult = Instructions(out: seq<Instruction>) | Throws

  class GuacInstructionParser {
    var buffer: JsString

    constructor ()
      ensures buffer == []
    {
      buffer := [];
    }

    method Feed(chunk: JsString) returns (r: FeedResult)
      modifies this
      ensures var d := Drain(old(buffer) + chunk);
              buffer == d.rest && r == if d.threw then Throws else Instructions(d.out)
    {
      buffer := buffer + chunk;
      ghost var whole := Drain(buffer);
      var out: seq<Instruction> := [];
      while true
        invariant whole == Prepend(out, Drain(buffer))
        decreases |buffer|
      {
        PrependOne(out, buffer);
        var instr, failed := TryParseOne();
        if failed { return Throws; }
        if instr.None? { break; }
        out := out + [instr.value];
      }
      r := Instructions(out);
    }

    method Leftover() returns (s: JsString)
      ensures s == buffer
    {
      s := buffer;
    }

    method Reset()
      modifies this
      ensures buffer == []
    {
      buffer := [];
    }

    method TryParseOne() returns (instr: Option<Instruction>, failed: bool)
      modifies this
      ensures Yields(old(buffer), instr, failed, buffer)
    {
      hide ParseInt, IndexOf, ReadPart, ParseParts;
      var args: seq<JsString> := [];
      var pos := 0;
      LeadsInit(buffer);
      while pos < |buffer|
        invariant buffer == old(buffer) && Leads(buffer, pos, args)
        decreases |buffer| - pos
      {
        LoopTurn(buffer, pos, args);
        var dot := IndexOfFrom(buffer, DOT, pos);
        if dot < 0 { return None, false; }
        var len := ParseInt(buffer[pos..dot]);
        if !ValidLength(len) { return None, true; }
        var valStart := dot + 1;
        var valEnd := valStart + len.value;
        if valEnd >= |buffer| { return None, false; }
        args := args + [buffer[valStart..valEnd]];
        var sep := buffer[valEnd];
        pos := valEnd + 1;
        if sep == SEMICOLON {
          buffer := buffer[pos..];
          return Some(Instruction(args[0], args[1..])), false;
        }
        if sep != COMMA { return None, true; }
      }
      LeadsEnd(buffer, args);
      return None, false;
    }
  }

  // ----- Chunking does not matter -----

  /** More input never changes a part that has been read, nor makes a malformed one good. */
  lemma ReadPartStable(a: JsString, c: JsString)
    ensures ReadPart(a).Malformed? ==> ReadPart(a + c).Malformed?
    ensures ReadPart(a).Part? ==> ReadPart(a + c) == ReadPart(a).(rest := ReadPart(a).rest + c)
  {
    var s := a + c;
    var dot := IndexOf(a, DOT);
    if dot >= 0 {
      IndexOfAppend(a, DOT, c);
      assert s[..dot] == a[..dot];
      var len := ParseInt(a[..dot]);
      if ValidLength(len) && dot + 1 + len.value < |a| {
        var valEnd := dot + 1 + len.value;
        assert s[dot + 1..valEnd] == a[dot + 1..valEnd];
        assert s[valEnd + 1..] == a[valEnd + 1..] + c;
      }
    }
  }

  /** More input never changes what the parser has already decided. */
  lemma {:induction false} ParseStable(a: JsString, c: JsString, args: seq<JsString>)
    ensures var p := ParseParts(a, args);
            var q := ParseParts(a + c, args);
            && (p.Bad? ==> q.Bad?)
            && (p.Got? ==> q == Got(p.instr, p.rest + c))
    decreases |a|
  {
    ReadPartStable(a, c);
    match ReadPart(a)
    case Unfinished =>
    case Malformed =>
    case Part(value, sep, rest) =>
      if sep != SEMICOLON {
        ParseStable(rest, c, args + [value]);
      }
  }

  /** Draining `a + c` is draining `a`, then draining what was left followed by `c`. */
  lemma {:induction false} DrainAppend(a: JsString, c: JsString)
    ensures var d := Drain(a);
            var e := Drain(d.rest + c);
            Drain(a + c) == if d.threw then Drained(d.out, d.rest + c, true)
                            else Drained(d.out + e.out, e.rest, e.threw)
    ensures Drain(a).threw ==> Drain(Drain(a).rest + c) == Drained([], Drain(a).rest + c, true)
    decreases |a|
  {
    hide ParseParts;
    ParseStable(a, c, []);
    match ParseOne(a)
    case NeedMore =>
    case Bad =>
    case Got(instr, rest) =>
      DrainAppend(rest, c);
      Associative([instr], Drain(rest).out, Drain(Drain(rest).rest + c).out);
  }

  /** The outcome of successive `Feed` calls: what they returned, the buffer, and whether any threw. */
  datatype Run = Run(delivered: seq<Instruction>, buffer: JsString, threw: bool)

  /** One more `Feed`: a call that throws returns nothing, and later calls go on from its buffer. */
  function FeedOne(run: Run, chunk: JsString): Run {
    var d := Drain(run.buffer + chunk);
    if d.threw then Run(run.delivered, d.rest, true)
    else Run(run.delivered + d.out, d.rest, run.threw)
  }

  function FeedAll(run: Run, chunks: seq<JsString>): Run
    decreases |chunks|
  {
    if chunks == [] then run else FeedAll(FeedOne(run, chunks[0]), chunks[1..])
  }

  function Concat(chunks: seq<JsString>): JsString {
    if chunks == [] then [] else chunks[0] + Concat(chunks[1..])
  }

  lemma FeedOneMore(run: Run, chunks: seq<JsString>, i: nat)
    requires i < |chunks|
    ensures FeedAll(run, chunks[i..]) == FeedAll(FeedOne(run, chunks[i]), chunks[i + 1..])
  {
    assert chunks[i..][0] == chunks[i] && chunks[i..][1..] == chunks[i + 1..];
  }

  /** Feed a parser the chunks one by one, going on after a call that throws. */
  method FeedChunks(parser: GuacInstructionParser, chunks: seq<JsString>)
    returns (delivered: seq<Instruction>, threw: bool)
    modifies parser
    ensures Run(delivered, parser.buffer, threw) == FeedAll(Run([], old(parser.buffer), false), chunks)
  {
    delivered, threw := [], false;
    ghost var whole := FeedAll(Run([], parser.buffer, false), chunks);
    assert chunks[0..] == chunks;
    for i := 0 to |chunks|
      invariant whole == FeedAll(Run(delivered, parser.buffer, threw), chunks[i..])
    {
      FeedOneMore(Run(delivered, parser.buffer, threw), chunks, i);
      var r := parser.Feed(chunks[i]);
      match r {
        case Throws => threw := true;
        case Instructions(out) => delivered := delivered + out;
      }
    }
  }

  /** Two ways of cutting one stream, fed to a new parser: same leftover, same throw, same instructions. */
  method FeedBothWays(chunks: seq<JsString>, others: seq<JsString>)
    returns (delivered: seq<Instruction>, threw: bool, left: JsString,
             delivered': seq<Instruction>, threw': bool, left': JsString)
    requires Concat(chunks) == Concat(others)
    ensures left == left' && threw == threw' && (!threw ==> delivered == delivered')
    ensures threw ==> delivered <= delivered' || delivered' <= delivered
  {
    var p := new GuacInstructionParser();
    delivered, threw := FeedChunks(p, chunks);
    left := p.Leftover();
    var q := new GuacInstructionParser();
    delivered', threw' := FeedChunks(q, others);
    left' := q.Leftover();
    ChunkingDoesNotMatter(chunks);
    ChunkingDoesNotMatter(others);
  }

  /** `run` is what feeding `fed` in some chunking has led to. */
  ghost predicate Reflects(run: Run, fed: JsString) {
    var w := Drain(fed);
    && run.buffer == w.rest
    && run.threw == w.threw
    && (if run.threw then run.delivered <= w.out else run.delivered == w.out)
  }

  lemma FeedKeepsReflects(run: Run, fed: JsString, chunk: JsString)
    requires Reflects(run, fed)
    ensures Reflects(FeedOne(run, chunk), fed + chunk)
  {
    DrainAppend(fed, chunk);
  }

  lemma {:induction false} FeedAllReflects(run: Run, fed: JsString, chunks: seq<JsString>)
    requires Reflects(run, fed)
    ensures Reflects(FeedAll(run, chunks), fed + Concat(chunks))
    decreases |chunks|
  {
    if chunks == [] {
      assert fed + [] == fed;
    } else {
      FeedKeepsReflects(run, fed, chunks[0]);
      FeedAllReflects(FeedOne(run, chunks[0]), fed + chunks[0], chunks[1..]);
      Associative(fed, chunks[0], Concat(chunks[1..]));
    }
  }

  /**
    Any way of cutting a stream into chunks gives the same leftover as one `Feed` of the whole
    stream, throws somewhere exactly when that one call throws, and otherwise returns the same
    instructions. When it throws, the instructions returned before are a prefix of those in front
    of the malformed one.
   */
  lemma {:induction false} ChunkingDoesNotMatter(chunks: seq<JsString>)
    ensures var r := FeedAll(Run([], [], false), chunks);
            var w := Drain(Concat(chunks));
            && r.buffer == w.rest
            && r.threw == w.threw
            && (if r.threw then r.delivered <= w.out else r.delivered == w.out)
  {
    FeedAllReflects(Run([], [], false), [], chunks);
    assert [] + Concat(chunks) == Concat(chunks);
  }

  // ----- Round trip -----

  ghost predicate ShortTexts(vs: seq<JsString>) {
    forall i :: 0 <= i < |vs| ==> |vs[i]| <= MAX_STRING_LENGTH
  }

  /** An opcode and arguments to encode, `None` standing for null or undefined. */
  datatype Call = Call(opcode: Option<JsString>, args: seq<Option<JsString>>)

  /** `text` is what has to arrive for `v`: the text itself, or nothing for a missing one. */
  predicate Carries(v: Option<JsString>, text: JsString) {
    v == Some(text) || (v == None && text == [])
  }

  /** `instr` is what the receiver has to see for the call, and its texts are JavaScript strings. */
  predicate Sends(c: Call, instr: Instruction) {
    && Carries(c.opcode, instr.opcode) && |instr.opcode| <= MAX_STRING_LENGTH
    && |instr.args| == |c.args|
    && forall i :: 0 <= i < |c.args| ==> Carries(c.args[i], instr.args[i]) && |instr.args[i]| <= MAX_STRING_LENGTH
  }

  lemma EncodedPartReads(v: JsString, sep: CodeUnit, tail: JsString)
    requires |v| <= MAX_STRING_LENGTH && (sep == COMMA || sep == SEMICOLON)
    ensures ReadPart(EncodePart(v) + ([sep] + tail)) == Part(v, sep, tail)
  {
    var s := EncodePart(v) + ([sep] + tail);
    var dot := |Decimal(|v|)|;
    DecimalDigits(|v|);
    IndexOfAfter(Decimal(|v|), DOT, v + ([sep] + tail));
    assert s == Decimal(|v|) + [DOT] + (v + ([sep] + tail));
    assert s[..dot] == Decimal(|v|);
    ParseIntOfDecimal(|v|);
    assert s[dot + 1..dot + 1 + |v|] == v;
    assert s[dot + 1 + |v| + 1..] == tail;
  }

  /**
    A length is any number that prints as digits below the value that rounds to Infinity: then the parser
    waits for the rest of its text, and from that value on it throws.
   */
  lemma LengthVerdict(digits: JsString, tail: JsString)
    requires digits != [] && forall c :: c in digits ==> IsDigit(c)
    ensures DigitsValue(digits) >= INFINITY_THRESHOLD ==> ReadPart(digits + [DOT] + tail) == Malformed
    ensures |tail| <= DigitsValue(digits) < INFINITY_THRESHOLD ==> ReadPart(digits + [DOT] + tail) == Unfinished
  {
    var s := digits + [DOT] + tail;
    IndexOfAfter(digits, DOT, tail);
    assert s[..|digits|] == digits;
    assert digits[0] in digits;
    assert SkipSpace(digits) == digits;
    DigitRunOfDigits(digits);
    assert digits[..|digits|] == digits;
  }

  lemma AppendFirst(args: seq<JsString>, vs: seq<JsString>)
    requires vs != []
    ensures (args + [vs[0]]) + vs[1..] == args + vs
  {
  }

  lemma {:induction false} EncodedPartsParse(vs: seq<JsString>, args: seq<JsString>, tail: JsString)
    requires vs != [] && ShortTexts(vs)
    ensures ParseParts(EncodeParts(vs) + ([SEMICOLON] + tail), args)
         == Got(Instruction((args + vs)[0], (args + vs)[1..]), tail)
    decreases |vs|
  {
    if |vs| == 1 {
      EncodedPartReads(vs[0], SEMICOLON, tail);
      assert vs == [vs[0]];
    } else {
      var more := EncodeParts(vs[1..]) + ([SEMICOLON] + tail);
      Regroup(EncodePart(vs[0]), [COMMA], EncodeParts(vs[1..]), [SEMICOLON] + tail);
      EncodedPartReads(vs[0], COMMA, more);
      EncodedPartsParse(vs[1..], args + [vs[0]], tail);
      AppendFirst(args, vs);
    }
  }

  lemma TextsSent(c: Call, instr: Instruction)
    requires Sends(c, instr)
    ensures ArgTexts([c.opcode] + c.args) == [instr.opcode] + instr.args
    ensures ShortTexts([instr.opcode] + instr.args)
  {
  }

  /**
    One encoded call, whatever follows it, parses to the instruction with exactly the texts of the call,
    a missing one arriving empty, and leaves what follows untouched.
   */
  lemma EncodedInstructionParses(c: Call, instr: Instruction, tail: JsString)
    requires Sends(c, instr)
    ensures ParseOne(EncodeInstruction(c.opcode, c.args) + tail) == Got(instr, tail)
  {
    var vs := [instr.opcode] + instr.args;
    TextsSent(c, instr);
    EncodedPartsParse(vs, [], tail);
    Associative(EncodeParts(vs), [SEMICOLON], tail);
    assert [] + vs == vs;
    assert vs[1..] == instr.args;
  }

  function EncodeAll(calls: seq<Call>): JsString {
    if calls == [] then [] else EncodeInstruction(calls[0].opcode, calls[0].args) + EncodeAll(calls[1..])
  }

  predicate SendsAll(calls: seq<Call>, instrs: seq<Instruction>) {
    |calls| == |instrs| && forall i :: 0 <= i < |calls| ==> Sends(calls[i], instrs[i])
  }

  lemma DrainGot(buffer: JsString, instr: Instruction, rest: JsString)
    requires ParseOne(buffer) == Got(instr, rest)
    ensures Drain(buffer) == Prepend([instr], Drain(rest))
  {
  }

  lemma {:induction false} EncodedStreamDrains(calls: seq<Call>, instrs: seq<Instruction>)
    requires SendsAll(calls, instrs)
    ensures Drain(EncodeAll(calls)) == Drained(instrs, [], false)
    decreases |calls|
  {
    if calls != [] {
      var later := EncodeAll(calls[1..]);
      EncodedInstructionParses(calls[0], instrs[0], later);
      DrainGot(EncodeAll(calls), instrs[0], later);
      EncodedStreamDrains(calls[1..], instrs[1..]);
      assert instrs == [instrs[0]] + instrs[1..];
    }
  }

  /**
    Wire round trip: whatever the texts contain and however the encoded stream is cut, the parser
    returns exactly the instructions with the texts encoded, never throws and keeps nothing back.
   */
  lemma WireRoundTrip(calls: seq<Call>, instrs: seq<Instruction>, chunks: seq<JsString>)
    requires SendsAll(calls, instrs)
    requires Concat(chunks) == EncodeAll(calls)
    ensures FeedAll(Run([], [], false), chunks) == Run(instrs, [], false)
  {
    EncodedStreamDrains(calls, instrs);
    ChunkingDoesNotMatter(chunks);
  }
}
