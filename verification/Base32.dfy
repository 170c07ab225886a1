/**
  The base32 codec of the TOTP module against section 6 of RFC 4648: the encoded text spells out the
  bits of the bytes. The loops keep a 32-bit accumulator that is never masked and wraps around; only
  its low `bits` bits matter at each loop head.
 */
module Base32 {
  import opened Common

  datatype Result<+T> = Ok(value: T) | Err

  const ALPHABET: string := "ABCDEFGHIJKLMNOPQRSTUVWXYZ234567"

  // ----- 32-bit operations -----

  /** The signed 32-bit integer congruent to `x`. */
  function ToInt32(x: int): (r: int)
    ensures -0x8000_0000 <= r < 0x8000_0000
  {
    var m := x % 0x1_0000_0000;
    if m < 0x8000_0000 then m else m - 0x1_0000_0000
  }

  /** `v << k`: doubling, k times, in 32 bits. */
  function Shl(v: int, k: nat): int
    decreases k, v
  {
    if k == 0 then ToInt32(v) else Shl(ToInt32(2 * v), k - 1)
  }

  /** `v >> k`: halving and rounding down, k times. */
  function Sar(v: int, k: nat): int
    decreases k, v
  {
    if k == 0 then v else Sar(v / 2, k - 1)
  }

  /** `v & (2^k - 1)`: the number that the low `k` bits of `v` spell. */
  function Low(v: int, k: nat): int
    decreases k, v
  {
    if k == 0 then 0 else 2 * Low(v / 2, k - 1) + v % 2
  }

  /** `v | b` where the low bits of `v` that `b` occupies are zero. */
  function Or(v: int, b: int): int {
    v + b
  }

  // ----- Bits -----

  /** The low `n` bits of `v`, most significant first. */
  function Bits(v: int, n: nat): (r: seq<bool>)
    ensures |r| == n
    decreases n, v
  {
    if n == 0 then [] else Bits(v / 2, n - 1) + [v % 2 == 1]
  }

  lemma {:induction false} BitsSplit(v: int, a: nat, b: nat)
    ensures Bits(v, a + b) == Bits(Sar(v, b), a) + Bits(v, b)
    decreases b
  {
    if b == 0 {
      assert Bits(v, a) + Bits(v, 0) == Bits(v, a);
    } else {
      BitsSplit(v / 2, a, b - 1);
      assert Bits(v, a + b) == Bits(v / 2, a + b - 1) + [v % 2 == 1];
      assert Bits(v, b) == Bits(v / 2, b - 1) + [v % 2 == 1];
    }
  }

  /** Adding a multiple of 2^n does not change the low `n` bits. */
  lemma {:induction false} BitsModulo(v: int, w: int, k: int, n: nat)
    requires v == w + k * Pow2(n)
    ensures Bits(v, n) == Bits(w, n)
    decreases n
  {
    if n > 0 {
      var h := k * Pow2(n - 1);
      assert k * Pow2(n) == 2 * h;
      BitsModulo(v / 2, w / 2, k, n - 1);
    }
  }

  lemma PowSum(a: nat, b: nat)
    ensures Pow2(a + b) == Pow2(a) * Pow2(b)
    decreases a
  {
    if a > 0 {
      PowSum(a - 1, b);
    }
  }

  lemma {:induction false} LowBits(v: int, n: nat)
    ensures Bits(Low(v, n), n) == Bits(v, n) && 0 <= Low(v, n) < Pow2(n)
    decreases n
  {
    if n > 0 {
      LowBits(v / 2, n - 1);
    }
  }

  lemma Pow32()
    ensures Pow2(32) == 0x1_0000_0000
  {
    assert Pow2(8) == 256;
    PowSum(8, 8);
    PowSum(16, 16);
  }

  lemma Reassociate(a: int, b: int, c: int)
    ensures a * (b * c) == (a * b) * c
  {
  }

  /** Wrapping at 32 bits adds a multiple of every smaller power of two. */
  lemma WrapAdds(x: int, n: nat) returns (k: int)
    requires n <= 32
    ensures ToInt32(x) == x + k * Pow2(n)
  {
    var j := if x % 0x1_0000_0000 < 0x8000_0000 then -(x / 0x1_0000_0000) else -(x / 0x1_0000_0000) - 1;
    k := j * Pow2(32 - n);
    Pow32();
    PowSum(32 - n, n);
    Reassociate(j, Pow2(32 - n), Pow2(n));
  }

  /** Wrapping at 32 bits keeps the low bits. */
  lemma WrapKeepsBits(x: int, n: nat)
    requires n <= 32
    ensures Bits(ToInt32(x), n) == Bits(x, n)
  {
    var k := WrapAdds(x, n);
    BitsModulo(ToInt32(x), x, k, n);
  }

  lemma {:induction false} SarOfMultiple(q: int, d: int, w: nat)
    requires 0 <= d < Pow2(w)
    ensures Sar(q * Pow2(w) + d, w) == q
    decreases w
  {
    if w > 0 {
      var h := q * Pow2(w - 1);
      assert q * Pow2(w) == 2 * h;
      SarOfMultiple(q, d / 2, w - 1);
    }
  }

  lemma WrapAgain(x: int, k: int)
    ensures ToInt32(x + k * 0x1_0000_0000) == ToInt32(x)
  {
  }

  lemma WrapOfWrapped(x: int, p: int)
    ensures ToInt32(ToInt32(x) * p) == ToInt32(x * p)
  {
    var j := WrapAdds(x, 32);
    Pow32();
    assert ToInt32(x) * p == x * p + (j * 0x1_0000_0000) * p;
    assert (j * 0x1_0000_0000) * p == (j * p) * 0x1_0000_0000;
    WrapAgain(x * p, j * p);
  }

  lemma Doubling(v: int, p: int)
    ensures 2 * v * p == v * (2 * p)
  {
  }

  lemma {:induction false} ShlValue(v: int, w: nat)
    ensures Shl(v, w) == ToInt32(v * Pow2(w))
    decreases w
  {
    if w > 0 {
      ShlValue(ToInt32(2 * v), w - 1);
      WrapOfWrapped(2 * v, Pow2(w - 1));
      Doubling(v, Pow2(w - 1));
    }
  }

  /** A shift of at most 32 places is a multiple of the power of two, wrapped or not. */
  lemma ShlMultiple(v: int, w: nat) returns (k: int)
    requires w <= 32
    ensures Shl(v, w) == (v + k) * Pow2(w)
  {
    ShlValue(v, w);
    k := WrapAdds(v * Pow2(w), w);
  }

  lemma SamePrefix<T>(a: seq<T>, b: seq<T>, c: seq<T>, d: seq<T>)
    requires |a| == |c| && a + b == c + d
    ensures a == c
  {
    assert a == (a + b)[..|a|] && c == (c + d)[..|a|];
  }

  /** A wrapped shift leaves the low bits of the accumulator where they belong. */
  lemma ShiftedBits(value: int, n: nat, w: nat, k: int)
    requires n + w <= 32 && Shl(value, w) == (value + k) * Pow2(w)
    ensures Bits(value + k, n) == Bits(value, n)
  {
    var p := Pow2(w);
    ShlValue(value, w);
    WrapKeepsBits(value * p, n + w);
    SarOfMultiple(value + k, 0, w);
    SarOfMultiple(value, 0, w);
    BitsSplit(Shl(value, w), n, w);
    BitsSplit(value * p, n, w);
    SamePrefix(Bits(value + k, n), Bits(Shl(value, w), w), Bits(value, n), Bits(value * p, w));
  }

  /** Shifting `w` new bits in: the accumulator's low bits are the old ones and the new ones. */
  lemma Absorb(value: int, n: nat, w: nat, d: int)
    requires n + w <= 32 && 0 <= d < Pow2(w)
    ensures Bits(Or(Shl(value, w), d), n + w) == Bits(value, n) + Bits(d, w)
  {
    var k := ShlMultiple(value, w);
    ShiftedBits(value, n, w, k);
    SarOfMultiple(value + k, d, w);
    BitsSplit(Shl(value, w) + d, n, w);
    BitsModulo(Shl(value, w) + d, d, value + k, w);
  }

  /** Taking the top `w` of the `n` meaningful bits out. */
  lemma Emit(value: int, n: nat, w: nat)
    requires w <= n
    ensures Bits(value, n) == Bits(Low(Sar(value, n - w), w), w) + Bits(value, n - w)
    ensures 0 <= Low(Sar(value, n - w), w) < Pow2(w)
  {
    BitsSplit(value, w, n - w);
    LowBits(Sar(value, n - w), w);
  }

  function Zeros(n: nat): (r: seq<bool>)
    ensures |r| == n && forall i :: 0 <= i < n ==> !r[i]
  {
    seq(n, _ => false)
  }

  lemma {:induction false} ZeroBits(n: nat)
    ensures Bits(0, n) == Zeros(n)
    decreases n
  {
    if n > 0 {
      ZeroBits(n - 1);
    }
  }

  /** The last, partial digit: the remaining bits followed by zeros. */
  lemma EmitPartial(value: int, n: nat, w: nat)
    requires n <= w <= 32
    ensures Bits(Low(Shl(value, w - n), w), w) == Bits(value, n) + Zeros(w - n)
    ensures 0 <= Low(Shl(value, w - n), w) < Pow2(w)
  {
    LowBits(Shl(value, w - n), w);
    Absorb(value, n, w - n, 0);
    ZeroBits(w - n);
  }

  // ----- Specification -----

  /** The bits of the values, `w` for each. */
  function AllBits(vs: seq<int>, w: nat): seq<bool> {
    if vs == [] then [] else AllBits(vs[..|vs| - 1], w) + Bits(vs[|vs| - 1], w)
  }

  lemma {:induction false} AllBitsLength(vs: seq<int>, w: nat)
    ensures |AllBits(vs, w)| == w * |vs|
  {
    if vs != [] {
      var k: nat := |vs| - 1;
      AllBitsLength(vs[..k], w);
      assert w * (k + 1) == w * k + w;
    }
  }

  lemma AllBitsAppend(vs: seq<int>, v: int, w: nat)
    ensures AllBits(vs + [v], w) == AllBits(vs, w) + Bits(v, w)
  {
    assert (vs + [v])[..|vs|] == vs;
  }

  predicate InRange(vs: seq<int>, w: nat) {
    forall i :: 0 <= i < |vs| ==> 0 <= vs[i] < Pow2(w)
  }

  /** `digits` spell the bits of `bytes`, filled up with zeros to whole digits. */
  predicate Spells(digits: seq<int>, bytes: seq<int>) {
    && InRange(digits, 5)
    && 0 <= 5 * |digits| - 8 * |bytes| < 5
    && AllBits(digits, 5) == AllBits(bytes, 8) + Zeros(5 * |digits| - 8 * |bytes|)
  }

  /** `bytes` are the whole bytes among the bits of `digits`. */
  predicate Packs(bytes: seq<int>, digits: seq<int>) {
    && InRange(bytes, 8)
    && 0 <= 5 * |digits| - 8 * |bytes| < 8
    && AllBits(bytes, 8) <= AllBits(digits, 5)
  }

  function DigitChar(d: int): char {
    if 0 <= d < 32 then ALPHABET[d] else '?'
  }

  function Text(digits: seq<int>): (r: string)
    ensures |r| == |digits|
  {
    if digits == [] then "" else Text(digits[..|digits| - 1]) + [DigitChar(digits[|digits| - 1])]
  }

  function Pads(n: nat): (r: string)
    ensures |r| == n
  {
    if n == 0 then "" else Pads(n - 1) + "="
  }

  /** `out` is the RFC 4648 encoding of `bytes`: its digits, padded to a multiple of eight. */
  predicate IsEncoding(out: string, digits: seq<int>, bytes: seq<int>) {
    && Spells(digits, bytes)
    && |digits| <= |out| < |digits| + 8 && |out| % 8 == 0
    && out == Text(digits) + Pads(|out| - |digits|)
  }

  /**
    `toUpperCase` of one character. Beside the ASCII letters, the dotless i, the long s, the sharp s and
    the Latin ligatures become ASCII letters. Upper-casing anything else leaves some character outside
    the alphabet, so it is not spelled out.
   */
  function Upper(c: char): string {
    if 'a' <= c <= 'z' then [c - 'a' + 'A']
    else if c == '\U{0131}' then "I"
    else if c == '\U{017F}' then "S"
    else if c == '\U{00DF}' then "SS"
    else if c == '\U{FB00}' then "FF"
    else if c == '\U{FB01}' then "FI"
    else if c == '\U{FB02}' then "FL"
    else if c == '\U{FB03}' then "FFI"
    else if c == '\U{FB04}' then "FFL"
    else if c == '\U{FB05}' || c == '\U{FB06}' then "ST"
    else [c]
  }

  /** The place of a lower-case letter is the place of its capital in the alphabet. */
  lemma LowerCaseReads(c: char)
    requires 'a' <= c <= 'z'
    ensures |Upper(c)| == 1 && 'A' <= Upper(c)[0] <= 'Z'
    ensures Upper(c)[0] as int - 'A' as int == c as int - 'a' as int
  {
  }

  /** Capitals, digits and the pad stay; a few other characters turn into letters of the alphabet. */
  lemma OthersUpper(c: char)
    requires 'A' <= c <= 'Z' || '0' <= c <= '9' || c == '='
    ensures Upper(c) == [c]
    ensures Upper('\U{0131}') == "I" && Upper('\U{017F}') == "S" && Upper('\U{00DF}') == "SS"
    ensures Upper('\U{FB00}') == "FF" && Upper('\U{FB01}') == "FI" && Upper('\U{FB02}') == "FL"
    ensures Upper('\U{FB03}') == "FFI" && Upper('\U{FB04}') == "FFL"
    ensures Upper('\U{FB05}') == "ST" && Upper('\U{FB06}') == "ST"
  {
  }

  function ToUpper(s: string): string {
    if s == [] then [] else ToUpper(s[..|s| - 1]) + Upper(s[|s| - 1])
  }

  function StripPads(s: string): string {
    if s != [] && s[|s| - 1] == '=' then StripPads(s[..|s| - 1]) else s
  }

  /** `ALPHABET.indexOf(c)` */
  function DigitValue(c: char): int {
    if 'A' <= c <= 'Z' then c as int - 'A' as int
    else if '2' <= c <= '7' then c as int - '2' as int + 26
    else -1
  }

  function Values(s: string): (r: seq<int>)
    ensures |r| == |s|
  {
    if s == [] then [] else Values(s[..|s| - 1]) + [DigitValue(s[|s| - 1])]
  }

  // ----- The loops -----

  /**
    The state of either loop: the outputs of width `w` in `done`, then the low `bits` bits of the
    accumulator, spell the first `i` inputs of width `v`.
   */
  ghost predicate Carried(done: seq<int>, w: nat, value: int, bits: nat, source: seq<int>, v: nat, i: nat) {
    && i <= |source|
    && InRange(done, w)
    && AllBits(done, w) + Bits(value, bits) == AllBits(source[..i], v)
  }

  lemma TakeOne(vs: seq<int>, i: nat, w: nat)
    requires i < |vs|
    ensures AllBits(vs[..i + 1], w) == AllBits(vs[..i], w) + Bits(vs[i], w)
  {
    assert vs[..i + 1] == vs[..i] + [vs[i]];
    AllBitsAppend(vs[..i], vs[i], w);
  }

  lemma CarryStart(w: nat, source: seq<int>, v: nat)
    ensures Carried([], w, 0, 0, source, v, 0)
  {
  }

  lemma CarryIn(done: seq<int>, w: nat, value: int, bits: nat, source: seq<int>, v: nat, i: nat)
    requires Carried(done, w, value, bits, source, v, i)
    requires i < |source| && 0 <= source[i] < Pow2(v) && bits + v <= 32
    ensures Carried(done, w, Or(Shl(value, v), source[i]), bits + v, source, v, i + 1)
  {
    Absorb(value, bits, v, source[i]);
    TakeOne(source, i, v);
    Associative(AllBits(done, w), Bits(value, bits), Bits(source[i], v));
  }

  lemma {:induction false} CarryOut(done: seq<int>, w: nat, value: int, bits: nat,
                                    source: seq<int>, v: nat, i: nat, d: int)
    requires Carried(done, w, value, bits, source, v, i) && bits >= w && d == Low(Sar(value, bits - w), w)
    ensures Carried(done + [d], w, value, bits - w, source, v, i)
  {
    Emit(value, bits, w);
    AllBitsAppend(done, d, w);
    Associative(AllBits(done, w), Bits(d, w), Bits(value, bits - w));
  }

  lemma {:induction false} CarriedLength(done: seq<int>, w: nat, value: int, bits: nat, source: seq<int>, v: nat)
    requires Carried(done, w, value, bits, source, v, |source|)
    ensures w * |done| + bits == v * |source|
    ensures AllBits(done, w) + Bits(value, bits) == AllBits(source, v)
  {
    assert source[..|source|] == source;
    AllBitsLength(done, w);
    AllBitsLength(source, v);
  }

  lemma {:induction false} LastDigit(digits: seq<int>, value: int, n: nat, bytes: seq<int>, d: int)
    requires Carried(digits, 5, value, n, bytes, 8, |bytes|) && 0 < n < 5
    requires d == Low(Shl(value, 5 - n), 5)
    ensures Spells(digits + [d], bytes)
  {
    hide AllBits, Bits, Low, Shl, Zeros, Pow2;
    CarriedLength(digits, 5, value, n, bytes, 8);
    EmitPartial(value, n, 5);
    PartialBits(digits, value, n, d);
    assert 5 * |digits + [d]| - 8 * |bytes| == 5 - n;
  }

  lemma PartialBits(digits: seq<int>, value: int, n: nat, d: int)
    requires n < 5 && Bits(d, 5) == Bits(value, n) + Zeros(5 - n)
    ensures AllBits(digits + [d], 5) == (AllBits(digits, 5) + Bits(value, n)) + Zeros(5 - n)
  {
    AllBitsAppend(digits, d, 5);
    Associative(AllBits(digits, 5), Bits(value, n), Zeros(5 - n));
  }

  lemma NoPartial(digits: seq<int>, value: int, bytes: seq<int>)
    requires Carried(digits, 5, value, 0, bytes, 8, |bytes|)
    ensures Spells(digits, bytes)
  {
    CarriedLength(digits, 5, value, 0, bytes, 8);
    assert AllBits(digits, 5) + Bits(value, 0) == AllBits(digits, 5);
    assert AllBits(bytes, 8) + Zeros(0) == AllBits(bytes, 8);
  }

  lemma TextAppend(digits: seq<int>, d: int)
    ensures Text(digits + [d]) == Text(digits) + [DigitChar(d)]
  {
    assert (digits + [d])[..|digits|] == digits;
  }

  /** Padding is under way, to at most `blocks` groups of eight characters. */
  ghost predicate Padded(out: string, digits: seq<int>, blocks: nat) {
    && |digits| <= |out| <= 8 * blocks < |digits| + 8
    && out == Text(digits) + Pads(|out| - |digits|)
  }

  lemma PadStart(digits: seq<int>) returns (blocks: nat)
    ensures Padded(Text(digits), digits, blocks)
  {
    blocks := (|digits| + 7) / 8;
    assert Text(digits) + Pads(0) == Text(digits);
  }

  lemma PadStep(out: string, digits: seq<int>, blocks: nat)
    requires Padded(out, digits, blocks) && |out| % 8 != 0
    ensures Padded(out + "=", digits, blocks) && |out| < 8 * blocks
  {
    Associative(Text(digits), Pads(|out| - |digits|), "=");
  }

  lemma PadEnd(out: string, digits: seq<int>, blocks: nat, bytes: seq<int>)
    requires Padded(out, digits, blocks) && |out| % 8 == 0 && Spells(digits, bytes)
    ensures IsEncoding(out, digits, bytes)
  {
  }

  lemma ByteAt(bytes: seq<int>, i: nat)
    requires InRange(bytes, 8) && i < |bytes|
    ensures 0 <= bytes[i] < Pow2(8)
  {
  }

  lemma NoText()
    ensures Text([]) == ""
  {
  }

  method Encode(bytes: seq<int>) returns (out: string)
    requires InRange(bytes, 8)
    ensures exists digits :: IsEncoding(out, digits, bytes)
    ensures |out| == 8 * ((|bytes| + 4) / 5)
  {
    hide *;
    var bits := 0;
    var value := 0;
    out := "";
    ghost var digits: seq<int> := [];
    NoText();
    CarryStart(5, bytes, 8);
    for i := 0 to |bytes|
      invariant 0 <= bits < 5 && out == Text(digits)
      invariant Carried(digits, 5, value, bits, bytes, 8, i)
    {
      ByteAt(bytes, i);
      CarryIn(digits, 5, value, bits, bytes, 8, i);
      value := Or(Shl(value, 8), bytes[i]);
      bits := bits + 8;
      while bits >= 5
        invariant 0 <= bits < 13 && out == Text(digits)
        invariant Carried(digits, 5, value, bits, bytes, 8, i + 1)
      {
        var d := Low(Sar(value, bits - 5), 5);
        CarryOut(digits, 5, value, bits, bytes, 8, i + 1, d);
        bits := bits - 5;
        TextAppend(digits, d);
        out := out + [DigitChar(d)];
        digits := digits + [d];
      }
    }
    if bits > 0 {
      var d := Low(Shl(value, 5 - bits), 5);
      LastDigit(digits, value, bits, bytes, d);
      TextAppend(digits, d);
      out := out + [DigitChar(d)];
      digits := digits + [d];
    } else {
      NoPartial(digits, value, bytes);
    }
    ghost var blocks := PadStart(digits);
    while |out| % 8 != 0
      invariant Padded(out, digits, blocks)
      decreases 8 * blocks - |out|
    {
      PadStep(out, digits, blocks);
      out := out + "=";
    }
    PadEnd(out, digits, blocks, bytes);
    EncodedLength(bytes, out, digits);
  }

  lemma {:induction false} ValuesAt(s: string, i: nat)
    requires i < |s|
    ensures Values(s)[i] == DigitValue(s[i])
  {
    if i < |s| - 1 {
      ValuesAt(s[..|s| - 1], i);
    }
  }

  /** Decoding succeeds exactly on alphabet characters, and then gives the whole bytes they hold. */
  predicate DecodesTo(input: string, r: Result<seq<int>>) {
    var s := StripPads(ToUpper(input));
    if forall c :: c in s ==> DigitValue(c) >= 0 then r.Ok? && Packs(r.value, Values(s)) else r.Err?
  }

  ghost predicate ValidUpTo(s: string, i: nat) {
    i <= |s| && forall j :: 0 <= j < i ==> DigitValue(s[j]) >= 0
  }

  lemma Refused(input: string, i: nat)
    requires var s := StripPads(ToUpper(input)); i < |s| && DigitValue(s[i]) < 0
    ensures DecodesTo(input, Err)
  {
    var s := StripPads(ToUpper(input));
    assert s[i] in s;
  }

  lemma Accepted(input: string, result: seq<int>, value: int, bits: nat)
    requires var s := StripPads(ToUpper(input));
             ValidUpTo(s, |s|) && Carried(result, 8, value, bits, Values(s), 5, |s|) && bits < 8
    ensures DecodesTo(input, Ok(result))
  {
    var s := StripPads(ToUpper(input));
    WholeBytes(result, value, bits, Values(s));
  }

  lemma WholeBytes(result: seq<int>, value: int, bits: nat, values: seq<int>)
    requires Carried(result, 8, value, bits, values, 5, |values|) && bits < 8
    ensures Packs(result, values)
  {
    CarriedLength(result, 8, value, bits, values, 5);
  }

  lemma NothingRead(s: string)
    ensures ValidUpTo(s, 0)
  {
  }

  /** One character: its digit is valid and joins the accumulator. */
  lemma {:induction false} ReadOne(s: string, done: seq<int>, value: int, bits: nat, i: nat)
    requires i < |s| && ValidUpTo(s, i) && DigitValue(s[i]) >= 0
    requires Carried(done, 8, value, bits, Values(s), 5, i) && bits < 8
    ensures ValidUpTo(s, i + 1)
    ensures Carried(done, 8, Or(Shl(value, 5), DigitValue(s[i])), bits + 5, Values(s), 5, i + 1)
  {
    ValuesAt(s, i);
    DigitBelow32(s[i]);
    CarryIn(done, 8, value, bits, Values(s), 5, i);
  }

  method Decode(input: string) returns (r: Result<seq<int>>)
    ensures DecodesTo(input, r)
  {
    hide *;
    var s := StripPads(ToUpper(input));
    var result: seq<int> := [];
    var bits := 0;
    var value := 0;
    NothingRead(s);
    CarryStart(8, Values(s), 5);
    for i := 0 to |s|
      invariant 0 <= bits < 8 && ValidUpTo(s, i)
      invariant Carried(result, 8, value, bits, Values(s), 5, i)
    {
      var idx := DigitValue(s[i]);
      if idx < 0 {
        Refused(input, i);
        return Err;
      }
      ReadOne(s, result, value, bits, i);
      value := Or(Shl(value, 5), idx);
      bits := bits + 5;
      if bits >= 8 {
        var byte := Low(Sar(value, bits - 8), 8);
        CarryOut(result, 8, value, bits, Values(s), 5, i + 1, byte);
        bits := bits - 8;
        result := result + [byte];
      }
    }
    Accepted(input, result, value, bits);
    return Ok(result);
  }

  lemma DigitBelow32(c: char)
    ensures DigitValue(c) < Pow2(5)
  {
    assert Pow2(5) == 32;
  }

  // ----- Round trip -----

  lemma {:induction false} BitsInjective(v: int, w: int, n: nat)
    requires 0 <= v < Pow2(n) && 0 <= w < Pow2(n) && Bits(v, n) == Bits(w, n)
    ensures v == w
    decreases n
  {
    if n > 0 {
      var a, b := Bits(v / 2, n - 1), Bits(w / 2, n - 1);
      assert Bits(v, n)[..n - 1] == a && Bits(w, n)[..n - 1] == b;
      assert Bits(v, n)[n - 1] == (v % 2 == 1) && Bits(w, n)[n - 1] == (w % 2 == 1);
      BitsInjective(v / 2, w / 2, n - 1);
    }
  }

  lemma PrefixesEqual<T>(a: seq<T>, b: seq<T>, c: seq<T>, d: seq<T>)
    requires |a| == |c| && a + b <= c + d && |b| == |d|
    ensures a == c && b == d
  {
    assert a + b == c + d;
    assert a == (a + b)[..|a|] && c == (c + d)[..|a|];
    assert b == (a + b)[|a|..] && d == (c + d)[|a|..];
  }

  /** The bits of the last value come after those of the front. */
  lemma {:induction false} LastBits(vs: seq<int>, w: nat)
    requires vs != []
    ensures var k := |vs| - 1;
            && AllBits(vs, w) == AllBits(vs[..k], w) + Bits(vs[k], w)
            && |AllBits(vs[..k], w)| == w * k
            && |Bits(vs[k], w)| == w
  {
    AllBitsLength(vs[..|vs| - 1], w);
  }

  lemma PartsInRange(vs: seq<int>, w: nat)
    requires vs != [] && InRange(vs, w)
    ensures InRange(vs[..|vs| - 1], w) && 0 <= vs[|vs| - 1] < Pow2(w)
  {
  }

  lemma FrontAndLast<T>(a: seq<T>, b: seq<T>)
    requires a != [] && b != [] && a[..|a| - 1] == b[..|b| - 1] && a[|a| - 1] == b[|b| - 1]
    ensures a == b
  {
    assert a == a[..|a| - 1] + [a[|a| - 1]] && b == b[..|b| - 1] + [b[|b| - 1]];
  }

  lemma {:induction false} AllBitsInjective(xs: seq<int>, ys: seq<int>, w: nat)
    requires |xs| == |ys| && InRange(xs, w) && InRange(ys, w) && AllBits(xs, w) == AllBits(ys, w)
    ensures xs == ys
    decreases |xs|
  {
    hide *;
    if xs != [] {
      var k := |xs| - 1;
      LastBits(xs, w);
      LastBits(ys, w);
      PartsInRange(xs, w);
      PartsInRange(ys, w);
      PrefixesEqual(AllBits(xs[..k], w), Bits(xs[k], w), AllBits(ys[..k], w), Bits(ys[k], w));
      AllBitsInjective(xs[..k], ys[..k], w);
      BitsInjective(xs[k], ys[k], w);
      FrontAndLast(xs, ys);
    }
  }

  lemma DigitRoundTrip(d: int)
    requires 0 <= d < 32
    ensures DigitValue(DigitChar(d)) == d && Upper(DigitChar(d)) == [DigitChar(d)] && DigitChar(d) != '='
  {
  }

  lemma TextOneMore(t: string, c: char)
    requires c != '='
    ensures Values(t + [c]) == Values(t) + [DigitValue(c)]
    ensures ToUpper(t + [c]) == ToUpper(t) + Upper(c)
    ensures StripPads(t + [c]) == t + [c]
  {
    assert (t + [c])[..|t|] == t;
  }

  lemma {:induction false} TextRoundTrip(digits: seq<int>)
    requires InRange(digits, 5)
    ensures Values(Text(digits)) == digits && ToUpper(Text(digits)) == Text(digits)
    ensures StripPads(Text(digits)) == Text(digits)
    ensures forall c :: c in Text(digits) ==> DigitValue(c) >= 0
    decreases |digits|
  {
    hide *;
    if digits == [] {
      NoTextReads();
    } else {
      var k := |digits| - 1;
      PartsInRange(digits, 5);
      DigitBound(digits[k]);
      TextRoundTrip(digits[..k]);
      DigitRoundTrip(digits[k]);
      FrontAndLast(digits[..k] + [digits[k]], digits);
      TextAppend(digits[..k], digits[k]);
      TextOneMore(Text(digits[..k]), DigitChar(digits[k]));
    }
  }

  lemma NoTextReads()
    ensures Values(Text([])) == [] && ToUpper(Text([])) == Text([]) && StripPads(Text([])) == Text([])
    ensures Text([]) == ""
  {
  }

  lemma DigitBound(d: int)
    requires d < Pow2(5)
    ensures d < 32
  {
    assert Pow2(5) == 32;
  }

  lemma OneMorePad(s: string)
    ensures ToUpper(s + "=") == ToUpper(s) + "=" && StripPads(s + "=") == StripPads(s)
  {
    assert (s + "=")[..|s|] == s;
  }

  lemma {:induction false} PadsAreStripped(t: string, n: nat)
    requires ToUpper(t) == t && StripPads(t) == t
    ensures ToUpper(t + Pads(n)) == t + Pads(n) && StripPads(t + Pads(n)) == t
    decreases n
  {
    if n == 0 {
      assert t + Pads(0) == t;
    } else {
      PadsAreStripped(t, n - 1);
      OneMorePad(t + Pads(n - 1));
      Associative(t, Pads(n - 1), "=");
    }
  }

  lemma SpelledThenPacked(bytes: seq<int>, digits: seq<int>, result: seq<int>)
    requires InRange(bytes, 8) && Spells(digits, bytes) && Packs(result, digits)
    ensures result == bytes
  {
    assert |result| == |bytes|;
    AllBitsLength(result, 8);
    AllBitsLength(bytes, 8);
    var tail := AllBits(digits, 5)[|AllBits(result, 8)|..];
    assert AllBits(result, 8) + tail == AllBits(digits, 5);
    SamePrefix(AllBits(result, 8), tail, AllBits(bytes, 8), Zeros(5 * |digits| - 8 * |bytes|));
    AllBitsInjective(result, bytes, 8);
  }

  /** The decoder reads back exactly the digits of an encoding. */
  lemma DigitsRead(bytes: seq<int>, out: string, digits: seq<int>)
    requires IsEncoding(out, digits, bytes)
    ensures StripPads(ToUpper(out)) == Text(digits) && Values(Text(digits)) == digits
    ensures forall c :: c in Text(digits) ==> DigitValue(c) >= 0
  {
    var t := Text(digits);
    var n := |out| - |digits|;
    assert out == t + Pads(n);
    TextRoundTrip(digits);
    PadsAreStripped(t, n);
  }

  /** Decoding an encoding gives the bytes back, for every byte sequence. */
  lemma RoundTrip(bytes: seq<int>, out: string, r: Result<seq<int>>)
    requires InRange(bytes, 8)
    requires exists digits :: IsEncoding(out, digits, bytes)
    requires DecodesTo(out, r)
    ensures r == Ok(bytes)
  {
    var digits :| IsEncoding(out, digits, bytes);
    DigitsRead(bytes, out, digits);
    SpelledThenPacked(bytes, digits, r.value);
  }

  /** The two loops one after the other give every byte sequence back. */
  method EncodeThenDecode(bytes: seq<int>) returns (r: Result<seq<int>>)
    requires InRange(bytes, 8)
    ensures r == Ok(bytes)
  {
    hide *;
    var out := Encode(bytes);
    r := Decode(out);
    RoundTrip(bytes, out, r);
  }

  /** Eight characters for every five bytes begun. */
  lemma EncodedLength(bytes: seq<int>, out: string, digits: seq<int>)
    requires IsEncoding(out, digits, bytes)
    ensures |out| == 8 * ((|bytes| + 4) / 5)
  {
    LengthOf(|bytes|, |digits|, |out|);
  }

  lemma LengthOf(n: nat, d: nat, k: nat)
    requires 0 <= 5 * d - 8 * n < 5 && d <= k < d + 8 && k % 8 == 0
    ensures k == 8 * ((n + 4) / 5)
  {
    var q, r := n / 5, n % 5;
    assert n == 5 * q + r;
    assert 8 * q <= d <= 8 * q + 8;
    assert r == 0 ==> d == 8 * q;
    assert r > 0 ==> 8 * q < d;
  }

  /** The encoding of a byte sequence is unique. */
  lemma EncodingUnique(bytes: seq<int>, out: string, digits: seq<int>, out': string, digits': seq<int>)
    requires IsEncoding(out, digits, bytes) && IsEncoding(out', digits', bytes)
    ensures out == out'
  {
    AllBitsInjective(digits, digits', 5);
    EncodedLength(bytes, out, digits);
    EncodedLength(bytes, out', digits');
  }
}
