/** The UTF-8 codec of the input editor: `InputLine::from_utf8` and `InputLine::to_utf8`.

    The codec is wider than RFC 3629 section 3: overlong forms, surrogates and every value up to
    0x1FFFFF are accepted. Malformed bytes are skipped one at a time and control characters are
    filtered out of what is decoded. */
module Utf8 {
  import opened Seqs

  type Byte = bv8
  /** `char32_t` */
  type CodePoint = bv32

  const MAX_CODE_POINT: CodePoint := 0x1FFFFF
  const NEWLINE: CodePoint := 10

  /** What the decoder can produce: no control character, nothing above four bytes' worth of bits. */
  predicate IsClean(cp: CodePoint) {
    32 <= cp <= MAX_CODE_POINT && cp != 127
  }

  ghost predicate AllClean(cs: seq<CodePoint>) {
    forall k | 0 <= k < |cs| :: IsClean(cs[k])
  }

  /** Code points that four bytes can carry. */
  ghost predicate Encodable(cs: seq<CodePoint>) {
    forall k | 0 <= k < |cs| :: cs[k] <= MAX_CODE_POINT
  }

  predicate IsContinuation(b: Byte) {
    b & 0xC0 == 0x80
  }

  // ---------------------------------------------------------------------------------------------
  // Encoding
  // ---------------------------------------------------------------------------------------------

  /** `static_cast<char>`: keeps the low eight bits. */
  function LowByte(x: CodePoint): Byte {
    (x & 0xFF) as Byte
  }

  function Lead2(cp: CodePoint): Byte { LowByte(0xC0 | (cp >> 6)) }

  function Lead3(cp: CodePoint): Byte { LowByte(0xE0 | (cp >> 12)) }

  function Lead4(cp: CodePoint): Byte { LowByte(0xF0 | (cp >> 18)) }

  /** The continuation byte that carries bits 12 to 17. */
  function High(cp: CodePoint): Byte { LowByte(0x80 | ((cp >> 12) & 0x3F)) }

  /** The continuation byte that carries bits 6 to 11. */
  function Middle(cp: CodePoint): Byte { LowByte(0x80 | ((cp >> 6) & 0x3F)) }

  /** The continuation byte that carries bits 0 to 5. */
  function Low(cp: CodePoint): Byte { LowByte(0x80 | (cp & 0x3F)) }

  function EncodeOne(cp: CodePoint): (bytes: seq<Byte>)
    ensures 1 <= |bytes| <= 4
  {
    if cp < 0x80 then [LowByte(cp)]
    else if cp < 0x800 then [Lead2(cp), Low(cp)]
    else if cp < 0x10000 then [Lead3(cp), Middle(cp), Low(cp)]
    else [Lead4(cp), High(cp), Middle(cp), Low(cp)]
  }

  function Encode(cs: seq<CodePoint>): seq<Byte> {
    FlatMap(EncodeOne, cs)
  }

  /** Appends byte by byte what one code point encodes to. */
  method AppendEncoded(out: seq<Byte>, cp: CodePoint) returns (r: seq<Byte>)
    ensures r == out + EncodeOne(cp)
  {
    if cp < 0x80 {
      r := out + [LowByte(cp)];
    } else if cp < 0x800 {
      r := out + [Lead2(cp)];
      r := r + [Low(cp)];
    } else if cp < 0x10000 {
      r := out + [Lead3(cp)];
      r := r + [Middle(cp)];
      r := r + [Low(cp)];
    } else {
      r := out + [Lead4(cp)];
      r := r + [High(cp)];
      r := r + [Middle(cp)];
      r := r + [Low(cp)];
    }
  }

  /** `to_utf8` */
  method ToUtf8(s: seq<CodePoint>) returns (out: seq<Byte>)
    ensures out == Encode(s)
  {
    out := [];
    for k := 0 to |s|
      invariant out == Encode(s[..k])
    {
      assert s[..k + 1] == s[..k] + [s[k]];
      FlatMapSnoc(EncodeOne, s[..k], s[k]);
      out := AppendEncoded(out, s[k]);
    }
    assert s[..|s|] == s;
  }

  // ---------------------------------------------------------------------------------------------
  // Decoding
  // ---------------------------------------------------------------------------------------------

  predicate IsAscii(b: Byte) { b < 0x80 }

  predicate IsLead2(b: Byte) { b & 0xE0 == 0xC0 }

  predicate IsLead3(b: Byte) { b & 0xF0 == 0xE0 }

  predicate IsLead4(b: Byte) { b & 0xF8 == 0xF0 }

  /** How many bytes the lead byte announces; 0 for a byte that cannot start a sequence. */
  function LeadLength(b: Byte): (n: nat)
    ensures n <= 4
    ensures IsContinuation(b) ==> n == 0
  {
    if IsAscii(b) then 1
    else if IsLead2(b) then 2
    else if IsLead3(b) then 3
    else if IsLead4(b) then 4
    else 0
  }

  function Widen(b: Byte): CodePoint { b as CodePoint }

  /** The payload bits of a lead byte that announces `n` bytes. */
  function LeadBits(b: Byte, n: nat): CodePoint {
    if n == 1 then Widen(b)
    else if n == 2 then Widen(b & 0x1F)
    else if n == 3 then Widen(b & 0x0F)
    else Widen(b & 0x07)
  }

  /** Shifts the six payload bits of a continuation byte into the code point. */
  function ShiftIn(cp: CodePoint, next: Byte): CodePoint {
    (cp << 6) | Widen(next & 0x3F)
  }

  function Assemble(lead: CodePoint, tail: seq<Byte>): CodePoint {
    if tail == [] then lead else ShiftIn(Assemble(lead, tail[..|tail| - 1]), tail[|tail| - 1])
  }

  /** The filter after a complete sequence: carriage returns and controls vanish, a tab is a space. */
  function Filter(cp: CodePoint): (cs: seq<CodePoint>)
    ensures |cs| <= 1
    ensures cp <= MAX_CODE_POINT ==> AllClean(cs)
    ensures cp <= MAX_CODE_POINT ==> (cs == [cp] <==> IsClean(cp))
  {
    if cp == 13 then []
    else
      var cp' := if cp == 9 then 32 else cp;
      if cp' < 32 || cp' == 127 then [] else [cp']
  }

  predicate AllContinuation(tail: seq<Byte>) {
    forall k | 0 <= k < |tail| :: IsContinuation(tail[k])
  }

  /** Length of the complete sequence at the front of `s`, or 0 when there is none. */
  function SequenceLength(s: seq<Byte>): (n: nat)
    requires s != []
    ensures n <= |s| && n <= 4
  {
    var n := LeadLength(s[0]);
    if 1 <= n <= |s| && AllContinuation(s[1..n]) then n else 0
  }

  /** The code point spelt by a complete sequence. */
  function SequenceValue(s: seq<Byte>): CodePoint
    requires s != []
  {
    Assemble(LeadBits(s[0], |s|), s[1..])
  }

  /** How far one turn of the decoder moves: over a complete sequence, or past one skipped byte. */
  function Width(s: seq<Byte>): (k: nat)
    requires s != []
    ensures 1 <= k <= |s|
  {
    if SequenceLength(s) == 0 then 1 else SequenceLength(s)
  }

  /** What one turn of the decoder appends. */
  function Emitted(s: seq<Byte>): seq<CodePoint>
    requires s != []
  {
    var n := SequenceLength(s);
    if n == 0 then [] else Filter(SequenceValue(s[..n]))
  }

  function Decode(s: seq<Byte>): seq<CodePoint>
    decreases |s|
  {
    if s == [] then [] else Emitted(s) + Decode(s[Width(s)..])
  }

  /** The inner loop of the decoder: the `bytes - 1` bytes after position `i`. */
  method ReadTail(s: seq<Byte>, i: nat, bytes: nat, lead: CodePoint) returns (valid: bool, cp: CodePoint)
    requires 1 <= bytes && i + bytes <= |s|
    ensures valid == AllContinuation(s[i + 1..i + bytes])
    ensures valid ==> cp == Assemble(lead, s[i + 1..i + bytes])
  {
    valid, cp := true, lead;
    var b := 1;
    while b < bytes
      invariant 1 <= b <= bytes && valid
      invariant AllContinuation(s[i + 1..i + b]) && cp == Assemble(lead, s[i + 1..i + b])
    {
      var next := s[i + b];
      if !IsContinuation(next) {
        valid := false;
        assert s[i + 1..i + bytes][b - 1] == next;
        break;
      }
      assert s[i + 1..i + b + 1][..b - 1] == s[i + 1..i + b];
      cp := ShiftIn(cp, next);
      b := b + 1;
    }
  }

  /** One turn of the decoder's outer loop up to the filter: `n` is 0 when the byte at `i` is skipped. */
  method ReadSequence(s: seq<Byte>, i: nat) returns (n: nat, cp: CodePoint)
    requires i < |s|
    ensures n == SequenceLength(s[i..])
    ensures n != 0 ==> cp == SequenceValue(s[i..][..n])
  {
    var c := s[i];
    var bytes: nat;
    LeadsAreExclusive(c);
    if IsAscii(c) {
      cp, bytes := LeadBits(c, 1), 1;
    } else if IsLead2(c) && i + 1 < |s| {
      cp, bytes := LeadBits(c, 2), 2;
    } else if IsLead3(c) && i + 2 < |s| {
      cp, bytes := LeadBits(c, 3), 3;
    } else if IsLead4(c) && i + 3 < |s| {
      cp, bytes := LeadBits(c, 4), 4;
    } else {
      return 0, 0;
    }
    assert s[i..][1..bytes] == s[i + 1..i + bytes] == s[i..][..bytes][1..];
    var valid;
    valid, cp := ReadTail(s, i, bytes, cp);
    n := if valid then bytes else 0;
  }

  /** The end of the loop body: the filter. */
  method AppendFiltered(out: seq<CodePoint>, c: CodePoint) returns (r: seq<CodePoint>)
    ensures r == out + Filter(c)
  {
    var cp := c;
    if cp == 13 { return out; }
    if cp == 9 { cp := 32; }
    if cp < 32 || cp == 127 { return out; }
    r := out + [cp];
  }

  /** The whole loop body. */
  method DecodeTurn(s: seq<Byte>, i: nat, out: seq<CodePoint>) returns (j: nat, r: seq<CodePoint>)
    requires i < |s|
    ensures j == i + Width(s[i..])
    ensures r == out + Emitted(s[i..])
  {
    var n, cp := ReadSequence(s, i);
    if n == 0 {
      return i + 1, out;
    }
    j := i + n;
    r := AppendFiltered(out, cp);
  }

  ghost predicate DecodedUpTo(s: seq<Byte>, i: nat, out: seq<CodePoint>)
    requires i <= |s|
  {
    Decode(s) == out + Decode(s[i..])
  }

  lemma TurnKeepsProgress(s: seq<Byte>, i: nat, out: seq<CodePoint>)
    requires i < |s| && DecodedUpTo(s, i, out)
    ensures i + Width(s[i..]) <= |s| && DecodedUpTo(s, i + Width(s[i..]), out + Emitted(s[i..]))
  {
    var rest := s[i..];
    assert rest[Width(rest)..] == s[i + Width(rest)..];
    Reassociate(out, Emitted(rest), Decode(rest[Width(rest)..]));
  }

  /** `from_utf8` */
  method FromUtf8(s: seq<Byte>) returns (out: seq<CodePoint>)
    ensures out == Decode(s)
  {
    hide Emitted, Width, Decode;
    out := [];
    var i: nat := 0;
    assert s[0..] == s && [] + Decode(s) == Decode(s);
    while i < |s|
      invariant i <= |s| && DecodedUpTo(s, i, out)
      decreases |s| - i
    {
      TurnKeepsProgress(s, i, out);
      i, out := DecodeTurn(s, i, out);
    }
    NothingLeft(s);
    assert out + [] == out;
  }

  lemma NothingLeft(s: seq<Byte>)
    ensures Decode(s[|s|..]) == []
  {
  }

  // ---------------------------------------------------------------------------------------------
  // Bit-level facts
  // ---------------------------------------------------------------------------------------------

  lemma LeadsAreExclusive(b: Byte)
    ensures IsLead2(b) ==> !IsAscii(b)
    ensures IsLead3(b) ==> !IsAscii(b) && !IsLead2(b)
    ensures IsLead4(b) ==> !IsAscii(b) && !IsLead2(b) && !IsLead3(b)
  {
  }

  lemma OneByte(cp: CodePoint)
    requires cp < 0x80
    ensures LeadLength(LowByte(cp)) == 1 && Widen(LowByte(cp)) == cp
  {
  }

  lemma TwoBytes(cp: CodePoint)
    requires 0x80 <= cp < 0x800
    ensures LeadLength(Lead2(cp)) == 2 && IsContinuation(Low(cp))
    ensures ShiftIn(LeadBits(Lead2(cp), 2), Low(cp)) == cp
  {
  }

  lemma ThreeBytes(cp: CodePoint)
    requires 0x800 <= cp < 0x10000
    ensures LeadLength(Lead3(cp)) == 3 && IsContinuation(Middle(cp)) && IsContinuation(Low(cp))
    ensures ShiftIn(ShiftIn(LeadBits(Lead3(cp), 3), Middle(cp)), Low(cp)) == cp
  {
  }

  lemma FourBytes(cp: CodePoint)
    requires 0x10000 <= cp <= MAX_CODE_POINT
    ensures LeadLength(Lead4(cp)) == 4
    ensures IsContinuation(High(cp)) && IsContinuation(Middle(cp)) && IsContinuation(Low(cp))
    ensures ShiftIn(ShiftIn(ShiftIn(LeadBits(Lead4(cp), 4), High(cp)), Middle(cp)), Low(cp)) == cp
  {
  }

  lemma Assemble1(lead: CodePoint, a: Byte)
    ensures Assemble(lead, [a]) == ShiftIn(lead, a)
  {
    assert [a][..0] == [];
  }

  lemma Assemble2(lead: CodePoint, a: Byte, b: Byte)
    ensures Assemble(lead, [a, b]) == ShiftIn(ShiftIn(lead, a), b)
  {
    Assemble1(lead, a);
    assert [a, b][..1] == [a];
  }

  lemma Assemble3(lead: CodePoint, a: Byte, b: Byte, c: Byte)
    ensures Assemble(lead, [a, b, c]) == ShiftIn(ShiftIn(ShiftIn(lead, a), b), c)
  {
    Assemble2(lead, a, b);
    assert [a, b, c][..2] == [a, b];
  }

  /** One encoded code point is one complete sequence that spells it. */
  lemma EncodedSequence(cp: CodePoint)
    requires cp <= MAX_CODE_POINT
    ensures var e := EncodeOne(cp);
            LeadLength(e[0]) == |e| && AllContinuation(e[1..]) && SequenceValue(e) == cp
  {
    var e := EncodeOne(cp);
    if cp < 0x80 {
      OneByte(cp);
    } else if cp < 0x800 {
      TwoBytes(cp);
      assert e[1..] == [Low(cp)];
      Assemble1(LeadBits(Lead2(cp), 2), Low(cp));
    } else if cp < 0x10000 {
      ThreeBytes(cp);
      assert e[1..] == [Middle(cp), Low(cp)];
      Assemble2(LeadBits(Lead3(cp), 3), Middle(cp), Low(cp));
    } else {
      FourBytes(cp);
      assert e[1..] == [High(cp), Middle(cp), Low(cp)];
      Assemble3(LeadBits(Lead4(cp), 4), High(cp), Middle(cp), Low(cp));
    }
  }

  // ---------------------------------------------------------------------------------------------
  // Laws of the codec
  // ---------------------------------------------------------------------------------------------

  /** The decoder reads back an encoded code point, whatever follows it. */
  lemma DecodeAfterEncodeOne(cp: CodePoint, rest: seq<Byte>)
    requires cp <= MAX_CODE_POINT
    ensures Decode(EncodeOne(cp) + rest) == Filter(cp) + Decode(rest)
  {
    var e := EncodeOne(cp);
    var s := e + rest;
    EncodedSequence(cp);
    assert s[0] == e[0] && s[1..|e|] == e[1..] && s[..|e|] == e && s[|e|..] == rest;
    assert Emitted(s) == Filter(cp) && Width(s) == |e|;
  }

  /** Decoding undoes encoding up to the filter, for everything that four bytes can carry. */
  lemma DecodeEncode(cs: seq<CodePoint>)
    requires Encodable(cs)
    ensures Decode(Encode(cs)) == FlatMap(Filter, cs)
  {
    DecodePrefix(cs, []);
    assert Encode(cs) + [] == Encode(cs);
  }

  lemma {:induction false} FilterKeepsExactlyClean(cs: seq<CodePoint>)
    requires Encodable(cs)
    ensures |FlatMap(Filter, cs)| <= |cs|
    ensures FlatMap(Filter, cs) == cs <==> AllClean(cs)
  {
    if cs != [] {
      FilterKeepsExactlyClean(cs[1..]);
      assert cs == [cs[0]] + cs[1..];
      assert AllClean(cs) <==> IsClean(cs[0]) && AllClean(cs[1..]);
    }
  }

  /** The round trip holds for exactly the clean texts. A line break typed into the editor is not
      one of them: text that goes through `set_text` loses it. */
  lemma RoundTripIffClean(cs: seq<CodePoint>)
    requires Encodable(cs)
    ensures Decode(Encode(cs)) == cs <==> AllClean(cs)
  {
    DecodeEncode(cs);
    FilterKeepsExactlyClean(cs);
  }

  lemma {:induction false} AssembleBound(lead: CodePoint, tail: seq<Byte>)
    requires |tail| <= 3
    requires lead < (if |tail| == 0 then 0x80 else if |tail| == 1 then 0x20 else if |tail| == 2 then 0x10 else 0x8)
    ensures Assemble(lead, tail) <= MAX_CODE_POINT
  {
    if |tail| == 1 {
      assert tail == [tail[0]];
      Assemble1(lead, tail[0]);
      ShiftInBound(lead, tail[0], 0x20);
    } else if |tail| == 2 {
      assert tail == [tail[0], tail[1]];
      Assemble2(lead, tail[0], tail[1]);
      ShiftInBound(lead, tail[0], 0x20);
      ShiftInBound(ShiftIn(lead, tail[0]), tail[1], 0x800);
    } else if |tail| == 3 {
      assert tail == [tail[0], tail[1], tail[2]];
      Assemble3(lead, tail[0], tail[1], tail[2]);
      ShiftInBound(lead, tail[0], 0x8);
      ShiftInBound(ShiftIn(lead, tail[0]), tail[1], 0x200);
      ShiftInBound(ShiftIn(ShiftIn(lead, tail[0]), tail[1]), tail[2], 0x8000);
    }
  }

  lemma ShiftInBound(cp: CodePoint, next: Byte, bound: CodePoint)
    requires cp < bound <= 0x8000
    ensures ShiftIn(cp, next) < bound << 6 <= 0x200000
  {
  }

  lemma LeadBitsBound(b: Byte)
    ensures LeadLength(b) == 1 ==> LeadBits(b, 1) < 0x80
    ensures LeadBits(b, 2) < 0x20 && LeadBits(b, 3) < 0x10 && LeadBits(b, 4) < 0x8
  {
  }

  /** Whatever the bytes, nothing but clean code points comes out of the decoder. */
  lemma {:induction false} DecodeIsClean(s: seq<Byte>)
    ensures AllClean(Decode(s))
    decreases |s|
  {
    if s != [] {
      DecodeIsClean(s[Width(s)..]);
      var n := SequenceLength(s);
      if n != 0 {
        LeadBitsBound(s[0]);
        AssembleBound(LeadBits(s[0], n), s[..n][1..]);
        assert SequenceValue(s[..n]) <= MAX_CODE_POINT;
      }
    }
  }

  /** Decode, encode and decode again: the second decoding changes nothing. */
  lemma DecodeEncodeDecode(s: seq<Byte>)
    ensures Decode(Encode(Decode(s))) == Decode(s)
  {
    DecodeIsClean(s);
    RoundTripIffClean(Decode(s));
  }

  /** Self-synchronisation: a text may be cut before any byte that is not a continuation byte, even
      when the first part ends in the middle of a sequence. */
  lemma {:induction false} SelfSynchronising(a: seq<Byte>, b: seq<Byte>)
    requires b != [] ==> !IsContinuation(b[0])
    ensures Decode(a + b) == Decode(a) + Decode(b)
    decreases |a|
  {
    hide Emitted, Width, IsContinuation;
    if a == [] {
      assert a + b == b;
    } else {
      var rest := a[Width(a)..];
      var tail, last := Decode(rest), Decode(b);
      assert Decode(a + b) == Emitted(a) + Decode(rest + b) by {
        SameFirstStep(a, b);
        assert (a + b)[Width(a)..] == rest + b;
      }
      SelfSynchronising(rest, b);
      Reassociate(Emitted(a), tail, last);
    }
  }

  /** What follows a text cannot complete a sequence that the text left open. */
  lemma SameFirstStep(a: seq<Byte>, b: seq<Byte>)
    requires a != []
    requires b != [] ==> !IsContinuation(b[0])
    ensures Width(a + b) == Width(a) && Emitted(a + b) == Emitted(a)
  {
    hide IsContinuation, LeadLength, SequenceValue, Filter;
    var n := LeadLength(a[0]);
    if 1 <= n <= |a| {
      assert (a + b)[1..n] == a[1..n] && (a + b)[..n] == a[..n];
    } else if |a| < n <= |a + b| {
      assert (a + b)[|a|] == b[0];
      assert (a + b)[1..n][|a| - 1] == (a + b)[|a|];
    }
  }

  lemma {:induction false} ContinuationsVanish(tail: seq<Byte>)
    requires AllContinuation(tail)
    ensures Decode(tail) == []
  {
    hide IsContinuation;
    if tail != [] {
      assert IsContinuation(tail[0]) && Width(tail) == 1;
      ContinuationsVanish(tail[1..]);
    }
  }

  /** A sequence that is cut short leaves no trace: neither its own bytes nor the text behind it are
      misread. */
  lemma CutSequenceVanishes(cs: seq<CodePoint>, cp: CodePoint, k: nat, b: seq<Byte>)
    requires Encodable(cs) && cp <= MAX_CODE_POINT && k < |EncodeOne(cp)|
    requires b != [] ==> !IsContinuation(b[0])
    ensures Decode(Encode(cs) + EncodeOne(cp)[..k] + b) == FlatMap(Filter, cs) + Decode(b)
  {
    hide IsContinuation, EncodeOne, Filter;
    var cut := EncodeOne(cp)[..k];
    EncodedSequence(cp);
    assert Decode(cut) == [] by {
      if k > 0 {
        assert forall j | 0 <= j < k - 1 :: cut[1..][j] == EncodeOne(cp)[1..][j];
        assert Width(cut) == 1;
        ContinuationsVanish(cut[1..]);
      }
    }
    SelfSynchronising(cut, b);
    DecodePrefix(cs, cut + b);
    Reassociate(Encode(cs), cut, b);
    assert [] + Decode(b) == Decode(b);
  }

  /** An encoded text in front of any bytes is read first and in full. */
  lemma {:induction false} DecodePrefix(cs: seq<CodePoint>, s: seq<Byte>)
    requires Encodable(cs)
    ensures Decode(Encode(cs) + s) == FlatMap(Filter, cs) + Decode(s)
  {
    hide EncodeOne, Filter;
    if cs == [] {
      assert Encode(cs) + s == s;
    } else {
      var e, rest := EncodeOne(cs[0]), Encode(cs[1..]);
      DecodePrefix(cs[1..], s);
      DecodeAfterEncodeOne(cs[0], rest + s);
      Reassociate(e, rest, s);
      Reassociate(Filter(cs[0]), FlatMap(Filter, cs[1..]), Decode(s));
    }
  }

  // ---------------------------------------------------------------------------------------------
  // The codec byte by byte
  // ---------------------------------------------------------------------------------------------

  /** One lead byte and all the continuation bytes that it announces. */
  ghost predicate IsComplete(s: seq<Byte>) {
    s != [] && LeadLength(s[0]) == |s| && AllContinuation(s[1..])
  }

  /** Which bytes are what, by their values. */
  lemma BytesByRange(b: Byte)
    ensures IsContinuation(b) <==> 0x80 <= b < 0xC0
    ensures LeadLength(b) == if b < 0x80 then 1 else if b < 0xC0 then 0 else if b < 0xE0 then 2
                             else if b < 0xF0 then 3 else if b < 0xF8 then 4 else 0
  {
  }

  /** What a byte carries beside its mark. */
  function Digit(b: Byte, mark: Byte): CodePoint { Widen(b - mark) }

  /** One more digit, base 64. */
  function WithDigit(cp: CodePoint, b: Byte): CodePoint { (cp << 6) | Digit(b, 0x80) }

  /** The value of a sequence is the number whose digits, base 64, are its bytes without their marks. */
  lemma ValueByDigits(s: seq<Byte>)
    requires IsComplete(s)
    ensures |s| == 1 ==> SequenceValue(s) == Digit(s[0], 0)
    ensures |s| == 2 ==> SequenceValue(s) == WithDigit(Digit(s[0], 0xC0), s[1])
    ensures |s| == 3 ==> SequenceValue(s) == WithDigit(WithDigit(Digit(s[0], 0xE0), s[1]), s[2])
    ensures |s| == 4 ==> SequenceValue(s) == WithDigit(WithDigit(WithDigit(Digit(s[0], 0xF0), s[1]), s[2]), s[3])
  {
    hide IsContinuation, LeadLength, LeadBits, ShiftIn, Digit, WithDigit, SequenceValue;
    Unfolded(s);
    LeadDigit(s[0]);
    if |s| > 1 { NextDigit(LeadBits(s[0], |s|), s[1]); }
    if |s| > 2 { NextDigit(ShiftIn(LeadBits(s[0], |s|), s[1]), s[2]); }
    if |s| > 3 { NextDigit(ShiftIn(ShiftIn(LeadBits(s[0], |s|), s[1]), s[2]), s[3]); }
  }

  /** On a marked byte, masking and subtracting the mark are the same. */
  lemma MarksSubtract(b: Byte)
    ensures IsContinuation(b) ==> b & 0x3F == b - 0x80
    ensures IsLead2(b) ==> b & 0x1F == b - 0xC0
    ensures IsLead3(b) ==> b & 0x0F == b - 0xE0
    ensures IsLead4(b) ==> b & 0x07 == b - 0xF0
    ensures b - 0 == b
  {
  }

  lemma LeadDigit(b: Byte)
    ensures LeadBits(b, 1) == Digit(b, 0)
    ensures LeadLength(b) == 2 ==> LeadBits(b, 2) == Digit(b, 0xC0)
    ensures LeadLength(b) == 3 ==> LeadBits(b, 3) == Digit(b, 0xE0)
    ensures LeadLength(b) == 4 ==> LeadBits(b, 4) == Digit(b, 0xF0)
  {
    hide Widen;
    MarksSubtract(b);
  }

  lemma NextDigit(cp: CodePoint, b: Byte)
    requires IsContinuation(b)
    ensures ShiftIn(cp, b) == WithDigit(cp, b)
  {
    hide Widen;
    MarksSubtract(b);
  }

  lemma Unfolded(s: seq<Byte>)
    requires s != [] && LeadLength(s[0]) == |s|
    ensures 1 <= |s| <= 4
    ensures |s| == 1 ==> SequenceValue(s) == LeadBits(s[0], 1)
    ensures |s| == 2 ==> SequenceValue(s) == ShiftIn(LeadBits(s[0], 2), s[1])
    ensures |s| == 3 ==> SequenceValue(s) == ShiftIn(ShiftIn(LeadBits(s[0], 3), s[1]), s[2])
    ensures |s| == 4 ==> SequenceValue(s) == ShiftIn(ShiftIn(ShiftIn(LeadBits(s[0], 4), s[1]), s[2]), s[3])
  {
    hide LeadLength, LeadBits, ShiftIn;
    if |s| == 2 {
      assert s[1..] == [s[1]];
      Assemble1(LeadBits(s[0], 2), s[1]);
    } else if |s| == 3 {
      assert s[1..] == [s[1], s[2]];
      Assemble2(LeadBits(s[0], 3), s[1], s[2]);
    } else if |s| == 4 {
      assert s[1..] == [s[1], s[2], s[3]];
      Assemble3(LeadBits(s[0], 4), s[1], s[2], s[3]);
    }
  }

  /** A complete sequence is read as its value, up to the filter, whatever follows; overlong or not. */
  lemma CompleteIsRead(s: seq<Byte>, rest: seq<Byte>)
    requires IsComplete(s)
    ensures Decode(s + rest) == Filter(SequenceValue(s)) + Decode(rest)
  {
    hide IsContinuation, LeadLength, SequenceValue, Filter;
    var all := s + rest;
    assert all[0] == s[0] && all[1..|s|] == s[1..] && all[..|s|] == s && all[|s|..] == rest;
    assert Emitted(all) == Filter(SequenceValue(s)) && Width(all) == |s|;
  }

  /** A byte that no complete sequence begins with is skipped by itself. */
  lemma StrayIsSkipped(s: seq<Byte>)
    requires s != [] && forall n | 0 <= n <= |s| :: !IsComplete(s[..n])
    ensures Decode(s) == Decode(s[1..])
  {
    hide IsContinuation, LeadLength, SequenceValue, Filter;
    var n := LeadLength(s[0]);
    if 1 <= n <= |s| { assert s[..n][1..] == s[1..n] && !IsComplete(s[..n]); }
  }

  /** The filter: a tab becomes a blank, other controls vanish, the rest stays. */
  lemma FilterByCases(cp: CodePoint)
    ensures Filter(cp) == if cp == 9 then [32] else if cp < 32 || cp == 127 then [] else [cp]
  {
  }

  // ---------------------------------------------------------------------------------------------
  // The encoding is the shortest
  // ---------------------------------------------------------------------------------------------

  /** No complete sequence with the same value is shorter. */
  ghost predicate IsShortest(s: seq<Byte>) {
    IsComplete(s) && forall t | IsComplete(t) && SequenceValue(t) == SequenceValue(s) :: |s| <= |t|
  }

  lemma ValuesByLength(a: Byte, b: Byte, c: Byte)
    ensures LeadLength(a) == 1 ==> LeadBits(a, 1) < 0x80
    ensures ShiftIn(LeadBits(a, 2), b) < 0x800
    ensures ShiftIn(ShiftIn(LeadBits(a, 3), b), c) < 0x10000
  {
  }

  lemma EncodedIsShortest(cp: CodePoint, s: seq<Byte>)
    requires IsComplete(s) && SequenceValue(s) == cp
    ensures |EncodeOne(cp)| <= |s|
  {
    hide IsContinuation, LeadLength, LeadBits, ShiftIn;
    Unfolded(s);
    ValuesByLength(s[0], if |s| > 1 then s[1] else 0, if |s| > 2 then s[2] else 0);
  }

  lemma OneByteBack(a: Byte)
    requires LeadLength(a) == 1
    ensures LowByte(LeadBits(a, 1)) == a
  {
  }

  lemma TwoBytesBack(a: Byte, b: Byte)
    requires LeadLength(a) == 2 && IsContinuation(b)
    ensures var cp := ShiftIn(LeadBits(a, 2), b); Lead2(cp) == a && Low(cp) == b
  {
  }

  lemma ThreeBytesBack(a: Byte, b: Byte, c: Byte)
    requires LeadLength(a) == 3 && IsContinuation(b) && IsContinuation(c)
    ensures var cp := ShiftIn(ShiftIn(LeadBits(a, 3), b), c); Lead3(cp) == a && Middle(cp) == b && Low(cp) == c
  {
  }

  lemma FourBytesBack(a: Byte, b: Byte, c: Byte, d: Byte)
    requires LeadLength(a) == 4 && IsContinuation(b) && IsContinuation(c) && IsContinuation(d)
    ensures var cp := ShiftIn(ShiftIn(ShiftIn(LeadBits(a, 4), b), c), d);
            Lead4(cp) == a && High(cp) == b && Middle(cp) == c && Low(cp) == d
  {
  }

  /** A complete sequence that is as short as the encoding of its value is that encoding. */
  lemma SameLengthIsEncoded(s: seq<Byte>)
    requires IsComplete(s) && |EncodeOne(SequenceValue(s))| == |s|
    ensures EncodeOne(SequenceValue(s)) == s
  {
    hide IsContinuation, LeadLength, LeadBits, ShiftIn, LowByte, Lead2, Lead3, Lead4, High, Middle, Low;
    Unfolded(s);
    if |s| == 1 {
      OneByteBack(s[0]);
    } else if |s| == 2 {
      TwoBytesBack(s[0], s[1]);
    } else if |s| == 3 {
      ThreeBytesBack(s[0], s[1], s[2]);
    } else {
      FourBytesBack(s[0], s[1], s[2], s[3]);
    }
  }

  /** The encoding of a code point is the one shortest sequence for it. */
  lemma EncodeOneIsTheShortest(cp: CodePoint, s: seq<Byte>)
    requires cp <= MAX_CODE_POINT
    ensures s == EncodeOne(cp) <==> IsShortest(s) && SequenceValue(s) == cp
  {
    hide IsContinuation, LeadLength, SequenceValue, EncodeOne;
    var e := EncodeOne(cp);
    EncodedSequence(cp);
    if IsShortest(s) && SequenceValue(s) == cp {
      EncodedIsShortest(cp, s);
      assert IsComplete(e) && |s| <= |e|;
      SameLengthIsEncoded(s);
    }
    forall t | IsComplete(t) && SequenceValue(t) == cp
      ensures |e| <= |t|
    {
      EncodedIsShortest(cp, t);
    }
  }

  function Concat(parts: seq<seq<Byte>>): seq<Byte> { FlatMap((s: seq<Byte>) => s, parts) }

  /** Shortest sequences of clean code points */
  ghost predicate WellFormed(parts: seq<seq<Byte>>) {
    forall k | 0 <= k < |parts| :: IsShortest(parts[k]) && IsClean(SequenceValue(parts[k]))
  }

  lemma {:induction false} WellFormedComesBack(parts: seq<seq<Byte>>)
    requires WellFormed(parts)
    ensures Encode(Decode(Concat(parts))) == Concat(parts)
  {
    if parts != [] {
      var s := parts[0];
      var cp := SequenceValue(s);
      assert IsShortest(s) && IsClean(cp);
      WellFormedComesBack(parts[1..]);
      hide IsShortest, Encode, EncodeOne, SequenceValue, IsClean;
      EncodeOneIsTheShortest(cp, s);
      FirstPart(s, cp, Concat(parts[1..]));
    }
  }

  lemma FirstPart(s: seq<Byte>, cp: CodePoint, rest: seq<Byte>)
    requires cp <= MAX_CODE_POINT && IsClean(cp) && s == EncodeOne(cp)
    ensures Encode(Decode(s + rest)) == s + Encode(Decode(rest))
  {
    hide EncodeOne, Filter;
    DecodeAfterEncodeOne(cp, rest);
    assert Filter(cp) == [cp];
    assert ([cp] + Decode(rest))[1..] == Decode(rest);
  }

  lemma {:induction false} EncodedIsWellFormed(cs: seq<CodePoint>) returns (parts: seq<seq<Byte>>)
    requires AllClean(cs)
    ensures WellFormed(parts) && Concat(parts) == Encode(cs)
  {
    if cs == [] {
      parts := [];
    } else {
      var rest := EncodedIsWellFormed(cs[1..]);
      var e := EncodeOne(cs[0]);
      EncodedSequence(cs[0]);
      hide EncodeOne, SequenceValue, IsShortest;
      EncodeOneIsTheShortest(cs[0], e);
      parts := [e] + rest;
      assert parts[1..] == rest;
    }
  }

  /** Encoding undoes decoding for exactly the byte strings that are made of the shortest sequences of
      clean code points. */
  lemma EncodeDecodeIff(s: seq<Byte>)
    ensures Encode(Decode(s)) == s <==> exists parts :: WellFormed(parts) && s == Concat(parts)
  {
    hide Encode, Decode, WellFormed, Concat;
    if Encode(Decode(s)) == s {
      DecodeIsClean(s);
      var parts := EncodedIsWellFormed(Decode(s));
      assert WellFormed(parts) && s == Concat(parts);
    } else if parts :| WellFormed(parts) && s == Concat(parts) {
      WellFormedComesBack(parts);
    }
  }
}
