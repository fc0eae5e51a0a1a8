/**
 * The DER encoder of the ACME client, with a strict decoder written from ITU-T X.690 as its specification.
 * `>>>` works on 32 bits in the original, so the wrap-around is part of the model.
 */
module Der {
  import opened Sequences

  type Byte = x: int | 0 <= x < 256
  type Bytes = seq<Byte>

  const WORD := 0x1_0000_0000

  /** `n >>> 8`. */
  function Shift8(n: nat): (m: nat)
    ensures m <= n / 256 && m < 0x100_0000 && (n < WORD ==> m == n / 256) && (n > 0 ==> m < n)
  {
    (n % WORD) / 256
  }

  /** `n >>> 7`. */
  function Shift7(n: nat): (m: nat)
    ensures m < 0x200_0000 && (n < WORD ==> m == n / 128)
  {
    (n % WORD) / 128
  }

  // Base 256

  function Value(b: Bytes): nat {
    if b == [] then 0 else 256 * Value(b[..|b| - 1]) + b[|b| - 1]
  }

  function Digits(n: nat): Bytes {
    if n == 0 then [] else Digits(n / 256) + [n % 256]
  }

  /** What the loop of `encodeLength` collects. */
  function LengthDigits(n: nat): Bytes {
    if n == 0 then [] else LengthDigits(Shift8(n)) + [n % 256]
  }

  function Pow256(k: nat): nat { if k == 0 then 1 else 256 * Pow256(k - 1) }

  lemma {:induction false} ValueBounded(b: Bytes)
    ensures Value(b) < Pow256(|b|)
  {
    if b != [] { ValueBounded(b[..|b| - 1]); }
  }

  lemma {:induction false} DigitsDenote(n: nat)
    ensures Value(Digits(n)) == n && (n > 0 ==> Digits(n) != [] && Digits(n)[0] != 0)
  {
    if n > 0 {
      DigitsDenote(n / 256);
      assert Digits(n)[..|Digits(n)| - 1] == Digits(n / 256);
    }
  }

  /** A numeral without a leading zero is the only one for its value. */
  lemma {:induction false} DigitsUnique(b: Bytes)
    requires b != [] ==> b[0] != 0
    ensures Digits(Value(b)) == b
  {
    if b != [] {
      var front := b[..|b| - 1];
      DigitsUnique(front);
      assert Value(b) / 256 == Value(front) && Value(b) % 256 == b[|b| - 1];
      if Value(b) == 0 { ValueZero(b); }
    }
  }

  lemma {:induction false} ValueZero(b: Bytes)
    requires b != [] && Value(b) == 0
    ensures b[0] == 0
  {
    if |b| > 1 { ValueZero(b[..|b| - 1]); }
  }

  lemma {:induction false} DigitsBounded(n: nat, k: nat)
    ensures |Digits(n)| <= k <==> n < Pow256(k)
  {
    if n > 0 {
      if k > 0 { DigitsBounded(n / 256, k - 1); }
    }
    if k == 0 || n == 0 { PowPositive(k); }
  }

  lemma {:induction false} PowPositive(k: nat)
    ensures Pow256(k) > 0
  {
    if k > 0 { PowPositive(k - 1); }
  }

  lemma {:induction false} LengthDigitsExact(n: nat)
    requires n < WORD
    ensures LengthDigits(n) == Digits(n)
  {
    hide Shift8;
    if n > 0 { LengthDigitsExact(n / 256); }
  }

  lemma LengthDigitsShort(n: nat)
    ensures |LengthDigits(n)| <= 4
  {
    hide Shift8, Digits;
    if n > 0 {
      var m := Shift8(n);
      LengthDigitsExact(m);
      DigitsBounded(m, 3);
      assert Pow256(3) == 0x100_0000 by { ThreeOctets(); }
    }
  }

  lemma ThreeOctets()
    ensures Pow256(3) == 0x100_0000 && Pow256(4) == WORD
  {
  }

  // Lengths (sections 8.1.3 and 10.1)

  function LengthOctets(len: nat): Bytes {
    LengthDigitsShort(len);
    if len < 0x80 then [len] else [0x80 + |LengthDigits(len)|] + LengthDigits(len)
  }

  lemma LengthDigitsStep(n: nat)
    requires n > 0
    ensures Shift8(n) < n && LengthDigits(n) == LengthDigits(Shift8(n)) + [n % 256]
  {
    hide Shift8;
  }

  method EncodeLength(len: nat) returns (octets: Bytes)
    ensures octets == LengthOctets(len)
  {
    hide LengthDigits, Shift8;
    if len < 0x80 { return [len]; }
    LengthDigitsShort(len);
    LengthDigitsStart();
    var bytes: Bytes := [];
    var n := len;
    while n > 0
      invariant LengthDigits(len) == LengthDigits(n) + bytes
    {
      LengthDigitsStep(n);
      bytes := [n % 256] + bytes;
      n := Shift8(n);
    }
    octets := [0x80 + |bytes|] + bytes;
  }

  lemma LengthDigitsStart()
    ensures LengthDigits(0) == []
  {
  }

  datatype Length = Length(len: nat, rest: Bytes)

  /** A definite length in the shortest form, and what follows it. */
  function DecodeLength(b: Bytes): (r: Option<Length>)
    ensures r.Some? ==> |r.value.rest| < |b|
  {
    if b == [] then None
    else if b[0] < 0x80 then Some(Length(b[0], b[1..]))
    else
      var k := b[0] - 0x80;
      if k == 0 || k == 0x7f || |b| < 1 + k || b[1] == 0 || Value(b[1..1 + k]) < 0x80 then None
      else Some(Length(Value(b[1..1 + k]), b[1 + k..]))
  }

  lemma LengthDecodes(len: nat, rest: Bytes)
    requires len < WORD
    ensures DecodeLength(LengthOctets(len) + rest) == Some(Length(len, rest))
  {
    if len >= 0x80 {
      LengthDigitsShort(len);
      LengthDigitsExact(len);
      DigitsDenote(len);
      var k, b := |LengthDigits(len)|, LengthOctets(len) + rest;
      assert b[1..1 + k] == LengthDigits(len) && b[1 + k..] == rest;
    }
  }

  lemma LengthCanonical(b: Bytes)
    requires DecodeLength(b).Some? && DecodeLength(b).value.len < WORD
    ensures b == LengthOctets(DecodeLength(b).value.len) + DecodeLength(b).value.rest
  {
    hide Digits, Value, LengthDigits;
    if b[0] >= 0x80 {
      var k := b[0] - 0x80;
      var digits := b[1..1 + k];
      DigitsUnique(digits);
      LengthDigitsExact(Value(digits));
      assert b == [b[0]] + digits + b[1 + k..];
    }
  }

  /** A length survives exactly when it fits 32 bits. */
  lemma LengthRoundTripsIff(len: nat)
    ensures DecodeLength(LengthOctets(len)) == Some(Length(len, [])) <==> len < WORD
  {
    if len < WORD {
      LengthDecodes(len, []);
      assert LengthOctets(len) + [] == LengthOctets(len);
    } else {
      LengthDigitsShort(len);
      var k := |LengthDigits(len)|;
      assert LengthOctets(len)[1..1 + k] == LengthDigits(len);
      ValueBounded(LengthDigits(len));
      PowGrows(k, 4);
      assert Pow256(4) == WORD;
    }
  }

  lemma {:induction false} PowGrows(j: nat, k: nat)
    requires j <= k
    ensures Pow256(j) <= Pow256(k)
  {
    if j > 0 { PowGrows(j - 1, k - 1); } else { PowPositive(k); }
  }

  // Integers (section 8.3)

  /** The content octets for a number; a negative one is encoded by its magnitude. */
  function IntegerContent(n: int): Bytes {
    if n == 0 then [0]
    else
      var digits := Digits(if n < 0 then -n else n);
      DigitsDenote(if n < 0 then -n else n);
      if digits[0] >= 0x80 then [0] + digits else digits
  }

  lemma DigitsStep(n: nat)
    ensures n > 0 ==> Digits(n) == Digits(n / 256) + [n % 256]
    ensures n == 0 ==> Digits(n) == []
  {
  }

  method Integer(n: int) returns (octets: Bytes)
    ensures octets == Tlv(0x02, IntegerContent(n))
  {
    hide Tlv, Digits;
    if n == 0 { return Tlv(0x02, [0]); }
    var out: Bytes := [];
    var v := if n < 0 then -n else n;
    ghost var magnitude := v;
    while v > 0
      invariant 0 <= v && Digits(magnitude) == Digits(v) + out
    {
      DigitsStep(v);
      out := [v % 256] + out;
      v := v / 256;
    }
    DigitsStep(0);
    assert [] + out == out;
    DigitsDenote(magnitude);
    if out[0] >= 0x80 { out := [0] + out; }
    octets := Tlv(0x02, out);
  }

  /** The content octets for a buffer that holds an unsigned number. */
  function BufferContent(b: Bytes): Bytes {
    if b == [] then [0] else if b[0] >= 0x80 then [0] + b else b
  }

  /** Two's complement, most significant octet first. */
  function SignedValue(content: Bytes): int
    requires content != []
  {
    if content[0] >= 0x80 then Value(content) - Pow256(|content|) else Value(content)
  }

  /** The first nine bits are neither all zero nor all one. */
  predicate ShortestInteger(content: Bytes) {
    content != []
    && (|content| >= 2 ==> !(content[0] == 0 && content[1] < 0x80) && !(content[0] == 0xff && content[1] >= 0x80))
  }

  lemma {:induction false} LeadingZero(b: Bytes)
    ensures Value([0] + b) == Value(b)
  {
    if b != [] {
      assert ([0] + b)[..|b|] == [0] + b[..|b| - 1];
      LeadingZero(b[..|b| - 1]);
    } else {
      assert ([0] + b)[..0] == [];
    }
  }

  lemma IntegerDenotes(n: int)
    ensures IntegerContent(n) != [] && SignedValue(IntegerContent(n)) == if n < 0 then -n else n
    ensures ShortestInteger(IntegerContent(n))
  {
    var m := if n < 0 then -n else n;
    if m > 0 {
      DigitsDenote(m);
      LeadingZero(Digits(m));
    } else {
      assert Value([0]) == 256 * Value([]) by { assert [0][..0] == []; }
    }
  }

  /** What a reader makes of the content octets of an integer. */
  function DecodeInteger(content: Bytes): Option<int> { if content == [] then None else Some(SignedValue(content)) }

  /** An integer survives exactly when it is not negative. */
  lemma {:induction false} IntegerRoundTripsIff(n: int)
    ensures DecodeInteger(IntegerContent(n)) == Some(n) <==> n >= 0
  {
    IntegerDenotes(n);
  }

  /** The encoding of a non-negative number is the only shortest content with that value. */
  lemma IntegerUnique(content: Bytes)
    requires ShortestInteger(content) && SignedValue(content) >= 0
    ensures IntegerContent(SignedValue(content)) == content
  {
    ValueBounded(content);
    if content[0] == 0 {
      if |content| > 1 {
        assert content == [0] + content[1..];
        LeadingZero(content[1..]);
        DigitsUnique(content[1..]);
      }
    } else {
      DigitsUnique(content);
      if Value(content) == 0 { ValueZero(content); }
    }
  }

  lemma BufferDenotes(b: Bytes)
    ensures BufferContent(b) != [] && SignedValue(BufferContent(b)) == Value(b)
    ensures ShortestInteger(BufferContent(b)) <==> |b| < 2 || b[0] != 0 || b[1] >= 0x80
  {
    LeadingZero(b);
  }

  // Nested values

  function Tlv(tag: Byte, value: Bytes): Bytes { [tag] + LengthOctets(|value|) + value }

  function Concat(buffers: seq<Bytes>): Bytes {
    if buffers == [] then [] else buffers[0] + Concat(buffers[1..])
  }

  function Sequence(children: seq<Bytes>): Bytes { Tlv(0x30, Concat(children)) }
  function Set(children: seq<Bytes>): Bytes { Tlv(0x31, Concat(children)) }
  function OctetString(value: Bytes): Bytes { Tlv(0x04, value) }
  function BitString(value: Bytes, unusedBits: Byte): Bytes { Tlv(0x03, [unusedBits] + value) }
  function ContextTag(tagNumber: nat, constructed: bool): Byte {
    0x80 + (if constructed then 0x20 else 0) + tagNumber % 32
  }
  function ContextSpecific(tagNumber: nat, constructed: bool, value: Bytes): Bytes {
    Tlv(ContextTag(tagNumber, constructed), value)
  }

  datatype Node = Primitive(tag: Byte, content: Bytes) | Constructed(tag: Byte, children: seq<Node>)

  function Encode(d: Node): Bytes
    decreases d, 1
  {
    match d
    case Primitive(tag, content) => Tlv(tag, content)
    case Constructed(tag, children) => Tlv(tag, EncodeAll(children))
  }

  function EncodeAll(ds: seq<Node>): Bytes
    decreases ds, 0
  {
    if ds == [] then [] else Encode(ds[0]) + EncodeAll(ds[1..])
  }

  predicate ConstructedTag(tag: Byte) { tag / 32 % 2 == 1 }

  /** Single-octet tags whose form bit tells the truth, and contents of less than 2^32 octets. */
  predicate WellFormed(d: Node)
    decreases d, 1
  {
    d.tag % 32 != 31
    && match d
       case Primitive(tag, content) => !ConstructedTag(tag) && |content| < WORD
       case Constructed(tag, children) => ConstructedTag(tag) && |EncodeAll(children)| < WORD && AllWellFormed(children)
  }

  predicate AllWellFormed(ds: seq<Node>)
    decreases ds, 0
  {
    ds == [] || (WellFormed(ds[0]) && AllWellFormed(ds[1..]))
  }

  datatype Parsed = Parsed(node: Node, rest: Bytes)

  function Decode(b: Bytes): (r: Option<Parsed>)
    ensures r.Some? ==> |r.value.rest| < |b|
    decreases |b|, 0
  {
    if b == [] || b[0] % 32 == 31 then None
    else match DecodeLength(b[1..])
         case None => None
         case Some(Length(len, rest)) =>
           if |rest| < len then None
           else if !ConstructedTag(b[0]) then Some(Parsed(Primitive(b[0], rest[..len]), rest[len..]))
           else match DecodeAll(rest[..len])
                case None => None
                case Some(children) => Some(Parsed(Constructed(b[0], children), rest[len..]))
  }

  function DecodeAll(b: Bytes): Option<seq<Node>>
    decreases |b|, 1
  {
    if b == [] then Some([])
    else match Decode(b)
         case None => None
         case Some(Parsed(node, rest)) =>
           match DecodeAll(rest)
           case None => None
           case Some(nodes) => Some([node] + nodes)
  }

  lemma TlvSplits(tag: Byte, value: Bytes, rest: Bytes)
    requires |value| < WORD
    ensures (Tlv(tag, value) + rest)[0] == tag
    ensures DecodeLength((Tlv(tag, value) + rest)[1..]) == Some(Length(|value|, value + rest))
    ensures (value + rest)[..|value|] == value && (value + rest)[|value|..] == rest
  {
    assert (Tlv(tag, value) + rest)[1..] == LengthOctets(|value|) + (value + rest);
    LengthDecodes(|value|, value + rest);
  }

  /** Decoding undoes encoding, whatever follows. */
  lemma {:induction false} DecodeInvertsEncode(d: Node, rest: Bytes)
    requires WellFormed(d)
    ensures Decode(Encode(d) + rest) == Some(Parsed(d, rest))
    decreases d, 1
  {
    match d
    case Primitive(tag, content) => TlvSplits(tag, content, rest);
    case Constructed(tag, children) =>
      TlvSplits(tag, EncodeAll(children), rest);
      DecodeInvertsEncodeAll(children);
  }

  lemma {:induction false} DecodeInvertsEncodeAll(ds: seq<Node>)
    requires AllWellFormed(ds)
    ensures DecodeAll(EncodeAll(ds)) == Some(ds)
    decreases ds, 0
  {
    if ds != [] {
      DecodeInvertsEncode(ds[0], EncodeAll(ds[1..]));
      DecodeInvertsEncodeAll(ds[1..]);
      assert EncodeAll(ds) == Encode(ds[0]) + EncodeAll(ds[1..]) && Encode(ds[0]) != [];
      assert [ds[0]] + ds[1..] == ds;
    }
  }

  lemma TlvJoins(b: Bytes)
    requires 0 < |b| < WORD && DecodeLength(b[1..]).Some?
    requires DecodeLength(b[1..]).value.len <= |DecodeLength(b[1..]).value.rest|
    ensures var Length(len, rest) := DecodeLength(b[1..]).value; b == Tlv(b[0], rest[..len]) + rest[len..]
  {
    hide DecodeLength, LengthOctets;
    var Length(len, rest) := DecodeLength(b[1..]).value;
    assert len < WORD by { LengthInside(b[1..]); }
    LengthCanonical(b[1..]);
    var octets, value := LengthOctets(len), rest[..len];
    assert rest == value + rest[len..];
    assert b == [b[0]] + b[1..] == [b[0]] + (octets + (value + rest[len..]));
    assert Tlv(b[0], value) + rest[len..] == [b[0]] + octets + value + rest[len..];
  }

  lemma LengthInside(b: Bytes)
    requires DecodeLength(b).Some?
    ensures |DecodeLength(b).value.rest| < |b|
  {
  }

  /** The strict decoder accepts nothing but the encoder's output. */
  lemma {:induction false} EncodeInvertsDecode(b: Bytes)
    requires |b| < WORD && Decode(b).Some?
    ensures WellFormed(Decode(b).value.node)
    ensures b == Encode(Decode(b).value.node) + Decode(b).value.rest
    decreases |b|, 0
  {
    TlvJoins(b);
    hide DecodeLength, LengthOctets;
    var Length(len, rest) := DecodeLength(b[1..]).value;
    var content := rest[..len];
    if ConstructedTag(b[0]) { EncodeAllInvertsDecodeAll(content); }
  }

  lemma {:induction false} EncodeAllInvertsDecodeAll(b: Bytes)
    requires |b| < WORD && DecodeAll(b).Some?
    ensures AllWellFormed(DecodeAll(b).value) && EncodeAll(DecodeAll(b).value) == b
    decreases |b|, 1
  {
    if b != [] {
      var Parsed(node, rest) := Decode(b).value;
      EncodeInvertsDecode(b);
      EncodeAllInvertsDecodeAll(rest);
      assert DecodeAll(b).value[1..] == DecodeAll(rest).value;
    }
  }

  /** No encoding is a prefix of a different one. */
  lemma EncodingIsPrefixFree(d: Node, x: Bytes, e: Node, y: Bytes)
    requires WellFormed(d) && WellFormed(e) && Encode(d) + x == Encode(e) + y
    ensures d == e && x == y
  {
    DecodeInvertsEncode(d, x);
    DecodeInvertsEncode(e, y);
  }

  /** The builders make exactly these nodes. */
  lemma BuildersMakeNodes(ds: seq<Node>, value: Bytes, tagNumber: nat, unusedBits: Byte)
    requires tagNumber < 31
    ensures Encode(Constructed(0x30, ds)) == Sequence(Encodings(ds))
    ensures Encode(Constructed(0x31, ds)) == Set(Encodings(ds))
    ensures Encode(Constructed(ContextTag(tagNumber, true), ds))
      == ContextSpecific(tagNumber, true, Concat(Encodings(ds)))
    ensures Encode(Primitive(ContextTag(tagNumber, false), value)) == ContextSpecific(tagNumber, false, value)
    ensures Encode(Primitive(0x04, value)) == OctetString(value)
    ensures Encode(Primitive(0x03, [unusedBits] + value)) == BitString(value, unusedBits)
    ensures AllWellFormed(ds) && |EncodeAll(ds)| < WORD ==>
      WellFormed(Constructed(0x30, ds)) && WellFormed(Constructed(0x31, ds))
      && WellFormed(Constructed(ContextTag(tagNumber, true), ds))
    ensures |value| < WORD - 1 ==>
      WellFormed(Primitive(ContextTag(tagNumber, false), value)) && WellFormed(Primitive(0x04, value))
      && WellFormed(Primitive(0x03, [unusedBits] + value))
  {
    EncodingsConcatenate(ds);
  }

  function Encodings(ds: seq<Node>): seq<Bytes> {
    if ds == [] then [] else [Encode(ds[0])] + Encodings(ds[1..])
  }

  lemma {:induction false} EncodingsConcatenate(ds: seq<Node>)
    ensures Concat(Encodings(ds)) == EncodeAll(ds)
  {
    if ds != [] {
      EncodingsConcatenate(ds[1..]);
      assert Encodings(ds)[1..] == Encodings(ds[1..]);
    }
  }

  // Object identifiers (section 8.19)

  /** The octets above the last one of an arc, high bit set, leading zeros left out. */
  function HighOctets(n: nat): Bytes {
    if n == 0 then [] else HighOctets(n / 128) + [0x80 + n % 128]
  }

  function ArcOctets(v: nat): Bytes {
    if v < 0x80 then [v] else HighOctets(Shift7(v)) + [v % 128]
  }

  function ArcsOctets(arcs: seq<nat>): Bytes {
    if arcs == [] then [] else ArcsOctets(arcs[..|arcs| - 1]) + ArcOctets(arcs[|arcs| - 1])
  }

  /** The content octets; a buffer keeps only the low eight bits of the first entry. */
  function OidContent(arcs: seq<nat>): Bytes
    requires |arcs| >= 2
  {
    [(arcs[0] * 40 + arcs[1]) % 256] + ArcsOctets(arcs[2..])
  }

  lemma NextArc(parts: seq<nat>, i: nat)
    requires 2 <= i < |parts|
    ensures ArcsOctets(parts[2..i + 1]) == ArcsOctets(parts[2..i]) + ArcOctets(parts[i])
    ensures parts[i] < 0x80 ==> ArcOctets(parts[i]) == [parts[i]]
  {
    hide HighOctets, Shift7;
    assert parts[2..i + 1][..i - 2] == parts[2..i];
  }

  /** The error is the exception for fewer than two arcs. */
  method Oid(parts: seq<nat>) returns (octets: Option<Bytes>)
    ensures octets == if |parts| < 2 then None else Some(Tlv(0x06, OidContent(parts)))
  {
    hide Tlv, ArcOctets, ArcsOctets;
    if |parts| < 2 { return None; }
    var head: Bytes := [(parts[0] * 40 + parts[1]) % 256];
    var bytes, i := head, 2;
    assert ArcsOctets(parts[2..2]) == [] by { NoArcs(parts[2..2]); }
    while i < |parts|
      invariant 2 <= i <= |parts|
      invariant bytes == head + ArcsOctets(parts[2..i])
    {
      var v := parts[i];
      NextArc(parts, i);
      ghost var done := ArcsOctets(parts[2..i]);
      assert head + (done + ArcOctets(v)) == head + done + ArcOctets(v);
      if v < 0x80 {
        bytes := bytes + [v];
      } else {
        var encoded := EncodeArc(v);
        bytes := bytes + encoded;
      }
      i := i + 1;
    }
    assert parts[2..i] == parts[2..];
    octets := Some(Tlv(0x06, bytes));
  }

  lemma NoArcs(arcs: seq<nat>)
    requires arcs == []
    ensures ArcsOctets(arcs) == []
  {
  }

  lemma ArcStarts(v: nat)
    requires v >= 0x80
    ensures ArcOctets(v) == HighOctets(Shift7(v)) + [v % 128]
  {
    hide HighOctets, Shift7;
  }

  lemma HighStep(n: nat)
    ensures n == 0 ==> HighOctets(n) == []
    ensures 0 < n < WORD ==> HighOctets(n) == HighOctets(Shift7(n)) + [0x80 + n % 128]
  {
    hide Shift7;
  }

  /** The inner loop, for an arc that needs more than one octet. */
  method EncodeArc(arc: nat) returns (encoded: Bytes)
    requires arc >= 0x80
    ensures encoded == ArcOctets(arc)
  {
    hide ArcOctets, HighOctets, Shift7;
    ArcStarts(arc);
    encoded := [arc % 128];
    var v := Shift7(arc);
    while v > 0
      invariant 0 <= v < WORD
      invariant ArcOctets(arc) == HighOctets(v) + encoded
      decreases v
    {
      HighStep(v);
      ghost var high := HighOctets(Shift7(v));
      assert high + [0x80 + v % 128] + encoded == high + ([0x80 + v % 128] + encoded);
      encoded := [0x80 + v % 128] + encoded;
      v := Shift7(v);
    }
    HighStep(0);
    assert [] + encoded == encoded;
  }

  /**
   * Splits the octets into subidentifiers, each ending at an octet with the high bit clear; `acc` is the part of the
   * current one already read. A subidentifier may not begin with 0x80, nor be cut off.
   */
  function DecodeArcs(b: Bytes, acc: nat, boundary: bool): Option<seq<nat>> {
    if b == [] then (if boundary then Some([]) else None)
    else if boundary && b[0] == 0x80 then None
    else if b[0] >= 0x80 then DecodeArcs(b[1..], 128 * acc + (b[0] - 0x80), false)
    else match DecodeArcs(b[1..], 0, true)
         case None => None
         case Some(arcs) => Some([128 * acc + b[0]] + arcs)
  }

  lemma {:induction false} HighOctetsDecode(n: nat, tail: Bytes)
    ensures DecodeArcs(HighOctets(n) + tail, 0, true) == DecodeArcs(tail, n, n == 0)
  {
    if n == 0 {
      assert HighOctets(n) + tail == tail;
    } else {
      assert HighOctets(n) + tail == HighOctets(n / 128) + ([0x80 + n % 128] + tail);
      HighOctetsDecode(n / 128, [0x80 + n % 128] + tail);
      assert ([0x80 + n % 128] + tail)[1..] == tail;
    }
  }

  lemma ArcDecodes(v: nat, tail: Bytes)
    requires DecodeArcs(tail, 0, true).Some?
    ensures DecodeArcs(ArcOctets(v) + tail, 0, true) == Some([v % WORD] + DecodeArcs(tail, 0, true).value)
  {
    hide HighOctets, Shift7;
    if v < 0x80 {
      assert (ArcOctets(v) + tail)[1..] == tail;
    } else {
      var high := Shift7(v);
      ShiftSplits(v);
      assert ArcOctets(v) + tail == HighOctets(high) + ([v % 128] + tail);
      HighOctetsDecode(high, [v % 128] + tail);
      assert ([v % 128] + tail)[1..] == tail;
    }
  }

  lemma ShiftSplits(v: nat)
    ensures 128 * Shift7(v) + v % 128 == v % WORD
  {
    assert WORD == 128 * 0x200_0000;
    assert v % WORD % 128 == v % 128;
  }

  function Wrapped(arcs: seq<nat>): seq<nat> {
    if arcs == [] then [] else Wrapped(arcs[..|arcs| - 1]) + [arcs[|arcs| - 1] % WORD]
  }

  lemma {:induction false} ArcsDecode(arcs: seq<nat>, tail: Bytes, decoded: seq<nat>)
    requires DecodeArcs(tail, 0, true) == Some(decoded)
    ensures DecodeArcs(ArcsOctets(arcs) + tail, 0, true) == Some(Wrapped(arcs) + decoded)
  {
    hide DecodeArcs, ArcOctets;
    if arcs == [] {
      assert ArcsOctets(arcs) + tail == tail;
      assert Wrapped(arcs) + decoded == decoded;
    } else {
      var front, last := arcs[..|arcs| - 1], arcs[|arcs| - 1];
      ArcDecodes(last, tail);
      ArcsDecode(front, ArcOctets(last) + tail, [last % WORD] + decoded);
      assert ArcsOctets(arcs) + tail == ArcsOctets(front) + (ArcOctets(last) + tail);
      assert Wrapped(front) + ([last % WORD] + decoded) == Wrapped(arcs) + decoded;
    }
  }

  lemma {:induction false} WrappedIsSame(arcs: seq<nat>)
    ensures |Wrapped(arcs)| == |arcs|
    ensures Wrapped(arcs) == arcs <==> forall i | 0 <= i < |arcs| :: arcs[i] < WORD
  {
    if arcs != [] {
      var front, last := arcs[..|arcs| - 1], arcs[|arcs| - 1];
      WrappedIsSame(front);
      assert arcs == front + [last];
    }
  }

  /** Octets with the high bit clear: one for each subidentifier. */
  function Terminals(b: Bytes): nat {
    if b == [] then 0 else (if b[0] < 0x80 then 1 else 0) + Terminals(b[1..])
  }

  lemma {:induction false} DecodedCount(b: Bytes, acc: nat, boundary: bool)
    ensures DecodeArcs(b, acc, boundary).Some? ==> |DecodeArcs(b, acc, boundary).value| == Terminals(b)
  {
    if b != [] {
      if b[0] >= 0x80 {
        DecodedCount(b[1..], 128 * acc + (b[0] - 0x80), false);
      } else {
        DecodedCount(b[1..], 0, true);
      }
    }
  }

  /** The arc list survives exactly when the first subidentifier fits seven bits and every other arc 32. */
  lemma OidRoundTripsIff(arcs: seq<nat>)
    requires |arcs| >= 2
    ensures DecodeArcs(OidContent(arcs), 0, true) == Some([arcs[0] * 40 + arcs[1]] + arcs[2..])
       <==> arcs[0] * 40 + arcs[1] < 0x80 && forall i | 2 <= i < |arcs| :: arcs[i] < WORD
  {
    hide ArcsOctets, Wrapped, Shift7, Terminals;
    var first, rest := arcs[0] * 40 + arcs[1], arcs[2..];
    var octet := first % 256;
    ArcsDecode(rest, [], []);
    NothingLeft();
    var tail := ArcsOctets(rest);
    assert tail + [] == tail && Wrapped(rest) + [] == Wrapped(rest);
    WrappedIsSame(rest);
    assert OidContent(arcs)[1..] == tail && OidContent(arcs)[0] == octet;
    assert forall i | 2 <= i < |arcs| :: arcs[i] == rest[i - 2];
    if octet < 0x80 {
      assert DecodeArcs(OidContent(arcs), 0, true) == Some([octet] + Wrapped(rest));
      assert ([octet] + Wrapped(rest))[1..] == Wrapped(rest) && ([first] + rest)[1..] == rest;
      assert ([octet] + Wrapped(rest))[0] == octet && ([first] + rest)[0] == first;
    } else {
      hide DecodeArcs, OidContent;
      DecodedCount(OidContent(arcs), 0, true);
      DecodedCount(tail, 0, true);
      FirstIsNoEnd(OidContent(arcs));
    }
  }

  lemma NothingLeft()
    ensures DecodeArcs([], 0, true) == Some([])
  {
  }

  lemma FirstIsNoEnd(b: Bytes)
    requires b != [] && b[0] >= 0x80
    ensures Terminals(b) == Terminals(b[1..])
  {
  }
}
