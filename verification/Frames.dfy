/**
 * WebSocket frames as section 5.2 of RFC 6455 lays them out: encoding, and the
 * parser's view of a stream of them.
 */
module Frames {
  import opened Wrappers
  import opened Iq
  import opened Powers
  import opened Sequences
  import opened SampleClock

  const TEXT: nat := 0x1
  const CLOSE: nat := 0x8
  const PING: nat := 0x9
  const PONG: nat := 0xA

  type Opcode = x: nat | x < 16

  /** A whole message: the FIN bit is set and the frame is not a continuation of another. */
  datatype Frame = Frame(opcode: Opcode, payload: seq<Byte>)

  // ----- numbers in network byte order -----

  function PowerOf256(k: nat): (power: nat)
    ensures power >= 1
  {
    if k == 0 then 1 else 256 * PowerOf256(k - 1)
  }

  function BigEndian(n: nat, width: nat): (bytes: seq<Byte>)
    ensures |bytes| == width
  {
    if width == 0 then [] else BigEndian(n / 256, width - 1) + [n % 256]
  }

  function Value(bytes: seq<Byte>): nat {
    if bytes == [] then 0 else 256 * Value(Front(bytes)) + Last(bytes)
  }

  lemma {:induction false} ValueOfBigEndian(n: nat, width: nat)
    requires n < PowerOf256(width)
    ensures Value(BigEndian(n, width)) == n
  {
    if width > 0 {
      ValueOfBigEndian(n / 256, width - 1);
      assert Front(BigEndian(n, width)) == BigEndian(n / 256, width - 1);
    }
  }

  lemma {:induction false} DivideTwice(n: nat, a: nat, b: nat)
    requires a > 0 && b > 0
    ensures a * b > 0 && n / a / b == n / (a * b)
  {
    var q := n / a;
    var p, r := q / b, n - a * q;
    DivisionBounds(n, a);
    DivisionBounds(q, b);
    TwoDigits(a, b, p, q - b * p, r, q, n);
    QuotientIs(n, a * b, p, a * (q - b * p) + r);
  }

  lemma {:induction false} TwoDigits(a: nat, b: nat, p: nat, t: nat, r: nat, q: nat, n: nat)
    requires n == a * q + r && q == b * p + t && t < b && r < a
    ensures a * b > 0 && n == a * b * p + (a * t + r) && 0 <= a * t + r < a * b
  {
    Distributes(a, b * p, t);
    Associates(a, b, p);
    MulMonotone(t + 1, b, a);
    Distributes(a, t, 1);
  }

  lemma {:induction false} Distributes(a: int, x: int, y: int)
    ensures a * (x + y) == a * x + a * y
  {
  }

  lemma {:induction false} Associates(a: int, x: int, y: int)
    ensures a * (x * y) == a * x * y
  {
  }

  lemma {:induction false} QuotientIs(n: nat, d: nat, q: nat, r: nat)
    requires d > 0 && n == d * q + r && r < d
    ensures n / d == q
  {
    DivisionBounds(n, d);
    SpacedMultiples(q, n / d, d);
    SpacedMultiples(n / d, q, d);
  }

  /** The most significant byte first: the k-th from the end counts 256^k. */
  lemma {:induction false} NetworkByteOrder(n: nat, width: nat, k: nat)
    requires k < width
    ensures BigEndian(n, width)[width - 1 - k] == n / PowerOf256(k) % 256
  {
    if k > 0 {
      NetworkByteOrder(n / 256, width - 1, k - 1);
      DivideTwice(n, 256, PowerOf256(k - 1));
    }
  }

  // ----- encoding -----

  function LengthBytes(n: nat): nat {
    if n < 126 then 0 else if n < 0x1_0000 then 2 else 8
  }

  /** The opcode, the shortest form of the length, and the mask bit. */
  function Header(opcode: Opcode, n: nat, masked: bool): (header: seq<Byte>)
    ensures |header| == 2 + LengthBytes(n)
  {
    var form: Byte := if n < 126 then n else if n < 0x1_0000 then 126 else 127;
    [0x80 + opcode, if masked then 0x80 + form else form] + BigEndian(n, LengthBytes(n))
  }

  /** As a server sends it. */
  function Encode(f: Frame): seq<Byte> {
    Header(f.opcode, |f.payload|, false) + f.payload
  }

  function EncodeAll(frames: seq<Frame>): seq<Byte> {
    if frames == [] then [] else Encode(frames[0]) + EncodeAll(frames[1..])
  }

  /** What the length field can carry: 64 bits. */
  predicate Sendable(f: Frame) {
    |f.payload| < PowerOf256(8)
  }

  // ----- parsing -----

  /** How many more bytes of length follow the first two of a frame. */
  function ExtraBytes(second: Byte): nat {
    if second % 128 == 126 then 2 else if second % 128 == 127 then 8 else 0
  }

  function LengthOf(second: Byte, extra: seq<Byte>): nat {
    if second % 128 >= 126 then Value(extra) else second % 128
  }

  /** The first frame of a stream and what follows it, unless the stream ends before the frame does. */
  function Parse(bytes: seq<Byte>): Option<(Frame, seq<Byte>)> {
    if |bytes| < 2 then None
    else
      var start := 2 + ExtraBytes(bytes[1]);
      if |bytes| < start then None
      else
        var n := LengthOf(bytes[1], bytes[2..start]);
        if |bytes| < start + n then None
        else Some((Frame(bytes[0] % 16, bytes[start..start + n]), bytes[start + n..]))
  }

  lemma {:induction false} HeaderFields(opcode: Opcode, n: nat, masked: bool)
    requires n < PowerOf256(8)
    ensures var header := Header(opcode, n, masked);
      && header[0] % 16 == opcode && header[0] / 128 == 1
      && (header[1] / 128 == 1 <==> masked)
      && ExtraBytes(header[1]) == LengthBytes(n)
      && LengthOf(header[1], header[2..]) == n
  {
    var header := Header(opcode, n, masked);
    assert header[2..] == BigEndian(n, LengthBytes(n));
    if n >= 126 {
      assert PowerOf256(2) == 256 * PowerOf256(1) && PowerOf256(1) == 256 * PowerOf256(0);
      ValueOfBigEndian(n, LengthBytes(n));
    }
  }

  /** A parser given an encoded frame and anything after it recovers both. */
  lemma {:induction false} ParseEncoded(f: Frame, after: seq<Byte>)
    requires Sendable(f)
    ensures Parse(Encode(f) + after) == Some((f, after))
  {
    var header, n := Header(f.opcode, |f.payload|, false), |f.payload|;
    var bytes := Encode(f) + after;
    HeaderFields(f.opcode, n, false);
    assert bytes[..|header|] == header;
    assert bytes[2..|header|] == header[2..];
    assert bytes[|header|..|header| + n] == f.payload;
    assert bytes[|header| + n..] == after;
  }

  // ----- masking, as a client must -----

  /** Exclusive or of the low `width` bits. */
  function XorBits(a: nat, b: nat, width: nat): (x: nat)
    ensures x < TwoTo(width)
  {
    if width == 0 then 0 else (a + b) % 2 + 2 * XorBits(a / 2, b / 2, width - 1)
  }

  lemma {:induction false} LowBit(bit: nat, high: nat)
    requires bit < 2
    ensures (bit + 2 * high) / 2 == high && (bit + 2 * high) % 2 == bit
  {
  }

  lemma {:induction false} BitUndoesItself(a: nat, b: nat, high: nat)
    ensures ((a + b) % 2 + 2 * high + b) % 2 == a % 2
  {
  }

  lemma {:induction false} XorUndoesItself(a: nat, b: nat, width: nat)
    requires a < TwoTo(width)
    ensures XorBits(XorBits(a, b, width), b, width) == a
  {
    if width > 0 {
      var high := XorBits(a / 2, b / 2, width - 1);
      LowBit((a + b) % 2, high);
      BitUndoesItself(a, b, high);
      XorUndoesItself(a / 2, b / 2, width - 1);
    }
  }

  /** Bit i of a number. */
  predicate Bit(n: nat, i: nat) {
    n / TwoTo(i) % 2 == 1
  }

  lemma {:induction false} BitOfHalf(n: nat, i: nat)
    requires i > 0
    ensures Bit(n, i) <==> Bit(n / 2, i - 1)
  {
    DivideTwice(n, 2, TwoTo(i - 1));
  }

  lemma {:induction false} LowestBit(n: nat)
    ensures Bit(n, 0) <==> n % 2 == 1
  {
  }

  /** One more bit below a number whose bits are settled. */
  lemma {:induction false} BitAbove(a: nat, b: nat, high: nat, i: nat)
    requires i > 0 ==> (Bit(high, i - 1) <==> Bit(a / 2, i - 1) != Bit(b / 2, i - 1))
    ensures Bit((a + b) % 2 + 2 * high, i) <==> Bit(a, i) != Bit(b, i)
  {
    var n := (a + b) % 2 + 2 * high;
    LowBit((a + b) % 2, high);
    if i > 0 {
      BitOfHalf(n, i);
      BitOfHalf(a, i);
      BitOfHalf(b, i);
    } else {
      LowestBit(n);
      LowestBit(a);
      LowestBit(b);
      SumParity(a, b);
    }
  }

  lemma {:induction false} SumParity(a: nat, b: nat)
    ensures (a + b) % 2 == 1 <==> (a % 2 == 1) != (b % 2 == 1)
  {
  }

  lemma {:induction false} BitsDiffer(a: nat, b: nat, width: nat, i: nat)
    requires i < width
    ensures Bit(XorBits(a, b, width), i) <==> Bit(a, i) != Bit(b, i)
  {
    if i > 0 {
      BitsDiffer(a / 2, b / 2, width - 1, i - 1);
    }
    BitAbove(a, b, XorBits(a / 2, b / 2, width - 1), i);
  }

  lemma {:induction false} EightBits()
    ensures TwoTo(8) == 256
  {
    assert TwoTo(4) == 16;
    assert TwoTo(6) == 64;
  }

  function Xor(a: Byte, b: Byte): Byte {
    EightBits();
    XorBits(a, b, 8)
  }

  /** Two bytes combined are the one whose bits are set where theirs differ. */
  lemma {:induction false} XorBitByBit(a: Byte, b: Byte, i: nat)
    requires i < 8
    ensures Bit(Xor(a, b), i) <==> Bit(a, i) != Bit(b, i)
  {
    EightBits();
    BitsDiffer(a, b, 8, i);
  }

  type Mask = m: seq<Byte> | |m| == 4 witness [0, 0, 0, 0]

  function Masked(payload: seq<Byte>, mask: Mask): (masked: seq<Byte>)
    ensures |masked| == |payload|
  {
    seq(|payload|, i requires 0 <= i < |payload| => Xor(payload[i], mask[i % 4]))
  }

  /** A byte under a byte of the mask, bit by bit. */
  predicate MaskedByte(masked: Byte, plain: Byte, mask: Byte) {
    forall i: nat :: i < 8 ==> (Bit(masked, i) <==> Bit(plain, i) != Bit(mask, i))
  }

  /** Each byte is under its byte of the mask, the mask being repeated for as long as it takes. */
  lemma {:induction false} MaskedBitByBit(payload: seq<Byte>, mask: Mask, k: nat)
    requires k < |payload|
    ensures MaskedByte(Masked(payload, mask)[k], payload[k], mask[k % 4])
  {
    forall i: nat | i < 8 ensures Bit(Masked(payload, mask)[k], i) <==> Bit(payload[k], i) != Bit(mask[k % 4], i) {
      XorBitByBit(payload[k], mask[k % 4], i);
    }
  }

  lemma {:induction false} MaskUndoesItself(payload: seq<Byte>, mask: Mask)
    ensures Masked(Masked(payload, mask), mask) == payload
  {
    forall i | 0 <= i < |payload| ensures Masked(Masked(payload, mask), mask)[i] == payload[i] {
      EightBits();
      XorUndoesItself(payload[i], mask[i % 4], 8);
    }
  }

  /** As a client sends it. */
  function EncodeMasked(f: Frame, mask: Mask): seq<Byte> {
    Header(f.opcode, |f.payload|, true) + (mask + Masked(f.payload, mask))
  }

  /** A server's view of a stream: frames must be masked, and are unmasked as they come. */
  function ParseMasked(bytes: seq<Byte>): Option<(Frame, seq<Byte>)> {
    if |bytes| < 2 || bytes[1] < 128 then None
    else
      var start := 2 + ExtraBytes(bytes[1]);
      if |bytes| < start + 4 then None
      else
        var n, body := LengthOf(bytes[1], bytes[2..start]), start + 4;
        if |bytes| < body + n then None
        else Some((Frame(bytes[0] % 16, Masked(bytes[body..body + n], bytes[start..body])), bytes[body + n..]))
  }

  /** The four parts of a masked frame, where a parser looks for them. */
  lemma {:induction false} MaskedParts(header: seq<Byte>, mask: Mask, masked: seq<Byte>, after: seq<Byte>)
    requires |header| >= 2
    ensures var bytes, start := header + (mask + masked) + after, |header|;
      && |bytes| == start + 4 + |masked| + |after|
      && bytes[0] == header[0] && bytes[1] == header[1] && bytes[2..start] == header[2..]
      && bytes[start..start + 4] == mask
      && bytes[start + 4..start + 4 + |masked|] == masked
      && bytes[start + 4 + |masked|..] == after
  {
  }

  /** Whatever the mask, a server recovers what the client meant, and where the next frame starts. */
  lemma {:induction false} ParseMaskedEncoded(f: Frame, mask: Mask, after: seq<Byte>)
    requires Sendable(f)
    ensures ParseMasked(EncodeMasked(f, mask) + after) == Some((f, after))
  {
    var header := Header(f.opcode, |f.payload|, true);
    HeaderFields(f.opcode, |f.payload|, true);
    MaskedParts(header, mask, Masked(f.payload, mask), after);
    MaskUndoesItself(f.payload, mask);
  }

  // ----- the layout, byte by byte -----

  /** A masked frame as the standard draws it: FIN and opcode, mask bit and length, the mask, the payload under it. */
  ghost predicate LaidOut(bytes: seq<Byte>, opcode: Opcode, payload: seq<Byte>, mask: Mask) {
    var n := |payload|;
    var width: nat := if n <= 125 then 0 else if n <= 0xFFFF then 2 else 8;
    && |bytes| == 2 + width + 4 + n
    && bytes[0] == 0x80 + opcode
    && bytes[1] == 0x80 + (if width == 0 then n else if width == 2 then 126 else 127)
    && (forall k: nat :: k < width ==> bytes[1 + width - k] == n / PowerOf256(k) % 256)
    && bytes[2 + width..6 + width] == mask
    && forall k: nat :: k < n ==> MaskedByte(bytes[6 + width + k], payload[k], mask[k % 4])
  }

  lemma {:induction false} HeaderLaidOut(opcode: Opcode, n: nat, k: nat)
    requires k < LengthBytes(n)
    ensures Header(opcode, n, true)[1 + LengthBytes(n) - k] == n / PowerOf256(k) % 256
  {
    var length := BigEndian(n, LengthBytes(n));
    NetworkByteOrder(n, LengthBytes(n), k);
    assert Header(opcode, n, true)[2..] == length;
    assert Header(opcode, n, true)[2..][LengthBytes(n) - 1 - k] == length[LengthBytes(n) - 1 - k];
  }

  lemma {:induction false} MaskedIsLaidOut(f: Frame, mask: Mask)
    ensures LaidOut(EncodeMasked(f, mask), f.opcode, f.payload, mask)
  {
    var header, masked := Header(f.opcode, |f.payload|, true), Masked(f.payload, mask);
    var bytes, width := EncodeMasked(f, mask), LengthBytes(|f.payload|);
    MaskedParts(header, mask, masked, []);
    assert bytes == header + (mask + masked) + [];
    forall k: nat | k < width ensures bytes[1 + width - k] == |f.payload| / PowerOf256(k) % 256 {
      HeaderLaidOut(f.opcode, |f.payload|, k);
    }
    forall k: nat | k < |f.payload| ensures MaskedByte(bytes[6 + width + k], f.payload[k], mask[k % 4]) {
      MaskedBitByBit(f.payload, mask, k);
      assert bytes[6 + width..][k] == masked[k];
    }
  }

  /** "Hello" */
  const HELLO: seq<Byte> := [0x48, 0x65, 0x6c, 0x6c, 0x6f]

  /** The unmasked examples of section 5.7. */
  lemma {:induction false} StandardExamples()
    ensures Encode(Frame(TEXT, HELLO)) == [0x81, 0x05] + HELLO
    ensures Encode(Frame(PING, HELLO)) == [0x89, 0x05] + HELLO
  {
    assert Header(TEXT, 5, false) == [0x81, 0x05] && Header(PING, 5, false) == [0x89, 0x05];
  }

  lemma {:induction false} MediumLength()
    ensures BigEndian(256, 2) == [1, 0]
  {
    assert BigEndian(1, 1) == [1];
  }

  lemma {:induction false} LongLength()
    ensures BigEndian(65536, 8) == [0, 0, 0, 0, 0, 1, 0, 0]
  {
    assert BigEndian(0, 4) == [0, 0, 0, 0];
    assert BigEndian(1, 6) == [0, 0, 0, 0, 0, 1];
    assert BigEndian(256, 7) == [0, 0, 0, 0, 0, 1, 0];
  }

  /** Its examples of the longer forms. */
  lemma {:induction false} StandardHeaders()
    ensures Header(2, 256, false) == [0x82, 0x7e, 0x01, 0x00]
    ensures Header(2, 65536, false) == [0x82, 0x7f, 0, 0, 0, 0, 0, 1, 0, 0]
  {
    MediumLength();
    LongLength();
  }
}
