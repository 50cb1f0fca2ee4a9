/** Length-prefixed frames: the encoders, a stream splitter, and the demo client's decoder. */
module Wire {

  newtype byte = x: int | 0 <= x < 256

  const MSG_ROW_BATCH: byte := 0x01
  const MSG_COMPLETED: byte := 0x02
  const MSG_ERROR: byte := 0x03
  const MSG_HEARTBEAT: byte := 0x04

  /** One past the largest uint32. */
  const LIMIT: nat := 0x1_0000_0000

  datatype Message = Message(kind: byte, payload: seq<byte>)

  // ---- the length field ----

  /** binary.BigEndian.PutUint32 of uint32(n), which keeps the low 32 bits of n. */
  function BigEndian(n: nat): (bytes: seq<byte>)
    ensures |bytes| == 4
  {
    var v := n % LIMIT;
    [(v / 0x100_0000) as byte, (v / 0x1_0000 % 0x100) as byte, (v / 0x100 % 0x100) as byte, (v % 0x100) as byte]
  }

  /** The number whose big-endian digits, base 256, are the four bytes. */
  function ReadLength(b: seq<byte>): (n: nat)
    requires |b| >= 4
    ensures n < LIMIT
  {
    b[0] as int * 0x100_0000 + b[1] as int * 0x1_0000 + b[2] as int * 0x100 + b[3] as int
  }

  lemma LengthRoundTrip(n: nat)
    ensures ReadLength(BigEndian(n)) == n % LIMIT
  {
    var v := n % LIMIT;
    assert v == v / 0x100 * 0x100 + v % 0x100;
    assert v / 0x100 == v / 0x1_0000 * 0x100 + v / 0x100 % 0x100;
    assert v / 0x1_0000 == v / 0x100_0000 * 0x100 + v / 0x1_0000 % 0x100;
  }

  lemma LengthInjective(b: seq<byte>)
    requires |b| == 4
    ensures BigEndian(ReadLength(b)) == b
  {
    BytesOfSum(b[0] as int, b[1] as int, b[2] as int, b[3] as int);
    SmallMod(ReadLength(b));
    var c := BigEndian(ReadLength(b));
    assert c[0] == b[0] && c[1] == b[1] && c[2] == b[2] && c[3] == b[3];
  }

  lemma SmallMod(n: nat)
    requires n < LIMIT
    ensures n % LIMIT == n
  {
  }

  lemma BytesOfSum(b0: nat, b1: nat, b2: nat, b3: nat)
    requires b0 < 0x100 && b1 < 0x100 && b2 < 0x100 && b3 < 0x100
    ensures var v := b0 * 0x100_0000 + b1 * 0x1_0000 + b2 * 0x100 + b3;
            v < LIMIT && v / 0x100_0000 == b0 && v / 0x1_0000 % 0x100 == b1 && v / 0x100 % 0x100 == b2
                && v % 0x100 == b3
  {
    var high, upper := b0 * 0x100 + b1, (b0 * 0x100 + b1) * 0x100 + b2;
    var v := upper * 0x100 + b3;
    DropByte(upper, b3);
    assert v / 0x100 == upper;
    DropByte(high, b2);
    assert v / 0x1_0000 == upper / 0x100 == high;
    DropByte(b0, b1);
    assert v / 0x100_0000 == high / 0x100 == b0;
  }

  lemma DropByte(q: nat, r: nat)
    requires r < 0x100
    ensures (q * 0x100 + r) / 0x100 == q && (q * 0x100 + r) % 0x100 == r
  {
  }

  // ---- the decoder's own arithmetic ----

  function Pow2(k: nat): (p: nat)
    ensures p >= 1
  {
    if k == 0 then 1 else 2 * Pow2(k - 1)
  }

  /** Go's `|` on unsigned integers, bit by bit from the lowest. */
  function Or(a: nat, b: nat): nat
    decreases a + b
  {
    if a == 0 && b == 0 then 0
    else 2 * Or(a / 2, b / 2) + if a % 2 == 1 || b % 2 == 1 then 1 else 0
  }

  /** `uint32(x) << k`: bits beyond the word are dropped. */
  function ShiftLeft(x: nat, k: nat): nat
  {
    x * Pow2(k) % LIMIT
  }

  /** `uint32(b[0])<<24 | uint32(b[1])<<16 | uint32(b[2])<<8 | uint32(b[3])`. */
  function ShiftOr(b: seq<byte>): nat
    requires |b| >= 4
  {
    Or(Or(Or(ShiftLeft(b[0] as int, 24), ShiftLeft(b[1] as int, 16)), ShiftLeft(b[2] as int, 8)), b[3] as int)
  }

  lemma {:induction false} OrZero(a: nat)
    ensures Or(a, 0) == a
  {
    if a > 0 {
      OrZero(a / 2);
    }
  }

  /** Or-ing numbers whose bits do not overlap is adding them. */
  lemma {:induction false} OrDisjoint(x: nat, k: nat, b: nat)
    requires b < Pow2(k)
    ensures Or(x * Pow2(k), b) == x * Pow2(k) + b
  {
    if k == 0 {
      OrZero(x);
    } else {
      Halve(x, k);
      OrDisjoint(x, k - 1, b / 2);
    }
  }

  lemma Halve(x: nat, k: nat)
    requires k > 0
    ensures x * Pow2(k) == 2 * (x * Pow2(k - 1))
    ensures x * Pow2(k) / 2 == x * Pow2(k - 1) && x * Pow2(k) % 2 == 0
  {
    var half := x * Pow2(k - 1);
    assert x * Pow2(k) == 2 * half;
  }

  lemma PowersOfTwo()
    ensures Pow2(8) == 0x100 && Pow2(16) == 0x1_0000 && Pow2(24) == 0x100_0000
  {
    assert Pow2(4) == 16;
    assert Pow2(8) == 0x100;
    assert Pow2(12) == 0x1000;
    assert Pow2(16) == 0x1_0000;
    assert Pow2(20) == 0x10_0000;
  }

  /** The shift-and-or expression is the number the encoder wrote. */
  lemma ShiftOrIsReadLength(b: seq<byte>)
    requires |b| >= 4
    ensures ShiftOr(b) == ReadLength(b)
  {
    var b0, b1, b2, b3 := b[0] as int, b[1] as int, b[2] as int, b[3] as int;
    PowersOfTwo();
    SmallMod(b0 * 0x100_0000);
    SmallMod(b1 * 0x1_0000);
    SmallMod(b2 * 0x100);
    OrDisjoint(b0, 24, b1 * 0x1_0000);
    OrDisjoint(b0 * 0x100 + b1, 16, b2 * 0x100);
    OrDisjoint((b0 * 0x100 + b1) * 0x100 + b2, 8, b3);
  }

  // ---- encoding ----

  function Frame(m: Message): (bytes: seq<byte>)
    ensures |bytes| == 5 + |m.payload|
  {
    [m.kind] + BigEndian(|m.payload|) + m.payload
  }

  method PutUint32(a: array<byte>, at: nat, n: nat)
    requires at + 4 <= a.Length
    modifies a
    ensures a[at..at + 4] == BigEndian(n)
    ensures forall i | 0 <= i < a.Length && !(at <= i < at + 4) :: a[i] == old(a[i])
  {
    var b := BigEndian(n);
    a[at] := b[0];
    a[at + 1] := b[1];
    a[at + 2] := b[2];
    a[at + 3] := b[3];
  }

  /** The shape every encoder fills: kind, length, then a copy of the payload. */
  method Encode(kind: byte, data: seq<byte>) returns (msg: array<byte>)
    ensures fresh(msg) && msg[..] == Frame(Message(kind, data))
  {
    msg := new byte[1 + 4 + |data|];
    msg[0] := kind;
    PutUint32(msg, 1, |data|);
    for i := 0 to |data|
      invariant msg[0] == kind && msg[1..5] == BigEndian(|data|)
      invariant forall j | 0 <= j < i :: msg[5 + j] == data[j]
    {
      msg[5 + i] := data[i];
    }
    assert msg[5..] == data;
    assert msg[..] == [msg[0]] + msg[1..5] + msg[5..];
  }

  /** `json` is the marshalled batch. */
  method EncodeRowBatch(json: seq<byte>) returns (msg: array<byte>)
    ensures fresh(msg) && msg[..] == [0x01] + BigEndian(|json|) + json
  {
    msg := Encode(MSG_ROW_BATCH, json);
  }

  method EncodeError(text: seq<byte>) returns (msg: array<byte>)
    ensures fresh(msg) && msg[..] == [0x03] + BigEndian(|text|) + text
  {
    msg := Encode(MSG_ERROR, text);
  }

  method EncodeCompleted() returns (msg: array<byte>)
    ensures fresh(msg) && msg[..] == [0x02, 0, 0, 0, 0]
  {
    msg := Encode(MSG_COMPLETED, []);
  }

  method EncodeHeartbeat() returns (msg: array<byte>)
    ensures fresh(msg) && msg[..] == [0x04, 0, 0, 0, 0]
  {
    msg := Encode(MSG_HEARTBEAT, []);
  }

  // ---- decoding a whole stream ----

  datatype Decoded = Malformed | Messages(messages: seq<Message>)

  function Concat(ms: seq<Message>): seq<byte>
  {
    if ms == [] then [] else Frame(ms[0]) + Concat(ms[1..])
  }

  /** Cuts a byte stream at its length fields. */
  function Split(s: seq<byte>): Decoded
    decreases |s|
  {
    if s == [] then Messages([])
    else if |s| < 5 then Malformed
    else
      var n := ReadLength(s[1..5]);
      if |s| < 5 + n then Malformed
      else
        match Split(s[5 + n..])
        case Malformed => Malformed
        case Messages(rest) => Messages([Message(s[0], s[5..5 + n])] + rest)
  }

  predicate Sized(ms: seq<Message>)
  {
    forall i | 0 <= i < |ms| :: |ms[i].payload| < LIMIT
  }

  lemma FrameHead(m: Message, rest: seq<byte>)
    ensures var s := Frame(m) + rest;
            && |s| >= 5 && s[0] == m.kind && ReadLength(s[1..5]) == |m.payload| % LIMIT
            && s[5..5 + |m.payload|] == m.payload && s[5 + |m.payload|..] == rest
  {
    var s := Frame(m) + rest;
    assert s[1..5] == BigEndian(|m.payload|);
    LengthRoundTrip(|m.payload|);
  }

  lemma SplitFrame(m: Message, rest: seq<byte>)
    requires |m.payload| < LIMIT && Split(rest).Messages?
    ensures Split(Frame(m) + rest) == Messages([m] + Split(rest).messages)
  {
    FrameHead(m, rest);
    SmallMod(|m.payload|);
    SplitOnce(Frame(m) + rest, |m.payload|);
  }

  lemma SplitOnce(s: seq<byte>, n: nat)
    requires 5 + n <= |s| && ReadLength(s[1..5]) == n && Split(s[5 + n..]).Messages?
    ensures Split(s) == Messages([Message(s[0], s[5..5 + n])] + Split(s[5 + n..]).messages)
  {
  }

  /** Any concatenation of frames splits back into the same messages. */
  lemma {:induction false} SplitInvertsConcat(ms: seq<Message>)
    requires Sized(ms)
    ensures Split(Concat(ms)) == Messages(ms)
  {
    if ms != [] {
      SplitInvertsConcat(ms[1..]);
      SplitFrame(ms[0], Concat(ms[1..]));
      assert ms == [ms[0]] + ms[1..];
    }
  }

  /** Whatever splits at all is the concatenation of what it splits into. */
  lemma {:induction false} ConcatInvertsSplit(s: seq<byte>)
    requires Split(s).Messages?
    ensures Sized(Split(s).messages) && Concat(Split(s).messages) == s
    decreases |s|
  {
    if s != [] {
      var n := ReadLength(s[1..5]);
      var ms := Split(s).messages;
      ConcatInvertsSplit(s[5 + n..]);
      assert ms[1..] == Split(s[5 + n..]).messages;
      LengthInjective(s[1..5]);
      FrameOfSlice(s, n);
    }
  }

  lemma FrameOfSlice(s: seq<byte>, n: nat)
    requires 5 + n <= |s| && BigEndian(n) == s[1..5]
    ensures Frame(Message(s[0], s[5..5 + n])) + s[5 + n..] == s
  {
    assert s == [s[0]] + s[1..5] + s[5..5 + n] + s[5 + n..];
  }

  /** Frames are uniquely decodable: equal streams come from equal message lists. */
  lemma UniquelyDecodable(a: seq<Message>, b: seq<Message>)
    requires Sized(a) && Sized(b) && Concat(a) == Concat(b)
    ensures a == b
  {
    SplitInvertsConcat(a);
    SplitInvertsConcat(b);
  }

  // ---- the demo client ----

  datatype ParseResult = Raw(data: seq<byte>) | Parsed(message: Message) | Panic

  /**
   * parseMessage on the first `n` bytes of a read buffer.  `5 + payloadLen` is 32-bit arithmetic,
   * and a Go slice may reach up to the buffer's capacity.
   */
  function ParseMessage(buffer: seq<byte>, n: nat): ParseResult
    requires n <= |buffer|
  {
    if n < 5 then Raw(buffer[..n])
    else
      var end := (5 + ShiftOr(buffer[1..5])) % LIMIT;
      if end < 5 || end > |buffer| then Panic
      else Parsed(Message(buffer[0], buffer[5..end]))
  }

  /**
   * All that the client can make of a read: fewer than five bytes are passed on as they are; a length
   * beyond the buffer, or beyond 2^32 - 6, panics; anything else is a message whose payload is taken
   * from the buffer, beyond what was read if need be.
   */
  lemma ParseMessageIs(buffer: seq<byte>, n: nat)
    requires n <= |buffer|
    ensures n < 5 ==> ParseMessage(buffer, n) == Raw(buffer[..n])
    ensures n >= 5 ==>
              var length := ReadLength(buffer[1..5]);
              ParseMessage(buffer, n)
              == if length > LIMIT - 6 || 5 + length > |buffer| then Panic
                 else Parsed(Message(buffer[0], buffer[5..5 + length]))
  {
    if n >= 5 {
      ShiftOrIsReadLength(buffer[1..5]);
      EndOfFrame(ReadLength(buffer[1..5]));
    }
  }

  /** A frame cut short by the read is completed with whatever the buffer held behind it. */
  lemma ShortReadIsCompleted(m: Message, n: nat, left: seq<byte>)
    requires 5 <= n < |Frame(m)| && |m.payload| <= LIMIT - 6 && |left| >= |Frame(m)| - n
    ensures ParseMessage(Frame(m)[..n] + left, n)
            == Parsed(Message(m.kind, m.payload[..n - 5] + left[..|Frame(m)| - n]))
  {
    SmallMod(|m.payload|);
    ShortBuffer(m, n, left);
    ParseMessageIs(Frame(m)[..n] + left, n);
  }

  lemma ShortBuffer(m: Message, n: nat, left: seq<byte>)
    requires 5 <= n < |Frame(m)| && |left| >= |Frame(m)| - n
    ensures var buffer := Frame(m)[..n] + left;
            && buffer[0] == m.kind && ReadLength(buffer[1..5]) == |m.payload| % LIMIT
            && buffer[5..5 + |m.payload|] == m.payload[..n - 5] + left[..|Frame(m)| - n]
  {
    var buffer := Frame(m)[..n] + left;
    FrameHead(m, []);
    assert Frame(m) + [] == Frame(m);
    assert buffer[1..5] == Frame(m)[1..5];
    ShortPayload(Frame(m)[..5], m.payload, n - 5, left);
    assert Frame(m)[..n] == Frame(m)[..5] + m.payload[..n - 5];
  }

  lemma ShortPayload(head: seq<byte>, payload: seq<byte>, k: nat, left: seq<byte>)
    requires k <= |payload| && |left| >= |payload| - k
    ensures (head + payload[..k] + left)[|head|..|head| + |payload|] == payload[..k] + left[..|payload| - k]
  {
  }

  lemma EndOfFrame(n: nat)
    requires n < LIMIT
    ensures (5 + n) % LIMIT == if n <= LIMIT - 6 then 5 + n else 5 + n - LIMIT
  {
  }

  /** A buffer that starts with a whole frame, once the frame's length field is known. */
  lemma ParseFirst(buffer: seq<byte>, n: nat, m: Message)
    requires 5 + |m.payload| <= n <= |buffer| && |m.payload| < LIMIT
    requires buffer[0] == m.kind && ReadLength(buffer[1..5]) == |m.payload| && buffer[5..5 + |m.payload|] == m.payload
    ensures ParseMessage(buffer, n) == if |m.payload| <= LIMIT - 6 then Parsed(m) else Panic
  {
    ShiftOrIsReadLength(buffer[1..5]);
    EndOfFrame(|m.payload|);
  }

  /**
   * When a whole frame has been read, the client recovers it iff its payload is at most 2^32 - 6
   * bytes; beyond, it panics.
   */
  lemma ParseRecoversIff(m: Message, rest: seq<byte>, unread: seq<byte>)
    requires |m.payload| < LIMIT
    ensures var data := Frame(m) + rest;
            && (ParseMessage(data + unread, |data|) == Parsed(m) <==> |m.payload| <= LIMIT - 6)
            && (|m.payload| > LIMIT - 6 ==> ParseMessage(data + unread, |data|) == Panic)
  {
    var data := Frame(m) + rest;
    FrameHead(m, rest + unread);
    SmallMod(|m.payload|);
    assert data + unread == Frame(m) + (rest + unread);
    ParseFirst(data + unread, |data|, m);
  }
}
