/** Frames of the WebSocket protocol, section 5.2 of RFC 6455: decoding and building them. */
module WebSocket {
  import opened Options
  import opened Bytes

  /** Lengths are kept in 64 bits. */
  const WORD := 0x1_0000_0000_0000_0000

  // ------------------------------------------------------------------ the reference

  /** How the length of a payload is written: in the second byte, or in the bytes after it. */
  datatype Form = Short | Medium | Long

  function ExtraBytes(f: Form): nat
  {
    match f
    case Short => 0
    case Medium => 2
    case Long => 8
  }

  /** The form can carry the length. */
  predicate Carries(f: Form, n: nat)
  {
    match f
    case Short => n <= 125
    case Medium => n < 0x1_0000
    case Long => n < WORD
  }

  /** The bytes that give a length; `mask` is the top bit of the first of them. */
  function LengthField(f: Form, n: nat, masked: bool): (s: seq<Byte>)
    requires Carries(f, n)
    ensures |s| == 1 + ExtraBytes(f)
  {
    var bit := if masked then 128 else 0;
    match f
    case Short => [bit + n]
    case Medium => [bit + 126] + Digits(n, 2)
    case Long => [bit + 127] + Digits(n, 8)
  }

  function Masked(payload: seq<Byte>, mask: seq<Byte>): (s: seq<Byte>)
    requires |mask| == 4
    ensures |s| == |payload|
  {
    seq(|payload|, i requires 0 <= i < |payload| => XorByte(payload[i], mask[i % 4]))
  }

  /** A frame from a client. */
  function ClientFrame(first: Byte, f: Form, mask: seq<Byte>, payload: seq<Byte>): seq<Byte>
    requires |mask| == 4 && Carries(f, |payload|)
  {
    [first] + LengthField(f, |payload|, true) + mask + Masked(payload, mask)
  }

  /** Applying the mask twice gives the payload back. */
  lemma MaskedTwice(payload: seq<Byte>, mask: seq<Byte>)
    requires |mask| == 4
    ensures Masked(Masked(payload, mask), mask) == payload
  {
    forall i | 0 <= i < |payload| ensures Masked(Masked(payload, mask), mask)[i] == payload[i] {
      XorTwice(payload[i], mask[i % 4]);
    }
  }

  // ----------------------------------------------------------------------- decoding

  datatype Decoded = Decoded(malformed: bool, pending: bool, headerLength: nat, payloadLength: nat, decoded: seq<Byte>)

  function FormOf(second: Byte): Form
  {
    match second % 128
    case 126 => Medium
    case 127 => Long
    case _ => Short
  }

  /** The length field is complete. */
  predicate LengthKnown(buffer: seq<Byte>) { |buffer| >= 2 && |buffer| >= 2 + ExtraBytes(FormOf(buffer[1])) }

  /** The length that a frame announces, once its length field is there. */
  function Announced(buffer: seq<Byte>): nat
    requires LengthKnown(buffer)
  {
    var f := FormOf(buffer[1]);
    if f.Short? then buffer[1] % 128 else Number(buffer[2..2 + ExtraBytes(f)])
  }

  /** The first byte, the length field and the mask. */
  function HeaderLength(f: Form): nat { 6 + ExtraBytes(f) }

  /** A frame read by its layout: the bytes before the payload are taken for a masking key, and
      any length form will do.  One byte after the first two is wanted even for a short frame. */
  function ByLayout(buffer: seq<Byte>): Decoded
  {
    if |buffer| < 3 || !LengthKnown(buffer) then Decoded(false, true, 0, 0, [])
    else
      var h, n := HeaderLength(FormOf(buffer[1])), Announced(buffer);
      if |buffer| < h + n then Decoded(false, true, h, n, [])
      else Decoded(false, false, h, n, Masked(buffer[h..h + n], buffer[h - 4..h]))
  }

  /** The reserved bits are clear, the opcode is a known one, and a control frame is not a
      fragment (sections 5.2 and 5.5). */
  predicate FirstByteOk(first: Byte)
  {
    && first / 16 % 8 == 0 && (first % 16 <= 2 || 8 <= first % 16 <= 10)
    && (first % 16 >= 8 ==> first >= 128)
  }

  /** The shortest form that carries the length is used, the top bit of a long one is clear, a
      control frame has a short one, and a close frame has room for a status code if it has a
      body (sections 5.2, 5.5 and 5.5.1). */
  predicate LengthOk(first: Byte, f: Form, n: nat)
  {
    && (f.Medium? ==> 125 < n) && (f.Long? ==> 0xFFFF < n < WORD / 2)
    && (first % 16 >= 8 ==> f.Short?) && (first % 16 == 8 ==> n != 1)
  }

  /** What the rules allow as a first byte: parts of a message, whole ones, and control frames. */
  lemma FirstBytes(b: Byte)
    ensures FirstByteOk(b) <==> b in {0, 1, 2, 128, 129, 130, 136, 137, 138}
  {
  }

  function Shortest(n: nat): Form { if n <= 125 then Short else if n <= 65535 then Medium else Long }

  /** A message has the shortest form for a length below 2^63, a control frame at most 125 bytes,
      and a close frame not just one. */
  lemma LengthRules(b: Byte, f: Form, n: nat)
    requires FirstByteOk(b) && Carries(f, n)
    ensures b % 16 < 8 ==> (LengthOk(b, f, n) <==> f == Shortest(n) && n < 0x8000_0000_0000_0000)
    ensures b % 16 >= 8 ==> (LengthOk(b, f, n) <==> f == Short && !(b == 136 && n == 1))
  {
    hide FirstByteOk;
    FirstBytes(b);
  }

  /** The bytes that have come already break a rule for the header of a frame from a client; the
      top bit of the second byte is the mask bit, which a client has to set (section 5.1). */
  predicate Violates(buffer: seq<Byte>)
  {
    || (|buffer| >= 1 && !FirstByteOk(buffer[0]))
    || (|buffer| >= 2 && buffer[1] < 128)
    || (|buffer| >= 2 && buffer[0] % 16 >= 8 && !FormOf(buffer[1]).Short?)
    || (LengthKnown(buffer) && !LengthOk(buffer[0], FormOf(buffer[1]), Announced(buffer)))
  }

  /** What the protocol asks of the decoder of a server. */
  function Reference(buffer: seq<Byte>): Decoded
  {
    if Violates(buffer) then Decoded(true, false, 0, 0, []) else ByLayout(buffer)
  }

  /** The sum of the two lengths is cut to 64 bits. */
  function TotalLength(buffer: seq<Byte>): nat
    requires LengthKnown(buffer)
  {
    (HeaderLength(FormOf(buffer[1])) + Announced(buffer)) % WORD
  }

  /** The length of the frame that a buffer starts with does not fit in 64 bits, and there are
      as many bytes as the wrapped length asks for. */
  predicate Wraps(buffer: seq<Byte>)
  {
    && |buffer| >= 3 && LengthKnown(buffer)
    && HeaderLength(FormOf(buffer[1])) + Announced(buffer) >= WORD
    && |buffer| >= TotalLength(buffer)
  }

  /**
    The decoder reads a frame by its layout exactly when the length does not wrap; else it takes
    a frame with a huge length for a complete one with no payload.  It does what the protocol
    asks exactly when the header bytes that have come break no rule, since it never reports that they
    do; in particular it takes an unmasked frame for a masked one.
   */
  method DecodeFrame(buffer: seq<Byte>) returns (r: Decoded)
    ensures r == ByLayout(buffer) <==> !Wraps(buffer)
    ensures Wraps(buffer) ==> !r.pending && r.payloadLength == Announced(buffer) > 0 && r.decoded == []
    ensures !r.malformed
    ensures r == Reference(buffer) <==> !Violates(buffer)
  {
    hide Masked, Number, XorByte, Violates;
    WrapsViolates(buffer);
    if |buffer| < 2 {
      return Decoded(false, true, 0, 0, []);
    }
    var lenBytes := match buffer[1] % 128 { case 126 => 2 case 127 => 8 case _ => 1 };
    if |buffer| - 2 < lenBytes {
      return Decoded(false, true, 0, 0, []);
    }
    var payloadLength := if lenBytes == 1 then buffer[1] % 128 else Number(buffer[2..2 + lenBytes]);
    AnnouncedFits(buffer);
    Wrapped(HeaderLength(FormOf(buffer[1])), payloadLength);
    var headerLength := 1 + lenBytes + 4;
    if lenBytes > 1 {
      headerLength := headerLength + 1;
    }
    var totalLength := (headerLength + payloadLength) % WORD;
    if |buffer| < totalLength {
      return Decoded(false, true, headerLength, payloadLength, []);
    }
    var decoded := Unmask(buffer, headerLength, totalLength);
    assert !Wraps(buffer) ==> decoded == ByLayout(buffer).decoded;
    return Decoded(false, false, headerLength, payloadLength, decoded);
  }

  /** The loop that takes the mask off. */
  method Unmask(buffer: seq<Byte>, headerLength: nat, totalLength: nat) returns (decoded: seq<Byte>)
    requires 4 <= headerLength && totalLength <= |buffer|
    ensures totalLength < headerLength ==> decoded == []
    ensures headerLength <= totalLength ==>
      decoded == Masked(buffer[headerLength..totalLength], buffer[headerLength - 4..headerLength])
  {
    decoded := [];
    var i, j := headerLength, 0;
    while i < totalLength
      invariant i == headerLength + j && j == |decoded| && (i <= totalLength || j == 0)
      invariant forall k :: 0 <= k < j ==> decoded[k] == XorByte(buffer[headerLength + k], buffer[headerLength - 4 + k % 4])
    {
      decoded := decoded + [XorByte(buffer[i], buffer[headerLength - 4 + j % 4])];
      i, j := i + 1, j + 1;
    }
    if headerLength <= totalLength {
      var mask := buffer[headerLength - 4..headerLength];
      var masked := buffer[headerLength..totalLength];
      assert |decoded| == |Masked(masked, mask)|;
      forall k | 0 <= k < j ensures decoded[k] == Masked(masked, mask)[k] {
        assert mask[k % 4] == buffer[headerLength - 4 + k % 4];
        assert masked[k] == buffer[headerLength + k];
      }
    }
  }

  /** A length that wraps has its top bit set. */
  lemma WrapsViolates(buffer: seq<Byte>)
    ensures Wraps(buffer) ==> Violates(buffer)
  {
    if LengthKnown(buffer) {
      AnnouncedFits(buffer);
    }
  }

  lemma Wrapped(h: nat, n: nat)
    requires h < WORD && n < WORD
    ensures (h + n) % WORD == if h + n < WORD then h + n else h + n - WORD
  {
  }

  lemma AnnouncedFits(buffer: seq<Byte>)
    requires LengthKnown(buffer)
    ensures Announced(buffer) < WORD && (Announced(buffer) < 0x1_0000 || FormOf(buffer[1]).Long?)
  {
    assert Pow256(2) == 0x1_0000 && Pow256(8) == WORD;
    if !FormOf(buffer[1]).Short? {
      DigitsOfNumber(buffer[2..2 + ExtraBytes(FormOf(buffer[1]))]);
    }
  }

  /** Every form announces the length that was put into it. */
  lemma FieldAnnounces(first: Byte, f: Form, n: nat, masked: bool, rest: seq<Byte>)
    requires Carries(f, n)
    ensures var s := [first] + LengthField(f, n, masked) + rest;
      FormOf(s[1]) == f && LengthKnown(s) && Announced(s) == n && (s[1] >= 128 <==> masked)
  {
    var field := LengthField(f, n, masked);
    var s := [first] + field + rest;
    assert s[1] == field[0];
    assert Pow256(2) == 0x1_0000 && Pow256(8) == WORD;
    if !f.Short? {
      NumberOfDigits(n, ExtraBytes(f));
      assert s[2..2 + ExtraBytes(f)] == Digits(n, ExtraBytes(f));
    }
  }

  /** A frame in any of the three forms, whatever follows it, decodes to its payload.  It breaks
      a rule exactly when its first byte or its choice of form does. */
  lemma ClientFrameDecodes(first: Byte, f: Form, mask: seq<Byte>, payload: seq<Byte>, rest: seq<Byte>)
    requires |mask| == 4 && Carries(f, |payload|)
    ensures ByLayout(ClientFrame(first, f, mask, payload) + rest)
         == Decoded(false, false, HeaderLength(f), |payload|, payload)
    ensures Wraps(ClientFrame(first, f, mask, payload) + rest) <==> HeaderLength(f) + |payload| >= WORD
    ensures Violates(ClientFrame(first, f, mask, payload) + rest)
       <==> !FirstByteOk(first) || !LengthOk(first, f, |payload|)
  {
    hide Announced, LengthKnown, LengthField, FormOf, Masked, FirstByteOk;
    var masked := Masked(payload, mask);
    var s := ClientFrame(first, f, mask, payload) + rest;
    var h := HeaderLength(f);
    assert s == [first] + LengthField(f, |payload|, true) + (mask + masked + rest);
    FieldAnnounces(first, f, |payload|, true, mask + masked + rest);
    assert s[0] == first;
    assert s[h - 4..h] == mask && s[h..h + |payload|] == masked;
    MaskedTwice(payload, mask);
    Wrapped(h, |payload|);
  }

  /** Of a frame that is not all there, the decoder asks for the rest. */
  lemma PrefixIsPending(first: Byte, f: Form, mask: seq<Byte>, payload: seq<Byte>, k: nat)
    requires |mask| == 4 && Carries(f, |payload|) && k < |ClientFrame(first, f, mask, payload)|
    ensures var p := ClientFrame(first, f, mask, payload)[..k];
      && ByLayout(p).pending
      && (HeaderLength(f) + |payload| < WORD ==> !Wraps(p))
      && (FirstByteOk(first) && LengthOk(first, f, |payload|) ==> Reference(p).pending && !Reference(p).malformed)
  {
    hide Announced, LengthField, FormOf, Masked, FirstByteOk;
    var s := ClientFrame(first, f, mask, payload);
    var p := s[..k];
    FieldAnnounces(first, f, |payload|, true, mask + Masked(payload, mask));
    assert s == [first] + LengthField(f, |payload|, true) + (mask + Masked(payload, mask));
    assert s[0] == first;
    assert k >= 1 ==> p[0] == s[0];
    assert k >= 2 ==> p[1] == s[1];
    if LengthKnown(p) {
      SameAnnounced(s, p);
    }
  }

  /** An unmasked frame with the text "A", as a server sends it, with four more bytes: a client
      reads it, and a server has to refuse it; by its layout it is a complete frame with other
      text. */
  lemma UnmaskedIsMisread(rest: seq<Byte>)
    requires |rest| == 4
    ensures var s := [129, 1, 65] + rest;
      && ReadServerFrame(s) == Some((129, [65], rest))
      && !Wraps(s) && Reference(s).malformed
      && ByLayout(s) == Decoded(false, false, 6, 1, [XorByte(rest[3], 65)])
  {
    hide XorByte;
    var s := [129, 1, 65] + rest;
    assert s[2..3] == [65] && s[3..] == rest;
    assert s[6..7] == [rest[3]] && s[2..6] == [65] + rest[..3];
    assert Masked(s[6..7], s[2..6]) == [XorByte(rest[3], 65)];
  }

  lemma SameAnnounced(s: seq<Byte>, p: seq<Byte>)
    requires p <= s && LengthKnown(p)
    ensures LengthKnown(s) && FormOf(p[1]) == FormOf(s[1]) && Announced(p) == Announced(s)
  {
    var n := ExtraBytes(FormOf(p[1]));
    assert p[2..2 + n] == s[2..2 + n];
  }

  // ----------------------------------------------------------------------- building

  /** Exchange the two bytes of a 16-bit number, as between host order and network order. */
  function SwapBytes(n: nat): nat { n % 256 * 256 + n / 256 % 256 }

  /** A number as it lies in memory, with the low byte first. */
  function InMemory(n: nat, k: nat): (s: seq<Byte>)
    ensures |s| == k
  {
    if k == 0 then [] else [n % 256] + InMemory(n / 256, k - 1)
  }

  method CopyTo(a: array<Byte>, at: nat, bytes: seq<Byte>)
    requires at + |bytes| <= a.Length
    modifies a
    ensures a[..] == old(a[..])[..at] + bytes + old(a[..])[at + |bytes|..]
  {
    var i := 0;
    while i < |bytes|
      invariant 0 <= i <= |bytes|
      invariant forall j :: 0 <= j < a.Length ==> a[j] == if at <= j < at + i then bytes[j - at] else old(a[j])
    {
      a[at + i] := bytes[i];
      i := i + 1;
    }
  }

  /** The length field that the frame builder writes.  The long form is built from a 16-bit
      number, which is swapped and then stored in eight bytes. */
  function ServerField(n: nat): seq<Byte>
  {
    if n <= 125 then LengthField(Short, n, false)
    else if n <= 65535 then LengthField(Medium, n, false)
    else [127] + InMemory(SwapBytes(n % 0x1_0000), 8)
  }

  function ServerFrame(payload: seq<Byte>): seq<Byte> { [129] + ServerField(|payload|) + payload }

  method CreateFrame(payload: seq<Byte>) returns (buffer: seq<Byte>)
    ensures buffer == ServerFrame(payload)
  {
    var header := new Byte[10](_ => 0);
    header[0] := 129;
    var headerLength;
    var len := |payload|;
    if len <= 125 {
      header[1] := len;
      headerLength := 2;
    } else if len <= 65535 {
      header[1] := 126;
      SwapIsNetworkOrder(len);
      CopyTo(header, 2, InMemory(SwapBytes(len), 2));
      headerLength := 4;
    } else {
      header[1] := 127;
      CopyTo(header, 2, InMemory(SwapBytes(len % 0x1_0000), 8));
      headerLength := 10;
    }
    assert header[..headerLength] == [129] + ServerField(len);
    buffer := header[..headerLength] + payload;
  }

  lemma SwapIsNetworkOrder(n: nat)
    requires n < 0x1_0000
    ensures InMemory(SwapBytes(n), 2) == Digits(n, 2)
  {
    assert Digits(n, 2) == Digits(n / 256, 1) + [n % 256] && Digits(n / 256, 1) == [n / 256 % 256];
    assert InMemory(SwapBytes(n), 2) == [SwapBytes(n) % 256] + InMemory(SwapBytes(n) / 256, 1);
  }

  /** How a client reads a frame, which a server sends without a mask: its first byte, its
      payload, and what follows it. */
  function ReadServerFrame(s: seq<Byte>): Option<(Byte, seq<Byte>, seq<Byte>)>
  {
    if !LengthKnown(s) || s[1] >= 128 then None
    else
      var h, n := 2 + ExtraBytes(FormOf(s[1])), Announced(s);
      if |s| < h + n then None else Some((s[0], s[h..h + n], s[h + n..]))
  }

  /** A client refuses a masked frame (section 5.1). */
  lemma MaskedIsRefused(first: Byte, f: Form, mask: seq<Byte>, payload: seq<Byte>, rest: seq<Byte>)
    requires |mask| == 4 && Carries(f, |payload|)
    ensures ReadServerFrame(ClientFrame(first, f, mask, payload) + rest) == None
  {
    hide Announced, LengthField, FormOf, Masked;
    var masked := Masked(payload, mask);
    var s := ClientFrame(first, f, mask, payload) + rest;
    assert s == [first] + LengthField(f, |payload|, true) + (mask + masked + rest);
    FieldAnnounces(first, f, |payload|, true, mask + masked + rest);
  }

  lemma ShortFrameParses(f: Form, payload: seq<Byte>, rest: seq<Byte>)
    requires Carries(f, |payload|)
    ensures ReadServerFrame([129] + LengthField(f, |payload|, false) + payload + rest) == Some((129, payload, rest))
  {
    hide Announced, LengthField, FormOf;
    var s := [129] + LengthField(f, |payload|, false) + payload + rest;
    assert s == [129] + LengthField(f, |payload|, false) + (payload + rest);
    FieldAnnounces(129, f, |payload|, false, payload + rest);
    var h := 2 + ExtraBytes(f);
    assert s[h..h + |payload|] == payload && s[h + |payload|..] == rest;
  }

  lemma {:induction false} NumberShifted(s: seq<Byte>, k: nat)
    ensures Number(s + seq(k, _ => 0)) == Number(s) * Pow256(k)
  {
    var t := s + seq(k, _ => 0);
    if k == 0 {
      assert t == s;
    } else {
      NumberShifted(s, k - 1);
      assert t[..|t| - 1] == s + seq(k - 1, _ => 0) && t[|t| - 1] == 0;
      Shift(Number(s), Pow256(k - 1));
    }
  }

  /** In the long form the announced length is a multiple of 2^48, and never the right one. */
  lemma LongFieldIsWrong(n: nat, rest: seq<Byte>)
    requires n > 65535
    ensures var s := [129] + ServerField(n) + rest; LengthKnown(s) && Announced(s) != n && FormOf(s[1]) == Long
  {
    hide Number, Digits, InMemory;
    var s := [129] + ServerField(n) + rest;
    var low := n % 0x1_0000;
    assert s[1] == 127;
    LongFieldBytes(low);
    assert s[2..10] == Digits(low, 2) + seq(6, _ => 0);
    NumberShifted(Digits(low, 2), 6);
    assert Pow256(2) == 0x1_0000 && Pow256(6) == 0x1_0000_0000_0000;
    NumberOfDigits(low, 2);
    NeverRight(n);
  }

  lemma NeverRight(n: nat)
    requires n > 65535
    ensures n % 0x1_0000 * 0x1_0000_0000_0000 != n
  {
    assert n % 0x1_0000 * 0x1_0000_0000_0000 % 0x1_0000 == 0;
  }

  lemma LongFieldBytes(low: nat)
    requires low < 0x1_0000
    ensures InMemory(SwapBytes(low), 8) == Digits(low, 2) + seq(6, _ => 0)
  {
    SwapIsNetworkOrder(low);
    var v := SwapBytes(low);
    assert v / 256 / 256 == 0;
    ZeroInMemory(6);
    assert InMemory(v, 8) == [v % 256] + ([v / 256 % 256] + InMemory(0, 6));
    assert InMemory(v, 2) == [v % 256] + ([v / 256 % 256] + InMemory(0, 0));
  }

  lemma {:induction false} ZeroInMemory(k: nat)
    ensures InMemory(0, k) == seq(k, _ => 0)
  {
    if k > 0 {
      ZeroInMemory(k - 1);
    }
  }

  /** What the server builds reads back as it was exactly for payloads up to 65535 bytes. */
  lemma CreatedFrameParses(payload: seq<Byte>, rest: seq<Byte>)
    ensures ReadServerFrame(ServerFrame(payload) + rest) == Some((129, payload, rest)) <==> |payload| <= 65535
  {
    hide LengthField, Announced, FormOf, InMemory;
    var n := |payload|;
    if n <= 65535 {
      ShortFrameParses(if n <= 125 then Short else Medium, payload, rest);
    } else {
      LongFieldIsWrong(n, payload + rest);
      var s := ServerFrame(payload) + rest;
      assert s == [129] + ServerField(n) + (payload + rest);
    }
  }
}
