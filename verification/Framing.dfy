/**
  The framing of a client connection: messages with a four-byte length in front arrive in
  chunks of any size, each complete message is delivered and acknowledged, and both buffers
  are bounded.
 */
module Framing {
  import opened Bytes

  /** The default size of a buffer, and the limit that every connection puts on a frame. */
  const BUFFER_SIZE := 1024 * (1024 + 512)

  // ------------------------------------------------------------------ the reference

  /** The number that the first four bytes stand for. */
  function Size(h: seq<Byte>): nat
    requires |h| >= 4
  {
    Number(h[..4])
  }

  function Header(n: nat): (h: seq<Byte>)
    requires n < 0x1_0000_0000
    ensures |h| == 4 && Size(h) == n
  {
    NumberOfDigits(n, 4);
    assert Digits(n, 4)[..4] == Digits(n, 4);
    Digits(n, 4)
  }

  lemma SizeIsHeader(h: seq<Byte>)
    requires |h| == 4
    ensures Size(h) < 0x1_0000_0000 && Header(Size(h)) == h
  {
    DigitsOfNumber(h);
    assert h[..4] == h;
  }

  /** In network order: the first byte has the most weight. */
  lemma NetworkOrder(a: Byte, b: Byte, c: Byte, d: Byte)
    ensures Size([a, b, c, d]) == 0x100_0000 * (a as int) + 0x1_0000 * (b as int) + 0x100 * (c as int) + d
  {
    var s := [a, b, c, d];
    assert s[..4] == s && s[1..] == [b, c, d] && [b, c, d][1..] == [c, d] && [c, d][1..] == [d] && [d][1..] == [];
    NumberFirst(s);
    NumberFirst([b, c, d]);
    NumberFirst([c, d]);
    NumberFirst([d]);
    assert Pow256(3) == 0x100_0000 && Pow256(2) == 0x1_0000 && Pow256(1) == 0x100 && Pow256(0) == 1;
  }

  predicate Fits(n: nat) { n + 4 <= BUFFER_SIZE }

  /** A message may have up to a megabyte and a half, less the four bytes of its header. */
  lemma FitsExactly(n: nat)
    ensures Fits(n) <==> n <= 1572860
  {
  }

  /** The bytes of a run of messages on the wire. */
  function Encoded(ms: seq<seq<Byte>>): seq<Byte>
    requires forall m :: m in ms ==> Fits(|m|)
  {
    if ms == [] then []
    else
      assert Fits(|ms[|ms| - 1]|);
      Encoded(ms[..|ms| - 1]) + (Header(|ms[|ms| - 1]|) + ms[|ms| - 1])
  }

  /** The messages that all the bytes of a connection hold, up to one that is not complete or
      too big. */
  function Parse(s: seq<Byte>): seq<seq<Byte>>
  {
    if |s| < 4 || !Fits(Size(s)) || |s| < 4 + Size(s) then []
    else [s[4..4 + Size(s)]] + Parse(s[4 + Size(s)..])
  }

  /** What is wanted next is not all there. */
  predicate Incomplete(s: seq<Byte>) { |s| < 4 || |s| < 4 + Size(s) }

  predicate TooBig(s: seq<Byte>) { |s| >= 4 && !Fits(Size(s)) }

  lemma ParseFrame(m: seq<Byte>, rest: seq<Byte>)
    requires Fits(|m|)
    ensures Parse(Header(|m|) + m + rest) == [m] + Parse(rest)
  {
    var s := Header(|m|) + m + rest;
    assert s[..4] == Header(|m|)[..4];
    assert s[4..4 + |m|] == m && s[4 + |m|..] == rest;
  }

  lemma EncodedNone()
    ensures Encoded([]) == []
  {
  }

  lemma EncodedMore(ms: seq<seq<Byte>>, m: seq<Byte>, rest: seq<Byte>)
    requires (forall m :: m in ms ==> Fits(|m|)) && Fits(|m|)
    ensures forall x :: x in ms + [m] ==> Fits(|x|)
    ensures Encoded(ms + [m]) + rest == Encoded(ms) + (Header(|m|) + (m + rest))
  {
    assert (ms + [m])[..|ms|] == ms;
    assert Encoded(ms + [m]) == Encoded(ms) + (Header(|m|) + m);
  }

  /** Parsing undoes encoding, whatever follows. */
  lemma {:induction false} ParseEncoded(ms: seq<seq<Byte>>, rest: seq<Byte>)
    requires forall m :: m in ms ==> Fits(|m|)
    ensures Parse(Encoded(ms) + rest) == ms + Parse(rest)
  {
    hide Parse, Header, Encoded;
    if ms == [] {
      EncodedNone();
      assert Encoded(ms) + rest == rest && ms + Parse(rest) == Parse(rest);
    } else {
      var front, m := ms[..|ms| - 1], ms[|ms| - 1];
      ParseEncoded(front, Header(|m|) + m + rest);
      ParseFrame(m, rest);
      EncodedMore(front, m, rest);
      assert front + [m] == ms;
      assert Header(|m|) + (m + rest) == Header(|m|) + m + rest;
      assert front + ([m] + Parse(rest)) == ms + Parse(rest);
    }
  }

  lemma FrameStatus(n: nat, s: seq<Byte>)
    requires n < 0x1_0000_0000
    ensures Incomplete(Header(n) + s) <==> |s| < n
    ensures TooBig(Header(n) + s) <==> !Fits(n)
  {
    assert (Header(n) + s)[..4] == Header(n)[..4];
  }

  lemma {:induction false} RepeatedLength(s: seq<Byte>, n: nat)
    ensures |Repeated(s, n)| == n * |s|
  {
    if n > 0 {
      RepeatedLength(s, n - 1);
    }
  }

  function Repeated(s: seq<Byte>, n: nat): seq<Byte>
  {
    if n == 0 then [] else Repeated(s, n - 1) + s
  }

  // ----------------------------------------------------------------- the connection

  /** Why a connection is closed: the peer or the socket failed, a header named too big a
      frame, or there was no room for an acknowledgement. */
  datatype Cause = Open | Gone | Oversize | AcksFull

  /** The bytes received are the frames of the messages, and then `tail`. */
  predicate Framed(received: seq<Byte>, ms: seq<seq<Byte>>, tail: seq<Byte>)
  {
    (forall m :: m in ms ==> Fits(|m|)) && received == Encoded(ms) + tail
  }

  /** Whatever the chunks were, the messages are the first ones of the reference parse, and all
      of them once the tail holds no complete frame. */
  lemma FramedIsParse(received: seq<Byte>, ms: seq<seq<Byte>>, tail: seq<Byte>)
    requires Framed(received, ms, tail)
    ensures ms <= Parse(received)
    ensures Incomplete(tail) || TooBig(tail) <==> ms == Parse(received)
  {
    ParseEncoded(ms, tail);
    assert Parse(tail) == [] <==> Incomplete(tail) || TooBig(tail);
  }

  lemma FramedMore(received: seq<Byte>, ms: seq<seq<Byte>>, tail: seq<Byte>, data: seq<Byte>)
    requires Framed(received, ms, tail)
    ensures Framed(received + data, ms, tail + data)
  {
    assert Encoded(ms) + (tail + data) == (Encoded(ms) + tail) + data;
  }

  lemma FramedNext(received: seq<Byte>, ms: seq<seq<Byte>>, m: seq<Byte>, rest: seq<Byte>)
    requires Fits(|m|) && Framed(received, ms, Header(|m|) + (m + rest))
    ensures Framed(received, ms + [m], rest)
  {
    EncodedMore(ms, m, rest);
  }

  lemma Split(s: seq<Byte>, t: seq<Byte>, n: nat)
    requires n <= |t|
    ensures t == t[..n] + t[n..] && (s + t[..n]) + t[n..] == s + t
  {
  }

  lemma Acked(written: seq<Byte>, wbuf: seq<Byte>, ok: seq<Byte>, n: nat)
    requires written + wbuf == Repeated(ok, n)
    ensures written + (wbuf + ok) == Repeated(ok, n + 1)
  {
    assert written + (wbuf + ok) == (written + wbuf) + ok;
  }

  /** The buffer takes every header and every message that the limit lets in. */
  predicate LargeEnough(capacity: nat) { 4 <= capacity && BUFFER_SIZE <= capacity + 4 }

  /** None of the messages from one index to another is empty. */
  predicate NoneEmpty(ms: seq<seq<Byte>>, lo: nat, hi: int)
  {
    forall i :: lo <= i < hi && i < |ms| ==> ms[i] != []
  }

  lemma NothingEmpty(ms: seq<seq<Byte>>)
    ensures NoneEmpty(ms, |ms|, |ms|) && NoneEmpty(ms, |ms|, |ms| - 1)
  {
  }

  lemma NoneEmptyMore(ms: seq<seq<Byte>>, ms': seq<seq<Byte>>, lo: nat, again: bool)
    requires NoneEmpty(ms, lo, |ms|) && ms <= ms' && |ms'| <= |ms| + 1
    requires again && |ms'| > |ms| ==> ms'[|ms|] != []
    ensures NoneEmpty(ms', lo, if again then |ms'| else |ms'| - 1)
  {
  }

  class Connection {
    const capacity: nat
    const ok: seq<Byte>
    var rbuf: seq<Byte>
    var wbuf: seq<Byte>
    var readingHeader: bool
    var protobufSize: nat
    var closed: bool
    ghost var cause: Cause
    ghost var received: seq<Byte>
    ghost var written: seq<Byte>
    ghost var delivered: seq<seq<Byte>>
    ghost var accepted: seq<seq<Byte>>  // what was delivered before the connection was closed
    ghost var tail: seq<Byte>         // what was received after that

    ghost predicate Valid()
      reads this
    {
      && |rbuf| <= capacity && |wbuf| <= capacity && protobufSize < 0x1_0000_0000
      && Framed(received, accepted, tail)
      && written + wbuf == Repeated(ok, |delivered|)
      && (closed <==> cause != Open)
      && (!closed ==> tail == Pending() && (!readingHeader ==> Fits(protobufSize)))
      && (cause != Oversize ==> accepted == delivered)
      && (cause == Oversize ==> TooBig(tail))
      && (cause == AcksFull ==> |wbuf| + |ok| > capacity && !Incomplete(tail) && !TooBig(tail))
    }

    /** The bytes of the frame at work. */
    ghost function Pending(): seq<Byte>
      requires protobufSize < 0x1_0000_0000
      reads this
    {
      if readingHeader then rbuf else Header(protobufSize) + rbuf
    }

    /** Between callbacks what is buffered is not a frame, unless an empty message came last;
        and there is room to read on, if the buffer can hold every message that is let in. */
    ghost predicate Quiet()
      reads this
    {
      Settled() && (LargeEnough(capacity) ==> |rbuf| < capacity)
    }

    ghost predicate Settled()
      reads this
    {
      if readingHeader then |rbuf| < 4 || (delivered != [] && delivered[|delivered| - 1] == [])
      else |rbuf| < protobufSize
    }

    /** A complete frame waits in the buffer. */
    ghost predicate FrameWaits()
      reads this
    {
      readingHeader && !Incomplete(rbuf) && !TooBig(rbuf)
    }

    /** However the bytes were cut into chunks, the messages are those of the reference parse:
        the first ones while there may be more, and all of them before an oversized header.
        While the connection is open they are all of them after a callback exactly when no
        complete frame waits, which can only be after an empty message. */
    lemma InOrder()
      requires Valid()
      ensures accepted <= Parse(received)
      ensures cause == Oversize ==> accepted == Parse(received)
      ensures !closed && Quiet() ==> (delivered == Parse(received) <==> !FrameWaits())
      ensures !closed && Quiet() && FrameWaits() ==> delivered != [] && delivered[|delivered| - 1] == []
      ensures !closed && Quiet() && (forall m :: m in Parse(received) ==> m != []) ==> delivered == Parse(received)
      ensures !closed && Quiet() && (forall m :: m in Parse(received) ==> m != []) ==> delivered == Parse(received)
    {
      hide Encoded, Repeated, Parse;
      FramedIsParse(received, accepted, tail);
      if !closed && Quiet() {
        if !readingHeader {
          FrameStatus(protobufSize, rbuf);
        }
        if delivered != [] {
          assert Parse(received)[|delivered| - 1] in Parse(received);
        }
      }
    }

    /** As long as the first frame is not complete, the connection waits for the rest of it. */
    lemma Waiting()
      requires Valid() && cause != Gone && Incomplete(received) && !TooBig(received)
      ensures !closed && delivered == [] && tail == received
    {
      FramedIsParse(received, accepted, tail);
      assert Parse(received) == [] && accepted == [];
      assert Encoded(accepted) + tail == tail;
    }

    /** What is left when an empty message and one more came first in one chunk. */
    lemma OnlyEmpty()
      requires Valid() && cause != Gone && received == Header(0) + (Header(1) + [65]) && written == []
      requires 3 * |ok| <= capacity && (!closed ==> Quiet()) && (|delivered| > 1 ==> delivered[0] != [])
      ensures !closed && delivered == [[]] && FrameWaits()
    {
      hide Parse, Header, Repeated, Encoded, Framed;
      TwoFrames();
      FramedIsParse(received, accepted, tail);
      RepeatedLength(ok, |delivered|);
      var n := TailOfTwo(accepted, tail, received);
      if !closed {
        FrameStatus(1, [65]);
      }
    }

    constructor (capacity: nat, ok: seq<Byte>)
      ensures Valid() && Quiet() && !closed && readingHeader && rbuf == [] && delivered == [] && received == []
      ensures written == []
      ensures this.capacity == capacity && this.ok == ok
    {
      this.capacity, this.ok := capacity, ok;
      rbuf, wbuf, readingHeader, protobufSize, closed := [], [], true, 0, false;
      cause, received, written, delivered, accepted, tail := Open, [], [], [], [], [];
    }

    /** Receive up to the free space; `data` is empty when the peer is gone or reading fails. */
    method Read(data: seq<Byte>) returns (more: bool)
      requires Valid() && !closed && |data| <= capacity - |rbuf|
      modifies this`rbuf, this`closed, this`cause, this`received, this`tail
      ensures Valid() && more == (data != [])
      ensures closed <==> data == [] && |rbuf| < capacity
      ensures rbuf == old(rbuf) + data && received == old(received) + data
      ensures cause == if closed then Gone else Open
    {
      hide Framed, Repeated, Header, TooBig, Fits;
      if capacity - |rbuf| <= 0 {
        return false;
      }
      if data == [] {
        closed, cause := true, Gone;
        return false;
      }
      FramedMore(received, accepted, tail, data);
      assert Header(protobufSize) + (rbuf + data) == (Header(protobufSize) + rbuf) + data;
      rbuf, received, tail := rbuf + data, received + data, tail + data;
      return true;
    }

    method ReadHeader()
      requires Valid() && readingHeader && cause != Gone
      modifies this`rbuf, this`readingHeader, this`protobufSize, this`closed, this`cause
      ensures Valid() && (old(closed) ==> closed) && cause != Gone
      ensures |old(rbuf)| < 4 ==> readingHeader && rbuf == old(rbuf) && closed == old(closed)
      ensures |old(rbuf)| >= 4 ==> |rbuf| == |old(rbuf)| - 4 && (closed || !readingHeader)
    {
      hide Framed, Repeated;
      if |rbuf| < 4 {
        return;
      }
      assert rbuf == rbuf[..4] + rbuf[4..];
      assert rbuf[..4][..4] == rbuf[..4];
      SizeIsHeader(rbuf[..4]);
      protobufSize := Size(rbuf[..4]);
      rbuf := rbuf[4..];
      if protobufSize + 4 > BUFFER_SIZE {
        cause := if closed then cause else Oversize;
        closed := true;
        return;
      }
      readingHeader := false;
    }

    method ReadMessage()
      requires Valid() && !readingHeader && cause != Gone
      modifies this`rbuf, this`wbuf, this`readingHeader, this`closed, this`cause, this`delivered, this`accepted, this`tail
      ensures Valid() && (old(closed) ==> closed) && cause != Gone
      ensures |old(rbuf)| < protobufSize ==> !readingHeader && rbuf == old(rbuf) && closed == old(closed)
      ensures |old(rbuf)| >= protobufSize && !closed ==>
                readingHeader && |delivered| > 0 && |delivered[|delivered| - 1]| == protobufSize
      ensures |old(rbuf)| >= protobufSize && !closed ==> |rbuf| == |old(rbuf)| - protobufSize
      ensures |rbuf| <= |old(rbuf)| && (|rbuf| < |old(rbuf)| ==> readingHeader)
      ensures old(delivered) <= delivered && old(accepted) <= accepted
      ensures |delivered| <= |old(delivered)| + 1
      ensures |rbuf| < |old(rbuf)| && |delivered| > |old(delivered)| ==> delivered[|old(delivered)|] != []
    {
      hide Framed, Header, Fits, TooBig, Repeated;
      if |rbuf| < protobufSize {
        return;
      }
      if capacity - |wbuf| < |ok| {
        FrameStatus(protobufSize, rbuf);
        cause := if closed then cause else AcksFull;
        closed := true;
        return;
      }
      ghost var m, rest := rbuf[..protobufSize], rbuf[protobufSize..];
      Split([], rbuf, protobufSize);
      Acked(written, wbuf, ok, |delivered|);
      if !closed {
        FramedNext(received, accepted, m, rest);
        accepted, tail := accepted + [m], rest;
      }
      wbuf := wbuf + ok;
      delivered := delivered + [rbuf[..protobufSize]];
      rbuf := rbuf[protobufSize..];
      readingHeader := true;
    }

    /** One turn of the loop: a header or a message is read, if it is there. */
    method Turn() returns (again: bool)
      requires Valid() && cause != Gone
      modifies this`rbuf, this`wbuf, this`readingHeader, this`protobufSize, this`closed
      modifies this`cause, this`delivered, this`accepted, this`tail
      ensures Valid() && (old(closed) ==> closed) && cause != Gone
      ensures old(accepted) <= accepted && |rbuf| <= |old(rbuf)| && again == (|rbuf| < |old(rbuf)|)
      ensures old(delivered) <= delivered && |delivered| <= |old(delivered)| + 1
      ensures again && |delivered| > |old(delivered)| ==> delivered[|old(delivered)|] != []
      ensures !closed && !again ==> Settled()
      ensures !closed && !again && readingHeader && |rbuf| >= 4 ==> !old(readingHeader) && old(protobufSize) == 0
    {
      hide Framed, Repeated, Header, TooBig, Fits;
      var bytes := |rbuf|;
      if readingHeader {
        ReadHeader();
      } else {
        ReadMessage();
      }
      again := bytes != |rbuf|;
    }

    /** A chunk arrives: headers and messages are read as long as bytes go out of the buffer. */
    method ReadCb(data: seq<Byte>)
      requires Valid() && Quiet() && !closed && |data| <= capacity - |rbuf|
      modifies this`rbuf, this`wbuf, this`readingHeader, this`protobufSize, this`closed
      modifies this`cause, this`received, this`delivered, this`accepted, this`tail
      ensures Valid() && received == old(received) + data
      ensures old(accepted) <= accepted && old(delivered) <= delivered
      ensures NoneEmpty(delivered, |old(delivered)|, |delivered| - 1)
      ensures !closed ==> Quiet()
      ensures data == [] && old(|rbuf|) < capacity ==> cause == Gone && accepted == old(accepted)
      ensures data != [] ==> cause != Gone
      ensures old(|rbuf|) == capacity ==> !closed && rbuf == old(rbuf) && delivered == old(delivered)
    {
      hide Framed, Repeated, Header, TooBig, NoneEmpty;
      NothingEmpty(delivered);
      var more := Read(data);
      if !more {
        return;
      }
      ghost var full := |rbuf|;
      var again := true;
      while again
        invariant Valid() && received == old(received) + data && |rbuf| <= full <= capacity
        invariant old(accepted) <= accepted && old(delivered) <= delivered && cause != Gone
        invariant NoneEmpty(delivered, |old(delivered)|, if again then |delivered| else |delivered| - 1)
        invariant !closed && !readingHeader ==> protobufSize > 0 || |rbuf| < full
        invariant !closed && !again ==> Settled() && (readingHeader ==> |rbuf| < 4 || |rbuf| < full)
        decreases |rbuf|, again
      {
        ghost var before := delivered;
        again := Turn();
        NoneEmptyMore(before, delivered, |old(delivered)|, again);
      }
    }

    /** The socket takes `n` bytes of the acknowledgements, or fails when `n` is negative. */
    method WriteCb(n: int)
      requires Valid() && !closed && n <= |wbuf|
      modifies this`wbuf, this`closed, this`cause, this`written
      ensures Valid() && (closed <==> n < 0 && old(wbuf) != [])
      ensures 0 <= n ==> written == old(written) + old(wbuf)[..n]
    {
      hide Framed, Repeated, Header, TooBig, Fits;
      if wbuf == [] {
        return;
      }
      if n < 0 {
        closed, cause := true, Gone;
        return;
      }
      Split(written, wbuf, n);
      written, wbuf := written + wbuf[..n], wbuf[n..];
    }
  }

  /** A smaller buffer can fill up for good: the wanted frame does not fit, and the connection
      neither closes nor reads on.  The constructor that takes a buffer size allows this, for
      it leaves the limit on frames at the default. */
  method Stalls(capacity: nat, ok: seq<Byte>) returns (c: Connection)
    requires !LargeEnough(capacity)
    ensures fresh(c) && c.Valid() && c.Quiet() && c.capacity == capacity
    ensures !c.closed && |c.rbuf| == capacity && Parse(c.received) == []
  {
    hide Parse, Framed, Repeated;
    c := new Connection(capacity, ok);
    if capacity < 4 {
      if capacity > 0 {
        c.ReadCb(seq(capacity, _ => 0));
        c.Waiting();
      }
    } else {
      StallsOnMessage(c);
    }
    NothingYet(c.received);
  }

  method StallsOnMessage(c: Connection)
    requires c.Valid() && c.Quiet() && !c.closed && c.received == [] && 4 <= c.capacity && !LargeEnough(c.capacity)
    requires c.rbuf == []
    modifies c
    ensures c.Valid() && c.Quiet() && !c.closed && |c.rbuf| == c.capacity && Incomplete(c.received)
  {
    hide Parse, Framed, Repeated;
    var header := Header(c.capacity + 1);
    c.ReadCb(header);
    FrameStatus(c.capacity + 1, []);
    assert c.received == header + [];
    c.Waiting();
    assert !c.readingHeader && c.rbuf == [];
    var zeros := seq(c.capacity, _ => 0);
    c.ReadCb(zeros);
    assert c.received == header + zeros;
    FrameStatus(c.capacity + 1, zeros);
    c.Waiting();
  }

  lemma NothingYet(s: seq<Byte>)
    requires Incomplete(s)
    ensures Parse(s) == []
  {
  }

  /** An empty message ends the loop early: the message after it, which came in the same chunk, is
      complete and not delivered. */
  method EmptyMessageEndsLoop(capacity: nat, ok: seq<Byte>) returns (c: Connection)
    requires 9 <= capacity && 3 * |ok| <= capacity
    ensures fresh(c) && c.Valid() && c.Quiet() && !c.closed && c.FrameWaits()
    ensures c.delivered == [[]] && Parse(c.received) == [[], [65]]
  {
    hide Parse, Framed, Header, Repeated;
    c := new Connection(capacity, ok);
    var data := Header(0) + (Header(1) + [65]);
    TwoFrames();
    c.ReadCb(data);
    c.InOrder();
    c.OnlyEmpty();
  }

  /** What is left of the two frames, after none, one or both of the messages. */
  lemma TailOfTwo(ms: seq<seq<Byte>>, tail: seq<Byte>, received: seq<Byte>) returns (n: nat)
    requires received == Header(0) + (Header(1) + [65]) && Framed(received, ms, tail) && ms <= [[], [65]]
    ensures n == |ms| <= 2
    ensures tail == if n == 0 then received else if n == 1 then Header(1) + [65] else []
  {
    hide Header, Encoded;
    n := |ms|;
    var one: seq<seq<Byte>> := [[]];
    var two: seq<seq<Byte>> := [[], [65]];
    assert ms == two[..n];
    if n == 0 {
      EncodedNone();
      assert received == tail;
    } else if n == 1 {
      EncodedOne();
      assert ms == one;
      assert tail == received[4..] == Header(1) + [65];
    } else {
      EncodedTwo();
      assert ms == two;
      assert |tail| == 0;
    }
  }

  lemma EncodedOne()
    ensures Encoded([[]]) == Header(0)
  {
    hide Header;
    EncodedNone();
    EncodedMore([], [], []);
    var none: seq<seq<Byte>> := [];
    assert none + [[]] == [[]] && Encoded([[]]) + [] == Encoded([[]]);
    assert Encoded([[]]) == [] + (Header(0) + ([] + []));
  }

  lemma EncodedTwo()
    ensures |Encoded([[], [65]])| == 9
  {
    hide Header;
    EncodedOne();
    EncodedMore([[]], [65], []);
    var one: seq<seq<Byte>> := [[]];
    assert one + [[65]] == [[], [65]];
    assert |Encoded([[], [65]]) + []| == 9;
  }

  lemma TwoFrames()
    ensures Parse(Header(0) + (Header(1) + [65])) == [[], [65]]
  {
    hide Parse;
    ParseFrame([], Header(1) + [65]);
    ParseFrame([65], []);
    NothingYet([]);
    assert Header(0) + [] + (Header(1) + [65]) == Header(0) + (Header(1) + [65]);
    assert Header(1) + [65] + [] == Header(1) + [65];
  }
}
