/** Length-prefixed messages over a byte stream (common/epoll_server.cpp, common/network.cpp):
    four bytes of length in network order, then the message. */
module Framing {
  import opened Common

  type Byte = b: nat | b < 256

  type Message = seq<Byte>

  const WORD := 0x1_0000_0000      // the length field is a uint32_t
  const MAX_RECEIVE := 1024 * 1024  // the longest message TcpConnection::receive takes

  /** htonl of the length, which the conversion to uint32_t first reduces modulo 2^32. */
  function Header(n: nat): (h: seq<Byte>)
    ensures |h| == 4
  {
    var m := n % WORD;
    [m / 256 / 256 / 256, m / 256 / 256 % 256, m / 256 % 256, m % 256]
  }

  function Length(h: seq<Byte>): (n: nat)
    requires |h| >= 4
    ensures n < WORD
  {
    ((h[0] as int * 256 + h[1]) * 256 + h[2]) * 256 + h[3]
  }

  function Frame(m: Message): seq<Byte> {
    Header(|m|) + m
  }

  function Encode(ms: seq<Message>): seq<Byte> {
    if ms == [] then [] else Frame(ms[0]) + Encode(ms[1..])
  }

  function Concat(chunks: seq<seq<Byte>>): seq<Byte> {
    if chunks == [] then [] else Concat(chunks[..|chunks| - 1]) + chunks[|chunks| - 1]
  }

  predicate Short(m: Message) {
    |m| < 0x1_0000_0000
  }

  ghost predicate AllShort(ms: seq<Message>) {
    forall m :: m in ms ==> Short(m)
  }

  /** No complete frame at the front of the buffer yet. */
  predicate Incomplete(b: seq<Byte>) {
    |b| < 4 || |b| < 4 + Length(b)
  }

  /** The buffer is the frames of ms, in order, followed by bytes that are no complete frame. */
  ghost predicate Splits(buffer: seq<Byte>, ms: seq<Message>, rest: seq<Byte>) {
    buffer == Encode(ms) + rest && AllShort(ms) && Incomplete(rest)
  }

  // ------------------------------------------------------------ the EpollServer side

  datatype RecvEnd = Closed | WouldBlock | Failed

  class ClientConnection {
    var receiveBuffer: seq<Byte>
    var closed: bool
    var output: seq<Byte>  // what has been handed to the socket

    constructor ()
      ensures receiveBuffer == [] && !closed && output == []
    {
      receiveBuffer, closed, output := [], false, [];
    }

    /** Take every complete message off the front of the buffer. */
    method ExtractMessages() returns (messages: seq<Message>)
      modifies this`receiveBuffer
      ensures Splits(old(receiveBuffer), messages, receiveBuffer)
      ensures messages != [] ==> |receiveBuffer| < |old(receiveBuffer)|
    {
      messages := [];
      while |receiveBuffer| >= 4
        invariant old(receiveBuffer) == Encode(messages) + receiveBuffer && AllShort(messages)
        invariant |receiveBuffer| + 4 * |messages| <= |old(receiveBuffer)|
        decreases |receiveBuffer|
      {
        var messageLen := Length(receiveBuffer);
        var totalLen := 4 + messageLen;
        if |receiveBuffer| < totalLen {
          break;
        }
        var message := receiveBuffer[4..][..messageLen];
        FrameAtFront(messages, receiveBuffer);
        messages := messages + [message];
        receiveBuffer := receiveBuffer[totalLen..];
      }
    }

    /** The read loop: chunks are what recv returned, one after the other, and end is how the
        loop ended. Every message is handed over for processing, in the order of `handled`. */
    method HandleClientData(chunks: seq<seq<Byte>>, end: RecvEnd) returns (handled: seq<Message>)
      modifies this
      ensures output == old(output)
      ensures old(closed) ==> handled == [] && receiveBuffer == old(receiveBuffer) && closed
      ensures !old(closed) ==> (closed <==> !end.WouldBlock?)
      ensures !old(closed) && Incomplete(old(receiveBuffer)) ==>
        Splits(old(receiveBuffer) + Concat(chunks), handled, receiveBuffer)
    {
      handled := [];
      if closed {
        return;
      }
      for i := 0 to |chunks|
        invariant closed == old(closed) && output == old(output)
        invariant Incomplete(old(receiveBuffer)) ==>
          Splits(old(receiveBuffer) + Concat(chunks[..i]), handled, receiveBuffer)
      {
        ghost var before := receiveBuffer;
        receiveBuffer := receiveBuffer + chunks[i];
        var messages := ExtractMessages();
        assert chunks[..i + 1][..i] == chunks[..i];
        if Incomplete(old(receiveBuffer)) {
          SplitsAppend(old(receiveBuffer), Concat(chunks[..i]), handled, before, chunks[i], messages, receiveBuffer);
        }
        handled := handled + messages;
      }
      assert chunks[..|chunks|] == chunks;
      if !end.WouldBlock? {
        closed := true;
      }
    }

    /** One call to send; the socket takes as much of the frame as it likes, or fails. */
    method SendResponse(data: Message) returns (ok: bool)
      modifies this`output
      ensures ok ==> output == old(output) + Frame(data)
      ensures !ok ==> old(output) <= output < old(output) + Frame(data)
    {
      var message := Header(|data|) + data;
      var sent :| -1 <= sent <= |message|;
      if sent > 0 {
        output := output + message[..sent];
        ok := sent == |message|;
      } else {
        ok := false;
      }
    }
  }

  // ---------------------------------------------------------------- the TcpConnection

  /** The frame of data up to the first n bytes of data. */
  ghost function Partly(data: Message, n: nat): seq<Byte>
    requires n <= |data|
  {
    Header(|data|) + data[..n]
  }

  lemma HeaderPartly(out: seq<Byte>, data: Message, n: nat)
    requires n <= 4
    ensures n < 4 ==> out + Header(|data|)[..n] < out + Frame(data)
    ensures n == 4 ==> out + Header(|data|)[..n] == out + Partly(data, 0)
  {
  }

  lemma PartlyPrefix(out: seq<Byte>, data: Message, n: nat)
    requires n <= |data|
    ensures n == |data| ==> out + Partly(data, n) == out + Frame(data)
    ensures n < |data| ==> out + Partly(data, n) < out + Frame(data)
  {
  }

  lemma PartlyGrows(out: seq<Byte>, data: Message, n: nat, k: nat)
    requires n + k <= |data|
    ensures out + Partly(data, n) + data[n..][..k] == out + Partly(data, n + k)
  {
  }

  class TcpConnection {
    var connected: bool
    var output: seq<Byte>    // what has been handed to the socket
    var incoming: seq<Byte>  // what will arrive before the stream ends or fails

    constructor (incoming: seq<Byte>)
      ensures connected && output == [] && this.incoming == incoming
    {
      this.connected, this.output, this.incoming := true, [], incoming;
    }

    /** The length first, then the data in a loop over partial sends. */
    method Send(data: Message) returns (ok: bool)
      modifies this`connected, this`output
      ensures ok ==> old(connected) && connected && output == old(output) + Frame(data)
      ensures !ok ==> !connected && old(output) <= output
      ensures !ok && old(connected) ==> output < old(output) + Frame(data)
      ensures !old(connected) ==> output == old(output)
    {
      hide Frame, Header, Partly;
      if !connected {
        return false;
      }
      var len := Header(|data|);
      var first :| -1 <= first <= 4;
      output := output + len[..Max(first, 0)];
      HeaderPartly(old(output), data, Max(first, 0));
      if first != 4 {
        connected := false;
        return false;
      }
      var totalSent := 0;
      while totalSent < |data|
        invariant 0 <= totalSent <= |data| && connected
        invariant output == old(output) + Partly(data, totalSent)
      {
        PartlyPrefix(old(output), data, totalSent);
        var sent :| -1 <= sent <= |data| - totalSent;
        if sent <= 0 {
          connected := false;
          return false;
        }
        PartlyGrows(old(output), data, totalSent, sent);
        output := output + data[totalSent..][..sent];
        totalSent := totalSent + sent;
      }
      PartlyPrefix(old(output), data, totalSent);
      ok := true;
    }

    /** recv with MSG_WAITALL delivers what was asked for unless the stream ends first. */
    method Recv(n: nat) returns (got: seq<Byte>)
      modifies this`incoming
      ensures got + incoming == old(incoming) && |got| == Min(n, |old(incoming)|)
    {
      got := incoming[..Min(n, |incoming|)];
      incoming := incoming[Min(n, |incoming|)..];
    }

    method Receive() returns (data: Message)
      modifies this`connected, this`incoming
      ensures old(connected) ==> (data, connected, incoming) == Received(old(incoming))
      ensures !old(connected) ==> data == [] && !connected && incoming == old(incoming)
    {
      if !connected {
        return [];
      }
      var header := Recv(4);
      if |header| != 4 {
        connected := false;
        return [];
      }
      var len := Length(header);
      if len == 0 || len > MAX_RECEIVE {
        connected := false;
        return [];
      }
      data := Recv(len);
      if |data| != len {
        connected := false;
        return [];
      }
    }
  }

  /** What receive returns, whether the connection is still up, and what is left to read. */
  function Received(s: seq<Byte>): (Message, bool, seq<Byte>) {
    if |s| < 4 then ([], false, [])
    else if Length(s) == 0 || Length(s) > MAX_RECEIVE then ([], false, s[4..])
    else if |s| - 4 < Length(s) then ([], false, [])
    else (s[4..][..Length(s)], true, s[4 + Length(s)..])
  }

  // ------------------------------------------------------------------- the theorems

  lemma HeaderLength(n: nat, rest: seq<Byte>)
    ensures Length(Header(n) + rest) == n % WORD
  {
  }

  lemma LastByte(high: int, b: Byte)
    ensures (high * 256 + b) / 256 == high && (high * 256 + b) % 256 == b
  {
  }

  /** Network byte order, the most significant byte first. */
  lemma NetworkOrder(n: nat)
    requires n < 0x1_0000_0000
    ensures var h := Header(n);
      n == h[0] as int * 0x100_0000 + h[1] as int * 0x1_0000 + h[2] as int * 0x100 + h[3] as int
  {
    var a, b := n / 256, n / 256 / 256;
    assert n == a * 256 + n % 256 && a == b * 256 + a % 256 && b == b / 256 * 256 + b % 256;
  }

  lemma LengthHeader(b: seq<Byte>)
    requires |b| >= 4
    ensures Header(Length(b)) == b[..4]
  {
    var high := b[0] as int * 256 + b[1];
    var middle := high * 256 + b[2];
    LastByte(middle, b[3]);
    LastByte(high, b[2]);
    LastByte(b[0] as int, b[1]);
    assert Length(b) == middle * 256 + b[3] && Length(b) % WORD == Length(b);
    assert b[..4] == [b[0], b[1], b[2], b[3]];
  }

  lemma {:induction false} EncodeConcat(a: seq<Message>, b: seq<Message>)
    ensures Encode(a + b) == Encode(a) + Encode(b)
  {
    if a == [] {
      assert a + b == b;
    } else {
      assert (a + b)[1..] == a[1..] + b;
      EncodeConcat(a[1..], b);
      Assoc(Frame(a[0]), Encode(a[1..]), Encode(b));
    }
  }

  lemma EncodeOne(m: Message)
    ensures Encode([m]) == Frame(m)
  {
  }

  lemma FrameAtFront(ms: seq<Message>, b: seq<Byte>)
    requires |b| >= 4 && |b| >= 4 + Length(b)
    ensures var m, rest := b[4..][..Length(b)], b[4 + Length(b)..];
      Encode(ms) + b == Encode(ms + [m]) + rest && Short(m) && b == Frame(m) + rest
  {
    var m, rest := b[4..][..Length(b)], b[4 + Length(b)..];
    LengthHeader(b);
    assert b == Frame(m) + rest;
    EncodeConcat(ms, [m]);
    EncodeOne(m);
    Assoc(Encode(ms), Frame(m), rest);
  }

  lemma SplitsAppend(start: seq<Byte>, seen: seq<Byte>, ms: seq<Message>, b: seq<Byte>, chunk: seq<Byte>,
                     more: seq<Message>, rest: seq<Byte>)
    requires Splits(start + seen, ms, b) && Splits(b + chunk, more, rest)
    ensures Splits(start + (seen + chunk), ms + more, rest)
  {
    EncodeConcat(ms, more);
    Assoc(start, seen, chunk);
    Assoc(Encode(ms), b, chunk);
    Assoc(Encode(ms), Encode(more), rest);
  }

  /** A frame at the front of a buffer is read with its own length, if that fits the field. */
  lemma FrameFront(m: Message, rest: seq<Byte>)
    ensures |Frame(m) + rest| == 4 + |m| + |rest|
    ensures Length(Frame(m) + rest) == |m| % WORD
  {
  }

  /** A byte stream splits into messages in one way only. */
  lemma {:induction false} UniqueSplit(b: seq<Byte>, ms: seq<Message>, r: seq<Byte>, ms': seq<Message>, r': seq<Byte>)
    requires Splits(b, ms, r) && Splits(b, ms', r')
    ensures ms == ms' && r == r'
  {
    if ms == [] || ms' == [] {
      EmptySplit(b, ms, r);
      EmptySplit(b, ms', r');
      assert [] + r == r && [] + r' == r';
    } else {
      FirstMessage(b, ms, r);
      FirstMessage(b, ms', r');
      UniqueSplit(b[4 + |ms[0]|..], ms[1..], r, ms'[1..], r');
      assert ms == [ms[0]] + ms[1..] && ms' == [ms'[0]] + ms'[1..];
    }
  }

  lemma EmptySplit(b: seq<Byte>, ms: seq<Message>, r: seq<Byte>)
    requires Splits(b, ms, r)
    ensures ms == [] <==> Incomplete(b)
  {
  }

  lemma NothingTaken(b: seq<Byte>, rest: seq<Byte>)
    requires Splits(b, [], rest)
    ensures b == rest
  {
  }

  lemma FirstMessage(b: seq<Byte>, ms: seq<Message>, r: seq<Byte>)
    requires Splits(b, ms, r) && ms != []
    ensures !Incomplete(b) && ms[0] == b[4..][..Length(b)] && |ms[0]| == Length(b)
    ensures Splits(b[4 + |ms[0]|..], ms[1..], r)
  {
    var m, tail := ms[0], Encode(ms[1..]) + r;
    Assoc(Frame(m), Encode(ms[1..]), r);
    assert b == Frame(m) + tail && m in ms && Short(m);
    FrameFront(m, tail);
    assert b[4 + |m|..] == tail && b[4..][..|m|] == m;
    assert forall x :: x in ms[1..] ==> x in ms;
  }

  /** Framing survives chunking: whatever pieces the frames arrive in, the messages handed over
      are the messages sent and nothing is left in the buffer, exactly when every message is
      short enough for the length field. */
  lemma ChunkingIsHarmless(ms: seq<Message>, chunks: seq<seq<Byte>>, handled: seq<Message>, rest: seq<Byte>)
    requires Concat(chunks) == Encode(ms)
    requires Splits([] + Concat(chunks), handled, rest)
    ensures handled == ms && rest == [] <==> AllShort(ms)
  {
    if AllShort(ms) {
      assert [] + Concat(chunks) == Encode(ms) + [];
      UniqueSplit([] + Concat(chunks), ms, [], handled, rest);
    }
  }

  /** At every point of the way: what has been handed over is the first messages, and what is
      left in the buffer is a proper prefix of the next frame. */
  lemma {:induction false} PrefixOfStream(ms: seq<Message>, arrived: seq<Byte>, handled: seq<Message>, rest: seq<Byte>)
    requires AllShort(ms) && arrived <= Encode(ms) && Splits(arrived, handled, rest)
    ensures handled <= ms
    ensures if handled == ms then rest == [] else rest < Frame(ms[|handled|])
  {
    hide Frame, Length, Splits;
    if handled == [] {
      EmptySplit(arrived, handled, rest);
      NothingTaken(arrived, rest);
      if ms != [] {
        ShortOfAFrame(ms[0], Encode(ms[1..]), rest);
      }
    } else {
      FirstMessage(arrived, handled, rest);
      assert ms != [];
      var m := ms[0];
      assert m in ms && forall x :: x in ms[1..] ==> x in ms;
      PrefixHolds(m, Encode(ms[1..]), arrived);
      PrefixOfStream(ms[1..], arrived[4 + |m|..], handled[1..], rest);
      assert handled == [m] + handled[1..] && ms == [m] + ms[1..];
    }
  }

  lemma FrameParts(m: Message, tail: seq<Byte>)
    ensures (Frame(m) + tail)[4..][..|m|] == m && (Frame(m) + tail)[4 + |m|..] == tail
  {
    hide Header;
  }

  /** What has arrived of a stream agrees with it on every part that has arrived whole. */
  lemma PartsAgree(a: seq<Byte>, s: seq<Byte>, n: nat)
    requires a <= s && 4 <= n <= |a|
    ensures a[4..][..n - 4] == s[4..][..n - 4] && a[n..] <= s[n..]
  {
    assert a == s[..|a|];
    assert a[n..] == s[n..][..|a| - n];
  }

  lemma SameLength(a: seq<Byte>, s: seq<Byte>)
    requires a <= s && |a| >= 4
    ensures Length(a) == Length(s)
  {
  }

  lemma PrefixHolds(m: Message, tail: seq<Byte>, arrived: seq<Byte>)
    requires Short(m) && arrived <= Frame(m) + tail && !Incomplete(arrived)
    ensures Length(arrived) == |m| && arrived[4..][..|m|] == m && arrived[4 + |m|..] <= tail
  {
    hide Length, Frame;
    FrameFront(m, tail);
    SameLength(arrived, Frame(m) + tail);
    FrameParts(m, tail);
    PartsAgree(arrived, Frame(m) + tail, 4 + |m|);
  }

  lemma ShortOfAFrame(m: Message, tail: seq<Byte>, rest: seq<Byte>)
    requires Short(m) && Incomplete(rest) && rest <= Frame(m) + tail
    ensures rest < Frame(m)
  {
  }

  /** The sender and the receiver of TcpConnection agree on a message exactly when it has
      between one byte and a mebibyte; send does not check. */
  lemma ReceivedExactly(m: Message, rest: seq<Byte>)
    ensures Received(Frame(m) + rest) == (m, true, rest) <==> 1 <= |m| <= 1_048_576
  {
    FrameFront(m, rest);
    var s := Frame(m) + rest;
    if 1 <= |m| <= 1_048_576 {
      assert s[4..][..|m|] == m && s[4 + |m|..] == rest;
    }
  }

  /** What n calls of receive return. */
  function ReceivedAll(s: seq<Byte>, connected: bool, n: nat): (seq<Message>, bool, seq<Byte>)
    decreases n
  {
    if n == 0 then ([], connected, s)
    else
      var (data, up, rest) := if connected then Received(s) else ([], false, s);
      var (more, up', rest') := ReceivedAll(rest, up, n - 1);
      ([data] + more, up', rest')
  }

  ghost predicate Receivable(ms: seq<Message>) {
    forall m :: m in ms ==> 1 <= |m| <= 1_048_576
  }

  /** A conversation: the messages sent are received one by one, and the connection stays up,
      exactly when each of them is receivable. */
  lemma {:induction false} ReceivesAllExactly(ms: seq<Message>, rest: seq<Byte>)
    ensures ReceivedAll(Encode(ms) + rest, true, |ms|) == (ms, true, rest) <==> Receivable(ms)
  {
    hide Received;
    if ms == [] {
      assert [] + rest == rest;
    } else {
      var m, tail := ms[0], Encode(ms[1..]) + rest;
      Assoc(Frame(m), Encode(ms[1..]), rest);
      assert ms == [m] + ms[1..];
      assert Receivable(ms) <==> 1 <= |m| <= 1_048_576 && Receivable(ms[1..]);
      ReceivesAllExactly(ms[1..], rest);
      ReceivedExactly(m, tail);
      ReceivedInRange(Frame(m) + tail);
      var (data, up, left) := Received(Frame(m) + tail);
      if !up {
        StaysDown(left, |ms| - 1);
      }
    }
  }

  lemma ReceivedInRange(s: seq<Byte>)
    ensures var (data, up, rest) := Received(s);
      up ==> 1 <= |data| <= MAX_RECEIVE && |s| >= 4 && s == s[..4] + data + rest
  {
  }

  lemma {:induction false} StaysDown(s: seq<Byte>, n: nat)
    ensures !ReceivedAll(s, false, n).1
  {
    if n > 0 {
      StaysDown(s, n - 1);
    }
  }
}
