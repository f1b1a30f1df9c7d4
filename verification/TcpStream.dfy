/** The receive side of one open TCP socket in net_stubs.c: segments are appended to a fixed buffer, reads take bytes
    off its front and shift the rest down in place. */
module TcpStream {

  const MAX_RECV_BUFFER: nat := 4096

  type Byte = x: int | 0 <= x < 256

  datatype SocketState = Closed | Connecting | Connected | Listening | Failed

  /** recv_buf[..recv_len] and the connection state. */
  datatype Socket = Socket(buffered: seq<Byte>, state: SocketState)

  predicate Fits(s: Socket)
  {
    |s.buffered| <= MAX_RECV_BUFFER
  }

  // What the callbacks and pico_tcp_read do

  /** The prefix of a segment for which there is room. */
  function AcceptedPart(s: Socket, segment: seq<Byte>): seq<Byte>
    requires Fits(s)
  {
    var space := MAX_RECV_BUFFER - |s.buffered|;
    if |segment| < space then segment else segment[..space]
  }

  function Receive(s: Socket, segment: seq<Byte>): (s': Socket)
    requires Fits(s)
    ensures Fits(s')
  {
    s.(buffered := s.buffered + AcceptedPart(s, segment))
  }

  function Readable(s: Socket, maxLen: nat): nat
  {
    if |s.buffered| < maxLen then |s.buffered| else maxLen
  }

  function Take(s: Socket, maxLen: nat): seq<Byte>
  {
    s.buffered[..Readable(s, maxLen)]
  }

  function Drop(s: Socket, maxLen: nat): (s': Socket)
    requires Fits(s)
    ensures Fits(s')
  {
    s.(buffered := s.buffered[Readable(s, maxLen)..])
  }

  /** The return value of pico_tcp_read. */
  function ReadCode(s: Socket, maxLen: nat): int
  {
    if Readable(s, maxLen) == 0 && s.state.Closed? then -2 else Readable(s, maxLen)
  }

  /** pbuf_copy_partial to an offset. */
  method CopyIn(a: array<Byte>, offset: nat, bytes: seq<Byte>)
    requires offset + |bytes| <= a.Length
    modifies a
    ensures a[..offset + |bytes|] == old(a[..offset]) + bytes
    ensures a[offset + |bytes|..] == old(a[offset + |bytes|..])
  {
    for i := 0 to |bytes|
      invariant a[..offset + i] == old(a[..offset]) + bytes[..i]
      invariant a[offset + |bytes|..] == old(a[offset + |bytes|..])
    {
      a[offset + i] := bytes[i];
      assert bytes[..i + 1] == bytes[..i] + [bytes[i]];
    }
    assert bytes[..|bytes|] == bytes;
  }

  /** memmove towards the front. */
  method MoveDown(a: array<Byte>, from: nat, count: nat)
    requires from + count <= a.Length
    modifies a
    ensures a[..count] == old(a[from..from + count])
  {
    for i := 0 to count
      invariant a[..i] == old(a[from..from + i])
      invariant a[i..] == old(a[i..])
    {
      assert a[i..][from] == old(a[i..][from]);
      a[i] := a[from + i];
    }
  }

  // The socket as the source has it

  class Connection {
    const recvBuf: array<Byte>
    var recvLen: nat
    var state: SocketState

    ghost predicate Valid()
      reads this, recvBuf
    {
      recvBuf.Length == MAX_RECV_BUFFER && recvLen <= MAX_RECV_BUFFER
    }

    ghost function View(): (s: Socket)
      reads this, recvBuf
      requires Valid()
      ensures Fits(s)
    {
      Socket(recvBuf[..recvLen], state)
    }

    constructor ()
      ensures Valid() && fresh(recvBuf) && View() == Socket([], Closed)
    {
      recvBuf := new Byte[MAX_RECV_BUFFER];
      recvLen, state := 0, Closed;
    }

    /** tcp_recv_callback with a segment: the copy is pbuf_copy_partial. */
    method ReceiveSegment(segment: seq<Byte>) returns (copied: nat)
      requires Valid()
      modifies this`recvLen, recvBuf
      ensures Valid() && View() == Receive(old(View()), segment) && copied == |AcceptedPart(old(View()), segment)|
    {
      var space := recvBuf.Length - recvLen;
      var toCopy := if |segment| < space then |segment| else space;
      CopyIn(recvBuf, recvLen, segment[..toCopy]);
      recvLen := recvLen + toCopy;
      copied := toCopy;
    }

    /** tcp_recv_callback without a segment: the remote end closed. */
    method RemoteClose()
      requires Valid()
      modifies this`state
      ensures Valid() && View() == old(View()).(state := Closed)
    {
      state := Closed;
    }

    /** pico_tcp_read: memcpy out, memmove the rest down to the front. */
    method Read(buf: array<Byte>, maxLen: nat) returns (code: int)
      requires Valid() && buf != recvBuf && maxLen <= buf.Length
      modifies this`recvLen, recvBuf, buf
      ensures Valid() && View() == Drop(old(View()), maxLen) && code == ReadCode(old(View()), maxLen)
      ensures buf[..Readable(old(View()), maxLen)] == Take(old(View()), maxLen)
      ensures buf[Readable(old(View()), maxLen)..] == old(buf[Readable(View(), maxLen)..])
    {
      var toRead := if recvLen < maxLen then recvLen else maxLen;
      for i := 0 to toRead
        modifies buf
        invariant buf[..i] == recvBuf[..i]
        invariant buf[toRead..] == old(buf[toRead..])
      {
        buf[i] := recvBuf[i];
      }
      var rest := recvLen - toRead;
      MoveDown(recvBuf, toRead, rest);
      recvLen := rest;
      code := if toRead == 0 && state == Closed then -2 else toRead;
    }
  }

  // Histories of one socket

  datatype Event = Segment(bytes: seq<Byte>) | RemoteClosed | StateChange(state: SocketState) | ReadCall(maxLen: nat)

  function Apply(s: Socket, e: Event): (s': Socket)
    requires Fits(s)
    ensures Fits(s')
  {
    match e
    case Segment(bytes) => Receive(s, bytes)
    case RemoteClosed => s.(state := Closed)
    case StateChange(state) => s.(state := state)
    case ReadCall(maxLen) => Drop(s, maxLen)
  }

  function After(s: Socket, events: seq<Event>): (s': Socket)
    requires Fits(s)
    ensures Fits(s')
    decreases |events|
  {
    if events == [] then s else After(Apply(s, events[0]), events[1..])
  }

  /** The accepted prefixes of all segments, in order. */
  function Accepted(s: Socket, events: seq<Event>): seq<Byte>
    requires Fits(s)
    decreases |events|
  {
    if events == [] then []
    else (if events[0].Segment? then AcceptedPart(s, events[0].bytes) else [])
         + Accepted(Apply(s, events[0]), events[1..])
  }

  /** Everything the reads handed out, in order. */
  function Returned(s: Socket, events: seq<Event>): seq<Byte>
    requires Fits(s)
    decreases |events|
  {
    if events == [] then []
    else (if events[0].ReadCall? then Take(s, events[0].maxLen) else []) + Returned(Apply(s, events[0]), events[1..])
  }

  /** The segments whole. */
  function Sent(events: seq<Event>): seq<Byte>
  {
    if events == [] then [] else (if events[0].Segment? then events[0].bytes else []) + Sent(events[1..])
  }

  /** Every segment fitted in the room there was when it came. */
  predicate AllFitted(s: Socket, events: seq<Event>)
    requires Fits(s)
    decreases |events|
  {
    events == [] ||
    ((events[0].Segment? ==> |s.buffered| + |events[0].bytes| <= MAX_RECV_BUFFER)
     && AllFitted(Apply(s, events[0]), events[1..]))
  }

  /** The byte stream law: for every interleaving of segments and reads, what was buffered and accepted is what was
      returned followed by what is still buffered; no byte is lost, doubled or reordered. */
  lemma {:induction false} StreamLaw(s: Socket, events: seq<Event>)
    requires Fits(s)
    ensures s.buffered + Accepted(s, events) == Returned(s, events) + After(s, events).buffered
    decreases |events|
  {
    if events != [] {
      var e, s' := events[0], Apply(s, events[0]);
      var accepted := if e.Segment? then AcceptedPart(s, e.bytes) else [];
      var returned := if e.ReadCall? then Take(s, e.maxLen) else [];
      var moreAccepted, moreReturned := Accepted(s', events[1..]), Returned(s', events[1..]);
      var left := After(s, events).buffered;
      StreamLaw(s', events[1..]);
      assert s.buffered + accepted == returned + s'.buffered;
      Chain(s.buffered, accepted, s'.buffered, returned, moreAccepted, left, moreReturned);
    }
  }

  /** Two balanced exchanges with a queue, one after the other, balance. */
  lemma Chain(before: seq<Byte>, added: seq<Byte>, between: seq<Byte>, taken: seq<Byte>,
              added': seq<Byte>, left: seq<Byte>, taken': seq<Byte>)
    requires before + added == taken + between && between + added' == taken' + left
    ensures before + (added + added') == (taken + taken') + left
  {
    assert before + (added + added') == (before + added) + added';
    assert (taken + between) + added' == taken + (between + added');
    assert taken + (taken' + left) == (taken + taken') + left;
  }

  /** One segment: the buffer grows by its first bytes, as many as there is room for. */
  lemma ReceiveKeepsPrefix(s: Socket, segment: seq<Byte>)
    requires Fits(s)
    ensures var s' := Receive(s, segment); var all := s.buffered + segment;
            && s.buffered <= s'.buffered <= all && s'.state == s.state
            && |s'.buffered| == (if |all| < 4096 then |all| else 4096)
  {
  }

  /** One read: as many bytes as there are and the caller has room for come off the front, in order; -2 stands for none
      on a closed socket. */
  lemma ReadTakesAllItCan(s: Socket, maxLen: nat)
    requires Fits(s)
    ensures Take(s, maxLen) + Drop(s, maxLen).buffered == s.buffered && Drop(s, maxLen).state == s.state
    ensures |Take(s, maxLen)| == (if |s.buffered| < maxLen then |s.buffered| else maxLen)
    ensures ReadCode(s, maxLen) == if Take(s, maxLen) == [] && s.state.Closed? then -2 else |Take(s, maxLen)|
  {
  }

  /** The history up to and including its first segment that did not fit. */
  function UntilLoss(s: Socket, events: seq<Event>): seq<Event>
    requires Fits(s)
    decreases |events|
  {
    if events == [] then []
    else if events[0].Segment? && |s.buffered| + |events[0].bytes| > 4096 then [events[0]]
    else [events[0]] + UntilLoss(Apply(s, events[0]), events[1..])
  }

  lemma {:induction false} UntilLossIsPrefix(s: Socket, events: seq<Event>)
    requires Fits(s)
    ensures UntilLoss(s, events) <= events
    ensures UntilLoss(s, events) == events <== AllFitted(s, events)
    decreases |events|
  {
    if events != [] && !(events[0].Segment? && |s.buffered| + |events[0].bytes| > 4096) {
      UntilLossIsPrefix(Apply(s, events[0]), events[1..]);
      assert [events[0]] + events[1..] == events;
    }
  }

  lemma {:induction false} AcceptedIsPrefix(s: Socket, events: seq<Event>)
    requires Fits(s)
    ensures Accepted(s, UntilLoss(s, events)) <= Sent(UntilLoss(s, events))
    decreases |events|
  {
    if events != [] {
      var e, until := events[0], UntilLoss(s, events);
      if e.Segment? && |s.buffered| + |e.bytes| > 4096 {
        ReceiveKeepsPrefix(s, e.bytes);
        assert until[1..] == [];
        assert Accepted(s, until) == AcceptedPart(s, e.bytes) + [];
        assert Sent(until) == e.bytes + [];
        assert AcceptedPart(s, e.bytes) == Receive(s, e.bytes).buffered[|s.buffered|..];
        assert e.bytes == (s.buffered + e.bytes)[|s.buffered|..];
      } else {
        AcceptedIsPrefix(Apply(s, e), events[1..]);
        assert until[1..] == UntilLoss(Apply(s, e), events[1..]);
        if e.Segment? {
          ReceiveKeepsPrefix(s, e.bytes);
          FittingPartIsAll(s, e.bytes);
        }
      }
    }
  }

  lemma FittingPartIsAll(s: Socket, segment: seq<Byte>)
    requires Fits(s) && |s.buffered| + |segment| <= 4096
    ensures AcceptedPart(s, segment) == segment
  {
    ReceiveKeepsPrefix(s, segment);
    assert AcceptedPart(s, segment) == Receive(s, segment).buffered[|s.buffered|..];
    assert segment == (s.buffered + segment)[|s.buffered|..];
  }

  /** What reaches the reader is what was sent: up to and including the first segment that did not fit, the bytes
      returned followed by those buffered are a prefix of the bytes there were followed by the bytes sent. */
  lemma DeliveredIsPrefixOfSent(s: Socket, events: seq<Event>)
    requires Fits(s)
    ensures var until := UntilLoss(s, events);
            && until <= events && (AllFitted(s, events) ==> until == events)
            && Returned(s, until) + After(s, until).buffered <= s.buffered + Sent(until)
  {
    UntilLossIsPrefix(s, events);
    AcceptedIsPrefix(s, events);
    StreamLaw(s, UntilLoss(s, events));
  }

  /** Nothing sent is lost exactly when every segment fitted. */
  lemma {:induction false} NothingLostIff(s: Socket, events: seq<Event>)
    requires Fits(s)
    ensures |Accepted(s, events)| <= |Sent(events)|
    ensures Accepted(s, events) == Sent(events) <==> AllFitted(s, events)
    decreases |events|
  {
    if events != [] {
      var e, s' := events[0], Apply(s, events[0]);
      NothingLostIff(s', events[1..]);
      var part := if e.Segment? then AcceptedPart(s, e.bytes) else [];
      var whole := if e.Segment? then e.bytes else [];
      var rest, more := Accepted(s', events[1..]), Sent(events[1..]);
      assert |part| < |whole| || part == whole;
      if part + rest == whole + more {
        assert |part| == |whole|;
        assert (part + rest)[|part|..] == rest && (whole + more)[|part|..] == more;
      }
    }
  }

  /** A read with room for something returns -2 exactly when the socket is closed and every byte it ever accepted has
      been returned. */
  lemma EndOfStreamExact(events: seq<Event>, maxLen: nat)
    requires maxLen > 0
    ensures var s := Socket([], Connected); var s' := After(s, events);
            ReadCode(s', maxLen) == -2 <==> s'.state.Closed? && Returned(s, events) == Accepted(s, events)
  {
    var s := Socket([], Connected);
    StreamLaw(s, events);
    var s' := After(s, events);
    assert s.buffered + Accepted(s, events) == Accepted(s, events);
    if s'.buffered == [] {
      assert Returned(s, events) + [] == Returned(s, events);
    } else {
      assert |Returned(s, events)| < |Accepted(s, events)|;
    }
  }

  /** The zero-length probe of the scheduler consumes nothing, and answers "ready" (positive or -2) exactly when the
      socket is closed: data waiting in the buffer never shows in it. */
  lemma ProbeSeesClosureOnly(s: Socket)
    requires Fits(s)
    ensures Drop(s, 0) == s && Take(s, 0) == []
    ensures (ReadCode(s, 0) > 0 || ReadCode(s, 0) == -2) <==> s.state.Closed?
  {
  }

  /** The connection state after the closings and state changes of a history, segments and reads left out. */
  function FinalState(state: SocketState, events: seq<Event>): SocketState
    decreases |events|
  {
    if events == [] then state
    else
      match events[0]
      case RemoteClosed => FinalState(Closed, events[1..])
      case StateChange(next) => FinalState(next, events[1..])
      case _ => FinalState(state, events[1..])
  }

  lemma {:induction false} DataKeepsState(s: Socket, events: seq<Event>)
    requires Fits(s)
    ensures After(s, events).state == FinalState(s.state, events)
    decreases |events|
  {
    if events != [] {
      DataKeepsState(Apply(s, events[0]), events[1..]);
    }
  }

  /** So data never wakes a waiting reader: after any history the probe reports ready if and only if the connection
      events alone have left the socket closed, whatever arrived and is still in the buffer. */
  lemma DataDoesNotWakeReader(events: seq<Event>)
    ensures var s := After(Socket([], Connected), events);
            (ReadCode(s, 0) > 0 || ReadCode(s, 0) == -2) <==> FinalState(Connected, events).Closed?
  {
    DataKeepsState(Socket([], Connected), events);
  }
}
