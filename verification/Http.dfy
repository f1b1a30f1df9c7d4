/** The HTTP client of hello.ml on top of one TCP stream: read until the socket closes, join the chunks, find the
    body. */
module Http {
  import opened Lists
  import opened TcpStream

  // read_all over the Tcp_read effect of pio.ml

  /** Buffer size of one Tcp_read. */
  const READ_SIZE: nat := 4096

  datatype Ending = SocketClosed | OtherException
  /** The reader is about to perform Tcp_read, suspended in it as an I/O waiter, or done. */
  datatype Mode = Reading | Suspended | Done(ending: Ending)

  /** acc is the accumulator of read_all, latest chunk first. */
  datatype Session = Session(socket: Socket, mode: Mode, acc: seq<seq<Byte>>)

  /** What happens next: the network acts, the reader performs Tcp_read, the scheduler runs the wake closure of its
      waiter, or the waiter times out. */
  datatype Happening = Network(event: Event) | Perform | Wake | Timeout

  function Got(s: Session, chunk: seq<Byte>): Session
    requires Fits(s.socket)
  {
    Session(Drop(s.socket, READ_SIZE), Reading, [chunk] + s.acc)
  }

  /** A happening that does not apply in the current mode changes nothing; the reader ignores it. */
  function Next(s: Session, h: Happening): (s': Session)
    requires Fits(s.socket)
    ensures Fits(s'.socket)
  {
    match h
    case Network(e) => if e.ReadCall? then s else s.(socket := TcpStream.Apply(s.socket, e))
    case Perform =>
      if !s.mode.Reading? then s
      else
        var n := ReadCode(s.socket, READ_SIZE);
        if n > 0 then Got(s, Take(s.socket, READ_SIZE))
        else if n == -2 then s.(mode := Done(SocketClosed))
        else s.(mode := Suspended)
    case Wake =>
      if !s.mode.Suspended? then s
      else
        var n := ReadCode(s.socket, READ_SIZE);
        if n > 0 then Got(s, Take(s.socket, READ_SIZE))
        else if n == -2 then s.(mode := Done(SocketClosed))
        else s.(mode := Done(OtherException))
    case Timeout => if !s.mode.Suspended? then s else s.(mode := Done(OtherException))
  }

  /** The run of a session until its history or the reader ends. */
  function RunSession(s: Session, history: seq<Happening>): (s': Session)
    requires Fits(s.socket)
    ensures Fits(s'.socket)
    decreases |history|
  {
    if history == [] || s.mode.Done? then s else RunSession(Next(s, history[0]), history[1..])
  }

  /** The chunks read_all returns. */
  function ReadAll(history: seq<Happening>): seq<seq<Byte>>
  {
    Reversed(RunSession(Session(Socket([], Connected), Reading, []), history).acc)
  }

  function Flatten(chunks: seq<seq<Byte>>): seq<Byte>
  {
    if chunks == [] then [] else chunks[0] + Flatten(chunks[1..])
  }

  /** The bytes the socket accepts in one happening. */
  function Arrived(s: Session, h: Happening): seq<Byte>
    requires Fits(s.socket)
  {
    if h.Network? && h.event.Segment? then AcceptedPart(s.socket, h.event.bytes) else []
  }

  /** Every byte the socket accepted before the history or the reader ended. */
  function AcceptedBytes(s: Session, history: seq<Happening>): seq<Byte>
    requires Fits(s.socket)
    decreases |history|
  {
    if history == [] || s.mode.Done? then []
    else Arrived(s, history[0]) + AcceptedBytes(Next(s, history[0]), history[1..])
  }

  lemma {:induction false} FlattenAppend(xs: seq<seq<Byte>>, ys: seq<seq<Byte>>)
    ensures Flatten(xs + ys) == Flatten(xs) + Flatten(ys)
  {
    if xs == [] {
      assert xs + ys == ys;
    } else {
      FlattenAppend(xs[1..], ys);
      FlattenFirst(xs, ys);
      assert xs[0] + (Flatten(xs[1..]) + Flatten(ys)) == (xs[0] + Flatten(xs[1..])) + Flatten(ys);
    }
  }

  lemma FlattenFirst(xs: seq<seq<Byte>>, ys: seq<seq<Byte>>)
    requires xs != []
    ensures Flatten(xs + ys) == xs[0] + Flatten(xs[1..] + ys)
  {
    assert (xs + ys)[0] == xs[0] && (xs + ys)[1..] == xs[1..] + ys;
  }

  lemma GotKeepsBytes(s: Session)
    requires Fits(s.socket)
    ensures var s' := Got(s, Take(s.socket, READ_SIZE));
            Flatten(Reversed(s'.acc)) + s'.socket.buffered == Flatten(Reversed(s.acc)) + s.socket.buffered
  {
    var chunk := Take(s.socket, READ_SIZE);
    var s' := Got(s, chunk);
    assert s'.acc[1..] == s.acc;
    FlattenAppend(Reversed(s.acc), [chunk]);
    assert Flatten([chunk]) == chunk + Flatten([chunk][1..]) == chunk;
    assert chunk + s'.socket.buffered == s.socket.buffered;
    var before := Flatten(Reversed(s.acc));
    assert (before + chunk) + s'.socket.buffered == before + (chunk + s'.socket.buffered);
  }

  lemma HappeningKeepsBytes(s: Session, h: Happening)
    requires Fits(s.socket)
    ensures var s' := Next(s, h);
            Flatten(Reversed(s'.acc)) + s'.socket.buffered
            == Flatten(Reversed(s.acc)) + (s.socket.buffered + Arrived(s, h))
  {
    if Next(s, h).acc != s.acc {
      GotKeepsBytes(s);
    }
    assert s.socket.buffered + [] == s.socket.buffered;
  }

  /** Chunks read so far, then the buffer, are always the bytes there were plus the bytes accepted. */
  lemma {:induction false} SessionKeepsBytes(s: Session, history: seq<Happening>)
    requires Fits(s.socket)
    ensures var s' := RunSession(s, history);
            Flatten(Reversed(s'.acc)) + s'.socket.buffered
            == Flatten(Reversed(s.acc)) + (s.socket.buffered + AcceptedBytes(s, history))
    decreases |history|
  {
    if history == [] || s.mode.Done? {
      assert s.socket.buffered + [] == s.socket.buffered;
    } else {
      var s1 := Next(s, history[0]);
      HappeningKeepsBytes(s, history[0]);
      SessionKeepsBytes(s1, history[1..]);
      Reassociate(Flatten(Reversed(s.acc)), s.socket.buffered, Arrived(s, history[0]),
                  Flatten(Reversed(s1.acc)), s1.socket.buffered, AcceptedBytes(s1, history[1..]));
    }
  }

  lemma Reassociate(a: seq<Byte>, b: seq<Byte>, c: seq<Byte>, d: seq<Byte>, e: seq<Byte>, f: seq<Byte>)
    requires d + e == a + (b + c)
    ensures d + (e + f) == a + (b + (c + f))
  {
    assert d + (e + f) == (d + e) + f;
    assert a + (b + (c + f)) == (a + (b + c)) + f;
  }

  /** What one read of the client comes to: a chunk of everything buffered, up to the read size, whenever there is
      something; otherwise the end of the stream if and only if the socket is closed, and on an open one a wait, or an
      error if it had been woken from one. A wait that times out ends the session with an error. */
  lemma ReadOutcome(s: Session, h: Happening)
    requires Fits(s.socket) && ((h.Perform? && s.mode.Reading?) || ((h.Wake? || h.Timeout?) && s.mode.Suspended?))
    ensures var s' := Next(s, h); var data := s.socket.buffered;
            if h.Timeout? then s' == s.(mode := Done(OtherException))
            else if data != [] then
              && s'.mode.Reading? && |s'.acc| == |s.acc| + 1 && s'.acc[1..] == s.acc
              && s'.acc[0] + s'.socket.buffered == data && |s'.acc[0]| == if |data| < 4096 then |data| else 4096
            else
              && s'.acc == s.acc && s'.socket == s.socket
              && s'.mode == if s.socket.state.Closed? then Done(SocketClosed)
                            else if h.Perform? then Suspended else Done(OtherException)
  {
    ReadTakesAllItCan(s.socket, READ_SIZE);
  }

  lemma {:induction false} ClosedMeansDrained(s: Session, history: seq<Happening>)
    requires Fits(s.socket) && !s.mode.Done?
    ensures var s' := RunSession(s, history);
            s'.mode == Done(SocketClosed) ==> s'.socket.buffered == [] && s'.socket.state.Closed?
    decreases |history|
  {
    if history != [] && !Next(s, history[0]).mode.Done? {
      ClosedMeansDrained(Next(s, history[0]), history[1..]);
    }
  }

  /** End to end: a read_all that ended by Socket_closed found the socket closed and returns, concatenated, exactly the
      bytes the socket accepted until then; however it ended, what it returns is a prefix of them. */
  lemma ReadAllIsTheStream(history: seq<Happening>)
    ensures var s := Session(Socket([], Connected), Reading, []);
            && Flatten(ReadAll(history)) <= AcceptedBytes(s, history)
            && (RunSession(s, history).mode == Done(SocketClosed) ==>
                  RunSession(s, history).socket.state.Closed? && Flatten(ReadAll(history)) == AcceptedBytes(s, history))
  {
    var s := Session(Socket([], Connected), Reading, []);
    SessionKeepsBytes(s, history);
    ClosedMeansDrained(s, history);
    var chunks, left := Flatten(ReadAll(history)), RunSession(s, history).socket.buffered;
    assert chunks + left == AcceptedBytes(s, history);
    assert chunks + [] == chunks;
  }

  // concat_chunks

  function TotalLength(chunks: seq<seq<Byte>>): nat
  {
    if chunks == [] then 0 else |chunks[0]| + TotalLength(chunks[1..])
  }

  lemma {:induction false} FlattenLength(chunks: seq<seq<Byte>>)
    ensures |Flatten(chunks)| == TotalLength(chunks)
  {
    if chunks != [] {
      FlattenLength(chunks[1..]);
    }
  }

  /** Bytes.blit chunk 0 result pos len. */
  method Blit(chunk: seq<Byte>, result: array<Byte>, pos: nat)
    requires pos + |chunk| <= result.Length
    modifies result
    ensures result[..pos] == old(result[..pos]) && result[pos..pos + |chunk|] == chunk
    ensures result[pos + |chunk|..] == old(result[pos + |chunk|..])
  {
    for i := 0 to |chunk|
      invariant result[..pos] == old(result[..pos])
      invariant result[pos..pos + i] == chunk[..i]
      invariant result[pos + |chunk|..] == old(result[pos + |chunk|..])
    {
      result[pos + i] := chunk[i];
    }
  }

  method ConcatChunks(chunks: seq<seq<Byte>>) returns (result: array<Byte>)
    ensures fresh(result) && result[..] == Flatten(chunks)
  {
    result := new Byte[TotalLength(chunks)];
    var pos := 0;
    for i := 0 to |chunks|
      invariant fresh(result) && pos == |Flatten(chunks[..i])| && pos + TotalLength(chunks[i..]) == result.Length
      invariant result[..pos] == Flatten(chunks[..i])
    {
      assert chunks[..i + 1] == chunks[..i] + [chunks[i]];
      FlattenAppend(chunks[..i], [chunks[i]]);
      assert Flatten([chunks[i]]) == chunks[i] + Flatten([chunks[i]][1..]) == chunks[i];
      assert chunks[i..][1..] == chunks[i + 1..];
      Blit(chunks[i], result, pos);
      assert result[..pos + |chunks[i]|] == result[..pos] + result[pos..pos + |chunks[i]|];
      pos := pos + |chunks[i]|;
    }
    assert chunks[..|chunks|] == chunks;
  }

  // find_body

  const CR: Byte := 13
  const LF: Byte := 10

  predicate SeparatorAt(r: seq<Byte>, i: nat)
  {
    i + 4 <= |r| && r[i..i + 4] == [CR, LF, CR, LF]
  }

  function Find(r: seq<Byte>, i: nat): nat
    decreases |r| - i
  {
    if i + 3 >= |r| then |r|
    else if r[i] == CR && r[i + 1] == LF && r[i + 2] == CR && r[i + 3] == LF then i + 4
    else Find(r, i + 1)
  }

  predicate FirstSeparatorAt(r: seq<Byte>, k: nat)
  {
    SeparatorAt(r, k) && forall j: nat :: j < k ==> !SeparatorAt(r, j)
  }

  lemma FourBytes(r: seq<Byte>, i: nat)
    requires i + 4 <= |r|
    ensures SeparatorAt(r, i) <==> r[i] == CR && r[i + 1] == LF && r[i + 2] == CR && r[i + 3] == LF
  {
    var w := r[i..i + 4];
    assert w[0] == r[i] && w[1] == r[i + 1] && w[2] == r[i + 2] && w[3] == r[i + 3];
  }

  lemma {:induction false} FindsFirst(r: seq<Byte>, i: nat)
    requires forall j: nat :: j < i ==> !SeparatorAt(r, j)
    ensures Find(r, i) <= |r|
    ensures (forall k: nat :: !SeparatorAt(r, k)) ==> Find(r, i) == |r|
    ensures forall k: nat :: FirstSeparatorAt(r, k) ==> Find(r, i) == k + 4
    decreases |r| - i
  {
    if i + 3 < |r| {
      FourBytes(r, i);
      if !SeparatorAt(r, i) {
        FindsFirst(r, i + 1);
      }
    }
  }

  function FindBody(r: seq<Byte>): (body: seq<Byte>)
  {
    FindsFirst(r, 0);
    r[Find(r, 0)..]
  }

  /** The body is what follows the first CR LF CR LF of the response, and empty if there is none. */
  lemma BodyFollowsFirstSeparator(headers: seq<Byte>, body: seq<Byte>)
    requires forall j: nat :: j < |headers| ==> !SeparatorAt(headers + [CR, LF, CR, LF] + body, j)
    ensures FindBody(headers + [CR, LF, CR, LF] + body) == body
  {
    var r := headers + [CR, LF, CR, LF] + body;
    assert r[|headers|..|headers| + 4] == [CR, LF, CR, LF];
    assert FirstSeparatorAt(r, |headers|);
    FindsFirst(r, 0);
  }

  lemma NoSeparatorNoBody(r: seq<Byte>)
    requires forall k: nat :: !SeparatorAt(r, k)
    ensures FindBody(r) == []
  {
    FindsFirst(r, 0);
  }
}
