/**
 * Message framing (avro/devices/avro/ipc.py and txipc.py; the "Message Framing" section of the
 * Avro specification): a message is sent as length-prefixed buffers closed by an empty one.
 */
module Framing {
  import opened Basics

  const HEADER_LENGTH := 4
  const BUFFER_SIZE := 8192

  /** A big-endian unsigned 32-bit integer. */
  function Pack(n: nat): (bs: seq<byte>)
    requires n < 0x1_0000_0000
    ensures |bs| == HEADER_LENGTH
  {
    [n / 0x100_0000, n / 0x1_0000 % 0x100, n / 0x100 % 0x100, n % 0x100]
  }

  function Unpack(bs: seq<byte>): (n: nat)
    requires |bs| == HEADER_LENGTH
    ensures n < 0x1_0000_0000
  {
    var b3: int, b2: int, b1: int := bs[0], bs[1], bs[2];
    b3 * 0x100_0000 + b2 * 0x1_0000 + b1 * 0x100 + bs[3]
  }

  lemma UnpackPack(n: nat)
    requires n < 0x1_0000_0000
    ensures Unpack(Pack(n)) == n
  {
    var n1, n2 := n / 0x100, n / 0x1_0000;
    assert n == 0x100 * n1 + n % 0x100;
    assert n1 == 0x100 * n2 + n1 % 0x100;
    assert n2 == 0x100 * (n / 0x100_0000) + n2 % 0x100;
  }

  /** The order of byte strings from their first byte on. */
  predicate Precedes(a: seq<byte>, b: seq<byte>) {
    b != [] && (a == [] || a[0] < b[0] || (a[0] == b[0] && Precedes(a[1..], b[1..])))
  }

  /** Headers come in the order of their numbers: the first byte is the most significant. */
  lemma PackIsMonotone(m: nat, n: nat)
    requires m < 0x1_0000_0000 && n < 0x1_0000_0000
    ensures Precedes(Pack(m), Pack(n)) <==> m < n
  {
    var a, b := Pack(m), Pack(n);
    assert Precedes(a[4..], b[4..]) == false;
    assert a[1..][1..] == a[2..] && a[2..][1..] == a[3..] && a[3..][1..] == a[4..];
    assert b[1..][1..] == b[2..] && b[2..][1..] == b[3..] && b[3..][1..] == b[4..];
    PackedValue(m);
    PackedValue(n);
    hide Pack;
    assert Precedes(a[3..], b[3..]) <==> a[3] < b[3];
    assert Precedes(a[2..], b[2..]) <==> a[2] < b[2] || (a[2] == b[2] && a[3] < b[3]);
    assert Precedes(a[1..], b[1..]) <==> a[1] < b[1] || (a[1] == b[1] && Precedes(a[2..], b[2..]));
  }

  lemma PackedValue(n: nat)
    requires n < 0x1_0000_0000
    ensures
      var bs := Pack(n);
      var (b3: int, b2: int, b1: int, b0: int) := (bs[0], bs[1], bs[2], bs[3]);
      n == b3 * 0x100_0000 + b2 * 0x1_0000 + b1 * 0x100 + b0
  {
    UnpackPack(n);
  }

  /** The frames `write_framed_message` writes. */
  function Frames(message: seq<byte>): (bs: seq<byte>)
    ensures |bs| >= HEADER_LENGTH
    decreases |message|
  {
    if message == [] then Pack(0)
    else
      var n := if |message| > BUFFER_SIZE then BUFFER_SIZE else |message|;
      Pack(n) + (message[..n] + Frames(message[n..]))
  }

  /** `read_framed_message` on a stream that holds bs. */
  function Deframe(bs: seq<byte>): (res: Parsed<seq<byte>>)
    decreases |bs|
  {
    if bs == [] then Failure(ConnectionClosed)
    else if |bs| < HEADER_LENGTH then Failure(ShortHeader)
    else
      var n := Unpack(bs[..HEADER_LENGTH]);
      var rest := bs[HEADER_LENGTH..];
      if n == 0 then Success(([], rest))
      else if |rest| < n then Failure(ConnectionClosed)
      else
        var (message, rest') :- Deframe(rest[n..]);
        Success((rest[..n] + message, rest'))
  }

  /** One frame in front of anything. */
  lemma DeframeStep(chunk: seq<byte>, tail: seq<byte>)
    requires |chunk| < 0x1_0000_0000
    ensures
      var res := Deframe(Pack(|chunk|) + (chunk + tail));
      if chunk == [] then res == Success(([], tail))
      else if Deframe(tail).Success? then
        res == Success((chunk + Deframe(tail).value.0, Deframe(tail).value.1))
      else res == Failure(Deframe(tail).error)
  {
    var bs := Pack(|chunk|) + (chunk + tail);
    UnpackPack(|chunk|);
    assert bs[..HEADER_LENGTH] == Pack(|chunk|) && bs[HEADER_LENGTH..] == chunk + tail;
    assert (chunk + tail)[..|chunk|] == chunk && (chunk + tail)[|chunk|..] == tail;
  }

  /** Reading consumes exactly the frames of one message and returns it. */
  lemma {:induction false} FrameRoundTrip(message: seq<byte>, suffix: seq<byte>)
    ensures Deframe(Frames(message) + suffix) == Success((message, suffix))
    decreases |message|
  {
    hide Pack, Unpack, Deframe;
    if message == [] {
      DeframeStep([], suffix);
      assert [] + suffix == suffix;
    } else {
      var n := if |message| > BUFFER_SIZE then BUFFER_SIZE else |message|;
      var head, tail := message[..n], message[n..];
      FrameRoundTrip(tail, suffix);
      DeframeStep(head, Frames(tail) + suffix);
      assert Frames(message) == Pack(n) + (head + Frames(tail));
      hide Frames;
      assert Pack(n) + (head + Frames(tail)) + suffix == Pack(n) + (head + (Frames(tail) + suffix));
      assert head + tail == message;
    }
  }

  /** Every frame but the last is full, so a message costs a header for each BUFFER_SIZE bytes begun and one more. */
  lemma {:induction false} FramesLength(message: seq<byte>)
    ensures |Frames(message)| == |message| + HEADER_LENGTH * ((|message| + BUFFER_SIZE - 1) / BUFFER_SIZE + 1)
    decreases |message|
  {
    hide Pack;
    if |message| > BUFFER_SIZE {
      FramesLength(message[BUFFER_SIZE..]);
    } else if message != [] {
      assert message[|message|..] == [];
      FramesLength([]);
    }
  }

  // The event-driven reader

  /** AvroProtocol: bytes not yet consumed, buffers so far, and the messages passed to `finished`. */
  datatype Receiver = Receiver(recvd: seq<byte>, message: seq<seq<byte>>, done: bool, fired: seq<seq<byte>>)

  function Join(chunks: seq<seq<byte>>): seq<byte> {
    if chunks == [] then [] else Join(chunks[..|chunks| - 1]) + chunks[|chunks| - 1]
  }

  /** The loop of `dataReceived`. */
  function Drain(st: Receiver): Receiver
    decreases |st.recvd|
  {
    if |st.recvd| < HEADER_LENGTH then st
    else
      var n := Unpack(st.recvd[..HEADER_LENGTH]);
      if n == 0 then st.(done := true, fired := st.fired + [Join(st.message)])
      else if |st.recvd| < n + HEADER_LENGTH then st
      else Drain(TakeBuffer(st, n))
  }

  function TakeBuffer(st: Receiver, n: nat): Receiver
    requires n + HEADER_LENGTH <= |st.recvd|
  {
    st.(recvd := st.recvd[n + HEADER_LENGTH..], message := st.message + [st.recvd[HEADER_LENGTH..n + HEADER_LENGTH]])
  }

  function Receive(st: Receiver, data: seq<byte>): Receiver {
    Drain(st.(recvd := st.recvd + data))
  }

  const IDLE := Receiver([], [], false, [])

  predicate Fires(st: Receiver) {
    Drain(st).fired != st.fired
  }

  /** Draining fires at most once, and then leaves the empty buffer that made it fire. */
  lemma {:induction false} DrainFires(st: Receiver)
    ensures Fires(st) ==> |Drain(st).fired| == |st.fired| + 1
    ensures Fires(st) ==> |Drain(st).recvd| >= HEADER_LENGTH && Unpack(Drain(st).recvd[..HEADER_LENGTH]) == 0
    decreases |st.recvd|
  {
    hide Unpack, Join;
    if |st.recvd| >= HEADER_LENGTH {
      var n := Unpack(st.recvd[..HEADER_LENGTH]);
      if 0 < n <= |st.recvd| - HEADER_LENGTH {
        DrainFires(TakeBuffer(st, n));
      }
    }
  }

  lemma {:induction false} DrainMore(st: Receiver, more: seq<byte>)
    ensures
      var st' := st.(recvd := st.recvd + more);
      if Fires(st) then |Drain(st').fired| == |st.fired| + 1
      else Drain(Drain(st).(recvd := Drain(st).recvd + more)) == Drain(st')
    decreases |st.recvd|
  {
    hide Unpack, Join;
    var st' := st.(recvd := st.recvd + more);
    if |st.recvd| >= HEADER_LENGTH {
      assert st'.recvd[..HEADER_LENGTH] == st.recvd[..HEADER_LENGTH];
      var n := Unpack(st.recvd[..HEADER_LENGTH]);
      if 0 < n <= |st.recvd| - HEADER_LENGTH {
        DrainMore(TakeBuffer(st, n), more);
        assert st'.recvd[n + HEADER_LENGTH..] == st.recvd[n + HEADER_LENGTH..] + more;
        assert st'.recvd[HEADER_LENGTH..n + HEADER_LENGTH] == st.recvd[HEADER_LENGTH..n + HEADER_LENGTH];
        assert TakeBuffer(st', n) == TakeBuffer(st, n).(recvd := TakeBuffer(st, n).recvd + more);
      }
    }
  }

  /** Splitting data in two makes no difference exactly as long as the first part does not end a message. */
  lemma SplitIndependence(st: Receiver, a: seq<byte>, b: seq<byte>)
    ensures Receive(Receive(st, a), b) == Receive(st, a + b) <==> Receive(st, a).fired == st.fired
  {
    hide Unpack, Join, Drain;
    var st' := st.(recvd := st.recvd + a);
    assert st.recvd + (a + b) == st.recvd + a + b;
    DrainMore(st', b);
    if Fires(st') {
      DrainFires(st');
      FiresAgain(Drain(st'), b);
    }
  }

  lemma FiresAgain(st: Receiver, b: seq<byte>)
    requires |st.recvd| >= HEADER_LENGTH && Unpack(st.recvd[..HEADER_LENGTH]) == 0
    ensures |Receive(st, b).fired| == |st.fired| + 1
  {
    hide Unpack, Join;
    assert (st.recvd + b)[..HEADER_LENGTH] == st.recvd[..HEADER_LENGTH];
  }

  /** The first buffer of a stream and what follows it. */
  lemma DeframeBuffer(bs: seq<byte>)
    requires |bs| >= HEADER_LENGTH && 0 < Unpack(bs[..HEADER_LENGTH]) <= |bs| - HEADER_LENGTH
    ensures
      var n := Unpack(bs[..HEADER_LENGTH]);
      var tail := Deframe(bs[n + HEADER_LENGTH..]);
      Deframe(bs) ==
        if tail.Failure? then Failure(tail.error)
        else Success((bs[HEADER_LENGTH..n + HEADER_LENGTH] + tail.value.0, tail.value.1))
  {
    hide Unpack;
    var n := Unpack(bs[..HEADER_LENGTH]);
    assert bs[HEADER_LENGTH..][n..] == bs[n + HEADER_LENGTH..];
    assert bs[HEADER_LENGTH..][..n] == bs[HEADER_LENGTH..n + HEADER_LENGTH];
  }

  /** A stream without a complete first buffer. */
  lemma DeframeNoBuffer(bs: seq<byte>)
    requires |bs| < HEADER_LENGTH || Unpack(bs[..HEADER_LENGTH]) == 0
        || Unpack(bs[..HEADER_LENGTH]) > |bs| - HEADER_LENGTH
    ensures Deframe(bs).Success? <==> |bs| >= HEADER_LENGTH && Unpack(bs[..HEADER_LENGTH]) == 0
    ensures Deframe(bs).Success? ==> Deframe(bs).value.0 == []
  {
    hide Unpack;
  }

  lemma JoinSnoc(chunks: seq<seq<byte>>, chunk: seq<byte>)
    ensures Join(chunks + [chunk]) == Join(chunks) + chunk
  {
    assert (chunks + [chunk])[..|chunks|] == chunks;
  }

  /** On the same bytes the event-driven reader delivers a message exactly where the blocking one does. */
  lemma {:induction false} DrainIsDeframe(st: Receiver)
    ensures Drain(st).fired ==
      if Deframe(st.recvd).Success? then st.fired + [Join(st.message) + Deframe(st.recvd).value.0] else st.fired
    decreases |st.recvd|
  {
    hide Unpack, Join, Deframe;
    if |st.recvd| < HEADER_LENGTH || Unpack(st.recvd[..HEADER_LENGTH]) == 0
       || Unpack(st.recvd[..HEADER_LENGTH]) > |st.recvd| - HEADER_LENGTH {
      DeframeNoBuffer(st.recvd);
      assert Join(st.message) + [] == Join(st.message);
    } else {
      var n := Unpack(st.recvd[..HEADER_LENGTH]);
      assert Drain(st) == Drain(TakeBuffer(st, n));
      hide Drain;
      var chunk := st.recvd[HEADER_LENGTH..n + HEADER_LENGTH];
      DrainIsDeframe(TakeBuffer(st, n));
      DeframeBuffer(st.recvd);
      JoinSnoc(st.message, chunk);
      var tail := Deframe(TakeBuffer(st, n).recvd);
      if tail.Success? {
        assert Join(st.message) + chunk + tail.value.0 == Join(st.message) + (chunk + tail.value.0);
      }
    }
  }

  /** Feeding chunk after chunk. */
  function ReceiveAll(st: Receiver, chunks: seq<seq<byte>>): Receiver {
    if chunks == [] then st else Receive(ReceiveAll(st, chunks[..|chunks| - 1]), chunks[|chunks| - 1])
  }

  lemma {:induction false} IncompleteFrames(message: seq<byte>, prefix: seq<byte>)
    requires prefix <= Frames(message) && prefix != Frames(message)
    ensures Deframe(prefix).Failure?
    decreases |message|
  {
    hide Pack, Unpack;
    if message == [] {
    } else if |prefix| >= HEADER_LENGTH {
      var n := if |message| > BUFFER_SIZE then BUFFER_SIZE else |message|;
      UnpackPack(n);
      assert prefix[..HEADER_LENGTH] == Frames(message)[..HEADER_LENGTH] == Pack(n);
      if |prefix| >= HEADER_LENGTH + n {
        var rest := prefix[HEADER_LENGTH..];
        assert Frames(message)[HEADER_LENGTH..][n..] == Frames(message[n..]);
        assert rest[n..] <= Frames(message[n..]);
        IncompleteFrames(message[n..], rest[n..]);
      }
    }
  }

  lemma {:induction false} ReceiveAllIsReceive(chunks: seq<seq<byte>>, message: seq<byte>)
    requires Join(chunks) <= Frames(message) && forall i :: 0 <= i < |chunks| ==> chunks[i] != []
    ensures ReceiveAll(IDLE, chunks) == Receive(IDLE, Join(chunks))
    ensures ReceiveAll(IDLE, chunks).fired == if Join(chunks) == Frames(message) then [message] else []
  {
    hide Drain, Deframe, Frames;
    assert [] + Join(chunks) == Join(chunks);
    DrainIsDeframe(IDLE.(recvd := Join(chunks)));
    if Join(chunks) == Frames(message) {
      FrameRoundTrip(message, []);
      assert Frames(message) + [] == Frames(message) && [] + message == message && [] + [message] == [message];
    } else {
      IncompleteFrames(message, Join(chunks));
    }
    if chunks == [] {
      assert IDLE.(recvd := []) == IDLE;
      NothingReceived();
    } else {
      var init, last := chunks[..|chunks| - 1], chunks[|chunks| - 1];
      assert Join(chunks) == Join(init) + last;
      ReceiveAllIsReceive(init, message);
      SplitIndependence(IDLE, Join(init), last);
    }
  }

  lemma NothingReceived()
    ensures Drain(IDLE) == IDLE
  {
  }

  /** However the frames of a message are cut into non-empty pieces, `finished` fires once, on the last. */
  lemma AnySplitDelivers(chunks: seq<seq<byte>>, message: seq<byte>, i: nat)
    requires Join(chunks) == Frames(message) && (forall j :: 0 <= j < |chunks| ==> chunks[j] != []) && i < |chunks|
    ensures ReceiveAll(IDLE, chunks[..i]).fired == []
    ensures ReceiveAll(IDLE, chunks).fired == [message]
  {
    hide Frames, Drain;
    ReceiveAllIsReceive(chunks, message);
    JoinIsPrefix(chunks, i);
    ReceiveAllIsReceive(chunks[..i], message);
  }

  lemma {:induction false} JoinIsPrefix(chunks: seq<seq<byte>>, i: nat)
    requires i < |chunks| && forall j :: 0 <= j < |chunks| ==> chunks[j] != []
    ensures Join(chunks[..i]) <= Join(chunks) && |Join(chunks[..i])| < |Join(chunks)|
  {
    var init := chunks[..|chunks| - 1];
    if i < |init| {
      JoinIsPrefix(init, i);
      assert init[..i] == chunks[..i];
    }
  }

  // The streaming producer

  /** The declared `length`: the message, a header for every buffer, and the closing empty buffer. */
  function DeclaredLength(message: seq<byte>): nat {
    |message| + (|message| / BUFFER_SIZE + 2) * HEADER_LENGTH
  }

  /** `message[i:j]` */
  function Slice(message: seq<byte>, i: nat, j: nat): (s: seq<byte>)
    requires i <= j
    ensures |s| <= j - i
  {
    if i >= |message| then [] else if j >= |message| then message[i..] else message[i..j]
  }

  /** What the `write` calls produce once `sent` is the count of bytes taken as sent. */
  function Produced(message: seq<byte>, sent: nat): seq<byte>
    requires sent < DeclaredLength(message)
    decreases DeclaredLength(message) - sent
  {
    var left := DeclaredLength(message) - sent;
    var n := if left > BUFFER_SIZE then BUFFER_SIZE else left;
    var chunk := Slice(message, sent, sent + n);
    Pack(|chunk|) + (chunk + if n == left then Pack(0) else Produced(message, sent + n))
  }

  lemma DeclaredIsMore(message: seq<byte>)
    ensures DeclaredLength(message) > |message|
  {
  }

  /** What is left of the message from i on. */
  function Unsent(message: seq<byte>, i: nat): seq<byte> {
    Slice(message, i, if i > |message| then i else |message|)
  }

  lemma SliceSplits(message: seq<byte>, i: nat, n: nat)
    requires n > 0
    ensures Slice(message, i, i + n) == [] ==> Unsent(message, i) == []
    ensures Unsent(message, i) == Slice(message, i, i + n) + Unsent(message, i + n)
    ensures i + n >= |message| ==> Slice(message, i, i + n) == Unsent(message, i)
  {
  }

  /** The bytes a producer writes always decode to its message. */
  lemma {:induction false} ProducerDelivers(message: seq<byte>, sent: nat)
    requires sent < DeclaredLength(message)
    ensures Deframe(Produced(message, sent)).Success?
    ensures Deframe(Produced(message, sent)).value.0 == Unsent(message, sent)
    decreases DeclaredLength(message) - sent
  {
    DeclaredIsMore(message);
    hide Pack, Unpack, Deframe, DeclaredLength, Slice, Unsent;
    var left := DeclaredLength(message) - sent;
    var n := if left > BUFFER_SIZE then BUFFER_SIZE else left;
    var chunk := Slice(message, sent, sent + n);
    SliceSplits(message, sent, n);
    var tail := if n == left then Pack(0) else Produced(message, sent + n);
    assert Produced(message, sent) == Pack(|chunk|) + (chunk + tail);
    hide Produced;
    DeframeStep(chunk, tail);
    if chunk != [] {
      if n == left {
        DeframeStep([], []);
        assert Pack(0) + ([] + []) == Pack(0);
        assert chunk + [] == chunk;
      } else {
        ProducerDelivers(message, sent + n);
      }
    }
  }

  lemma {:induction false} ProducedLength(message: seq<byte>, sent: nat)
    requires sent < DeclaredLength(message)
    ensures |Produced(message, sent)| ==
      HEADER_LENGTH * ((DeclaredLength(message) - sent + BUFFER_SIZE - 1) / BUFFER_SIZE) + HEADER_LENGTH
      + if sent < |message| then |message| - sent else 0
    decreases DeclaredLength(message) - sent
  {
    DeclaredIsMore(message);
    hide Pack, DeclaredLength;
    var left := DeclaredLength(message) - sent;
    OneBufferLess(left);
    if left > BUFFER_SIZE {
      ProducedLength(message, sent + BUFFER_SIZE);
    }
  }

  lemma OneBufferLess(left: nat)
    requires left > 0
    ensures (left + BUFFER_SIZE - 1) / BUFFER_SIZE ==
      if left > BUFFER_SIZE then (left - BUFFER_SIZE + BUFFER_SIZE - 1) / BUFFER_SIZE + 1 else 1
  {
  }

  /** The length announced is the length written exactly while the headers fit in the last buffer. */
  lemma DeclaredLengthIsRight(message: seq<byte>)
    ensures
      var (q, r) := (|message| / BUFFER_SIZE, |message| % BUFFER_SIZE);
      |Produced(message, 0)| == DeclaredLength(message) <==> r + HEADER_LENGTH * q + 2 * HEADER_LENGTH <= BUFFER_SIZE
  {
    hide Produced;
    ProducedLength(message, 0);
  }  /** For a message of 8185 bytes a second buffer is needed, whose header is not announced. */
  lemma DeclaredLengthIsShort(message: seq<byte>)
    requires |message| == 8185
    ensures DeclaredLength(message) == 8193 && |Produced(message, 0)| == 8197
  {
    hide Produced;
    ProducedLength(message, 0);
  }
}
