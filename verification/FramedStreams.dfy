/** The framing classes as objects (avro/devices/avro/ipc.py and txipc.py). */
module FramedStreams {
  import opened Basics
  import opened BinaryStreams
  import opened Framing

  class FramedWriter {
    const writer: BinaryEncoder

    constructor (w: BinaryEncoder)
      ensures writer == w
    {
      writer := w;
    }

    method WriteFramedMessage(message: seq<byte>)
      modifies writer
      ensures writer.written == old(writer.written) + Frames(message)
    {
      hide Pack;
      var sent := 0;
      while |message| - sent > 0
        invariant sent <= |message|
        invariant writer.written + Frames(message[sent..]) == old(writer.written) + Frames(message)
      {
        var n := if |message| - sent > BUFFER_SIZE then BUFFER_SIZE else |message| - sent;
        ghost var before := writer.written;
        WriteBuffer(message[sent..sent + n]);
        FramesStep(message, sent, n);
        assert writer.written + Frames(message[sent + n..]) == before + Frames(message[sent..]);
        sent := sent + n;
      }
      WriteBufferLength(0);
    }

    lemma FramesStep(message: seq<byte>, sent: nat, n: nat)
      requires sent < |message| && n == if |message| - sent > BUFFER_SIZE then BUFFER_SIZE else |message| - sent
      ensures Frames(message[sent..]) == Pack(n) + (message[sent..sent + n] + Frames(message[sent + n..]))
    {
      hide Pack;
      assert message[sent..][..n] == message[sent..sent + n] && message[sent..][n..] == message[sent + n..];
    }

    method WriteBuffer(chunk: seq<byte>)
      requires |chunk| < 0x1_0000_0000
      modifies writer
      ensures writer.written == old(writer.written) + Pack(|chunk|) + chunk
    {
      WriteBufferLength(|chunk|);
      writer.Write(chunk);
    }

    method WriteBufferLength(n: nat)
      requires n < 0x1_0000_0000
      modifies writer
      ensures writer.written == old(writer.written) + Pack(n)
    {
      writer.Write(Pack(n));
    }
  }

  /** A connection that answers a read with as many of the bytes asked for as it likes, but not none. */
  class Connection {
    const data: seq<byte>
    const grants: (nat, nat) -> nat       // how many bytes to give, by position and request
    var pos: nat

    ghost predicate Valid()
      reads this
    {
      pos <= |data|
    }

    ghost function Rest(): seq<byte>
      requires Valid()
      reads this
    {
      data[pos..]
    }

    constructor (bytes: seq<byte>, answers: (nat, nat) -> nat)
      ensures Valid() && Rest() == bytes
    {
      data, grants, pos := bytes, answers, 0;
      new;
      assert data[0..] == data;
    }

    method Read(n: nat) returns (chunk: seq<byte>)
      requires Valid() && n > 0
      modifies this
      ensures Valid() && |chunk| <= n && chunk + Rest() == old(Rest())
      ensures chunk == [] <==> old(Rest()) == []
    {
      var wanted := grants(pos, n);
      var m := if wanted == 0 then 1 else if wanted > n then n else wanted;
      m := if m > |data| - pos then |data| - pos else m;
      chunk := data[pos..pos + m];
      pos := pos + m;
      assert old(Rest()) == chunk + Rest();
    }

    /** A read of a buffer header, which arrives whole if the bytes are there at all. */
    method ReadHeader() returns (chunk: seq<byte>)
      requires Valid()
      modifies this
      ensures Valid() && (chunk, Rest()) == Take(HEADER_LENGTH, old(Rest()))
    {
      var m := if |data| - pos < HEADER_LENGTH then |data| - pos else HEADER_LENGTH;
      chunk := data[pos..pos + m];
      pos := pos + m;
      assert old(Rest())[..m] == chunk && old(Rest())[m..] == Rest();
    }
  }

  class FramedReader {
    const reader: Connection

    constructor (r: Connection)
      ensures reader == r
    {
      reader := r;
    }

    /** The answer depends on the bytes alone, not on how the connection portions them. */
    method ReadFramedMessage() returns (res: Result<seq<byte>>)
      requires reader.Valid()
      modifies reader
      ensures reader.Valid() && Follows(res, reader.Rest(), Deframe(old(reader.Rest())))
    {
      hide Unpack;
      var message: seq<seq<byte>> := [];
      ghost var bs := reader.Rest();
      assert After(Join([]), Deframe(bs)) == Deframe(bs) by { NothingRead(Deframe(bs)); }
      while true
        invariant reader.Valid()
        invariant Deframe(bs) == After(Join(message), Deframe(reader.Rest()))
        decreases |reader.Rest()|
      {
        ghost var start := reader.Rest();
        var header := reader.ReadHeader();
        if header == [] {
          return Failure(ConnectionClosed);
        }
        if |header| < HEADER_LENGTH {
          return Failure(ShortHeader);
        }
        var length := Unpack(header);
        if length == 0 {
          assert Join(message) + [] == Join(message);
          return Success(Join(message));
        }
        var buffer: seq<byte> := [];
        while |buffer| < length
          invariant reader.Valid() && |buffer| <= length && buffer + reader.Rest() == start[HEADER_LENGTH..]
          decreases length - |buffer|
        {
          var chunk := reader.Read(length - |buffer|);
          if chunk == [] {
            return Failure(ConnectionClosed);
          }
          ghost var before := buffer;
          buffer := buffer + chunk;
          assert before + (chunk + reader.Rest()) == buffer + reader.Rest();
        }
        BufferRead(start, buffer, reader.Rest(), message);
        message := message + [buffer];
      }
    }

    /** The outcome of a message whose first part has been read already. */
    ghost function After(first: seq<byte>, rest: Parsed<seq<byte>>): Parsed<seq<byte>> {
      if rest.Failure? then Failure(rest.error) else Success((first + rest.value.0, rest.value.1))
    }

    lemma NothingRead(rest: Parsed<seq<byte>>)
      ensures After(Join([]), rest) == rest
    {
      if rest.Success? {
        assert [] + rest.value.0 == rest.value.0;
      }
    }

    lemma BufferRead(start: seq<byte>, buffer: seq<byte>, rest: seq<byte>, message: seq<seq<byte>>)
      requires |start| >= HEADER_LENGTH && 0 < |buffer| == Unpack(start[..HEADER_LENGTH])
      requires buffer + rest == start[HEADER_LENGTH..]
      ensures After(Join(message), Deframe(start)) == After(Join(message + [buffer]), Deframe(rest))
    {
      hide Unpack, Join, Deframe;
      JoinSnoc(message, buffer);
      assert start[HEADER_LENGTH..|buffer| + HEADER_LENGTH] == (buffer + rest)[..|buffer|] == buffer;
      assert start[|buffer| + HEADER_LENGTH..] == (buffer + rest)[|buffer|..] == rest;
      DeframeBuffer(start);
      if Deframe(rest).Success? {
        var tail := Deframe(rest).value.0;
        assert Join(message) + (buffer + tail) == Join(message) + buffer + tail;
      }
    }
  }

  class AvroProtocol {
    var recvd: seq<byte>
    var message: seq<seq<byte>>
    var done: bool
    var fired: seq<seq<byte>>             // the arguments of finished.callback

    ghost function View(): Receiver
      reads this
    {
      Receiver(recvd, message, done, fired)
    }

    constructor ()
      ensures View() == IDLE
    {
      recvd, message, done, fired := [], [], false, [];
    }

    method DataReceived(data: seq<byte>)
      modifies this
      ensures View() == Receive(old(View()), data)
    {
      hide Unpack, Join;
      recvd := recvd + data;
      while |recvd| >= HEADER_LENGTH
        invariant Drain(View()) == Receive(old(View()), data)
        decreases |recvd|
      {
        var length := Unpack(recvd[..HEADER_LENGTH]);
        if length == 0 {
          done := true;
          fired := fired + [Join(message)];
          return;
        }
        if |recvd| < length + HEADER_LENGTH {
          return;
        }
        var buffer := recvd[HEADER_LENGTH..length + HEADER_LENGTH];
        recvd := recvd[length + HEADER_LENGTH..];
        message := message + [buffer];
      }
    }
  }

  class RequestStreamingProducer {
    const message: seq<byte>
    const length: nat
    var totalBytesSent: nat
    var started: bool
    var stopped: bool
    var finished: bool                    // the deferred has been called back

    constructor (m: seq<byte>)
      ensures message == m && length == DeclaredLength(m)
      ensures totalBytesSent == 0 && !started && !stopped && !finished
    {
      message := m;
      length := |m| + (|m| / BUFFER_SIZE + 2) * HEADER_LENGTH;
      totalBytesSent, started, stopped, finished := 0, false, false, false;
    }

    /** Without pauses everything is written in one go, and a second call writes nothing. */
    method StartProducing(consumer: BinaryEncoder)
      requires length == DeclaredLength(message) && (!started ==> totalBytesSent == 0 && !stopped)
      modifies this, consumer
      ensures started
      ensures consumer.written == old(consumer.written) + if old(started) then [] else Produced(message, 0)
      ensures !old(started) ==> stopped && finished && totalBytesSent == length
    {
      if started {
        return;
      }
      started := true;
      while length - totalBytesSent > 0 && !stopped
        invariant totalBytesSent <= length && started
        invariant if stopped then finished && totalBytesSent == length else totalBytesSent < length
        invariant consumer.written + (if stopped then [] else Produced(message, totalBytesSent))
                    == old(consumer.written) + Produced(message, 0)
        decreases length - totalBytesSent, !stopped
      {
        hide Produced;
        Write(consumer);
      }
    }

    lemma ProducedStep(sent: nat)
      requires sent < DeclaredLength(message)
      ensures
        var left := DeclaredLength(message) - sent;
        var n := if left > BUFFER_SIZE then BUFFER_SIZE else left;
        var chunk := Slice(message, sent, sent + n);
        Produced(message, sent) == Pack(|chunk|) + chunk + if n == left then Pack(0) else Produced(message, sent + n)
    {
      hide Pack, Slice;
    }

    method Write(consumer: BinaryEncoder)
      requires length == DeclaredLength(message) && totalBytesSent < length && !stopped
      modifies this, consumer
      ensures started == old(started) && old(totalBytesSent) < totalBytesSent <= length
      ensures if totalBytesSent == length then stopped && finished else !stopped
      ensures consumer.written + (if stopped then [] else Produced(message, totalBytesSent))
                == old(consumer.written) + Produced(message, old(totalBytesSent))
    {
      hide Pack, Produced;
      ProducedStep(totalBytesSent);
      var n := if length - totalBytesSent > BUFFER_SIZE then BUFFER_SIZE else length - totalBytesSent;
      var chunk := Slice(message, totalBytesSent, totalBytesSent + n);
      consumer.Write(Pack(|chunk|));
      consumer.Write(chunk);
      totalBytesSent := totalBytesSent + n;
      if totalBytesSent == length && !stopped {
        stopped := true;
        consumer.Write(Pack(0));
        finished := true;
      }
    }
  }
}
