/**
 * One TCP connection (code/network/tcp/tcp_connection.cc): an output path that
 * writes directly when it can and buffers the rest, an input path that hands
 * decoded messages on, and a close that is reported once.
 *
 * Sockets are nondeterministic: a write takes any number of the bytes offered or
 * fails, a read delivers any bytes.
 */
module TcpConnections {
  import opened Basics
  import opened ByteBuffer
  import opened Codec

  /** The sending side: what is buffered, whether EPOLLOUT is on, and the history of both ends. */
  datatype Sender = Sender(connected: bool, output: Bytes, wantWrite: bool, accepted: Bytes, written: Bytes)
  {
    /** No byte is lost, duplicated or reordered, and buffered bytes wait for a write event. */
    predicate Sound() {
      && written + output == accepted
      && (connected && output != [] ==> wantWrite)
    }
  }

  /** `sendInLoop`, where `n` is what `write` returns if it is called. */
  function AfterSend(s: Sender, data: Bytes, n: int): Sender
    requires n <= |data|
  {
    if !s.connected then s
    else if s.output == [] && n >= 0 then
      s.(output := data[n..], wantWrite := s.wantWrite || n < |data|,
         accepted := s.accepted + data, written := s.written + data[..n])
    else
      s.(output := s.output + data, wantWrite := true, accepted := s.accepted + data)
  }

  function AfterWriteEvent(s: Sender, n: int): Sender
    requires n <= |s.output|
  {
    if !s.connected then s else
      var sent := if n > 0 then n else 0;
      s.(output := s.output[sent..], wantWrite := s.wantWrite && s.output[sent..] != [],
         written := s.written + s.output[..sent])
  }

  function AfterClose(s: Sender): Sender {
    if !s.connected then s else s.(connected := false, wantWrite := false)
  }

  lemma SendKeepsSound(s: Sender, data: Bytes, n: int)
    requires s.Sound() && n <= |data|
    ensures AfterSend(s, data, n).Sound()
  {
    if s.connected {
      if s.output == [] && n >= 0 {
        assert s.written + s.output == s.written && data[..n] + data[n..] == data;
        assert s.written + data[..n] + data[n..] == s.written + (data[..n] + data[n..]);
      } else {
        assert s.written + (s.output + data) == s.written + s.output + data;
      }
    }
  }

  lemma WriteEventKeepsSound(s: Sender, n: int)
    requires s.Sound() && n <= |s.output|
    ensures AfterWriteEvent(s, n).Sound()
  {
    var sent := if n > 0 then n else 0;
    assert s.output[..sent] + s.output[sent..] == s.output;
    assert s.written + s.output[..sent] + s.output[sent..] == s.written + (s.output[..sent] + s.output[sent..]);
  }

  lemma AfterWriteParts(s: Sender, n: int)
    requires s.connected && n <= |s.output|
    ensures var t := AfterWriteEvent(s, n);
      && t == Sender(true, t.output, s.wantWrite && t.output != [], s.accepted, t.written)
      && t.output == (if n > 0 then s.output[n..] else s.output)
      && t.written == (if n > 0 then s.written + s.output[..n] else s.written)
  {
    assert s.written + [] == s.written;
  }

  /** `decode`, and `Retrieve` if it gave a message. */
  method TakeFrame<M>(buffer: Buffer, parse: Parser<M>) returns (d: Decoded<M>)
    requires buffer.Valid()
    modifies buffer`readPos, buffer`writePos
    ensures buffer.Valid()
    ensures d == Decode(parse, old(buffer.Contents()))
    ensures buffer.Contents() == if d.Ok? then old(buffer.Contents())[d.consumed..] else old(buffer.Contents())
  {
    var view := buffer.data[buffer.readPos..buffer.writePos];
    d := Decode(parse, view);
    if d.Ok? {
      buffer.Retrieve(d.consumed);
    }
  }

  /** What is left to decode once a frame has been taken. */
  lemma StreamStep<M>(parse: Parser<M>, done: seq<M>, b: Bytes)
    ensures var d := Decode(parse, b);
      var s := DecodeAll(parse, b);
      if d.Ok? then
        var later := DecodeAll(parse, b[d.consumed..]);
        Stream(done + s.msgs, s.rest, s.corrupt) == Stream(done + [d.msg] + later.msgs, later.rest, later.corrupt)
      else s == Stream([], b, d.Corrupted?)
    ensures |b| < 4 ==> Decode(parse, b).Incomplete?
  {
    var d := Decode(parse, b);
    assert |b| < 4 ==> d.Incomplete?;
    hide Decode;
    if d.Ok? {
      var later := DecodeAll(parse, b[d.consumed..]);
      assert done + ([d.msg] + later.msgs) == done + [d.msg] + later.msgs;
    }
  }

  /** Decodes every complete frame in the buffer and consumes it, up to the first corrupt one. */
  method DrainFrames<M>(buffer: Buffer, parse: Parser<M>) returns (msgs: seq<M>, corrupt: bool)
    requires buffer.Valid()
    modifies buffer`readPos, buffer`writePos
    ensures buffer.Valid()
    ensures Stream(msgs, buffer.Contents(), corrupt) == DecodeAll(parse, old(buffer.Contents()))
  {
    hide Decode, DecodeAll;
    msgs := [];
    while buffer.ReadableBytes() >= 4
      invariant buffer.Valid()
      invariant var later := DecodeAll(parse, buffer.Contents());
        DecodeAll(parse, old(buffer.Contents())) == Stream(msgs + later.msgs, later.rest, later.corrupt)
      decreases |buffer.Contents()|
    {
      StreamStep(parse, msgs, buffer.Contents());
      var d := TakeFrame(buffer, parse);
      assert msgs + [] == msgs;
      if !d.Ok? {
        return msgs, d.Corrupted?;
      }
      msgs := msgs + [d.msg];
    }
    StreamStep(parse, msgs, buffer.Contents());
    assert msgs + [] == msgs;
    return msgs, false;
  }

  class TcpConnection {
    const input: Buffer
    const output: Buffer
    var connected: bool
    var wantWrite: bool
    /** How often the close was reported upward. */
    var closeReports: nat
    ghost var accepted: Bytes
    ghost var written: Bytes

    ghost predicate Valid()
      reads this, input, output, input.data, output.data
    {
      && input != output && input.data != output.data
      && input.Valid() && output.Valid()
      && closeReports == (if connected then 0 else 1)
      && SendSide().Sound()
    }

    ghost function SendSide(): Sender
      reads this, output, output.data
      requires output.Valid()
    {
      Sender(connected, output.Contents(), wantWrite, accepted, written)
    }

    constructor ()
      ensures Valid() && fresh(input) && fresh(output) && fresh(input.data) && fresh(output.data)
      ensures SendSide() == Sender(true, [], false, [], []) && input.Contents() == []
    {
      var i := new Buffer(INITIAL_SIZE);
      var o := new Buffer(INITIAL_SIZE);
      input, output := i, o;
      connected, wantWrite, closeReports := true, false, 0;
      accepted, written := [], [];
    }

    method SendInLoop(data: Bytes, n: int)
      requires Valid() && n <= |data|
      modifies this`wantWrite, this`accepted, this`written, output, output.data
      ensures Valid() && (output.data == old(output.data) || fresh(output.data))
      ensures SendSide() == AfterSend(old(SendSide()), data, n)
    {
      SendKeepsSound(SendSide(), data, n);
      if !connected {
        return;
      }
      accepted := accepted + data;
      if output.ReadableBytes() == 0 {
        if n >= 0 {
          written := written + data[..n];
          if n < |data| {
            output.Append(data[n..]);
            wantWrite := true;
          }
          return;
        }
        output.Append(data);
        wantWrite := true;
        return;
      }
      output.Append(data);
      wantWrite := true;
    }

    /** `n` is what `write` of the buffered bytes returns. */
    method HandleWrite(n: int)
      requires Valid() && n <= output.ReadableBytes()
      modifies this`wantWrite, this`written, output`readPos, output`writePos
      ensures Valid() && SendSide() == AfterWriteEvent(old(SendSide()), n)
    {
      ghost var was := SendSide();
      WriteEventKeepsSound(was, n);
      if !connected {
        return;
      }
      if n > 0 {
        written := written + output.Contents()[..n];
        output.Retrieve(n);
      }
      AfterWriteParts(was, n);
      hide AfterWriteEvent;
      if output.ReadableBytes() == 0 {
        wantWrite := false;
      }
    }

    method HandleClose()
      requires Valid()
      modifies this`connected, this`wantWrite, this`closeReports
      ensures Valid() && !connected && SendSide() == AfterClose(old(SendSide()))
      ensures closeReports == 1
    {
      if !connected {
        return;
      }
      connected := false;
      wantWrite := false;
      closeReports := closeReports + 1;
    }

    /** The receiving side, given what it handed on before. */
    ghost function ReceiveSide<M>(dispatched: seq<M>): Receiver<M>
      reads this, input, input.data
      requires input.Valid()
    {
      Receiver(input.Contents(), dispatched, !connected)
    }

    /**
     * A readable event. `received` is what `readv` delivered: `None` for an error, which closes
     * unless it is transient, and no bytes for the end of the stream, which always closes.
     */
    method HandleRead<M>(received: Option<Bytes>, transient: bool, parse: Parser<M>, ghost before: seq<M>)
      returns (msgs: seq<M>)
      requires Valid()
      requires received.Some? ==> |received.value| <= input.WritableBytes() + SPILL_SIZE
      modifies this`connected, this`wantWrite, this`closeReports, input, input.data
      ensures Valid() && (input.data == old(input.data) || fresh(input.data))
      ensures !old(connected) ==> msgs == [] && !connected
      ensures old(connected) && received.Some? && received.value != [] ==>
        ReceiveSide(before + msgs) == Feed(parse, old(ReceiveSide(before)), received.value)
      ensures old(connected) && (received.None? || received.value == []) ==>
        msgs == [] && (connected <==> received.None? && transient)
      ensures SendSide() == if connected then old(SendSide()) else AfterClose(old(SendSide()))
    {
      msgs := [];
      if !connected {
        return;
      }
      var n := input.ReadFd(received);
      if n > 0 {
        var corrupt;
        msgs, corrupt := DrainFrames(input, parse);
        if corrupt {
          HandleClose();
        }
      } else if n == 0 {
        HandleClose();
      } else if !transient {
        HandleClose();
      }
    }
  }
}
