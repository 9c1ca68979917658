/**
 * Two connected TcpConnections as one direction of a message channel: sends with
 * partial writes on one end, a reliable byte stream between, reads of arbitrary
 * size and the decode loop on the other end.
 */
module MessageChannel {
  import opened Basics
  import opened Codec
  import opened TcpConnections

  /**
   * `sent`: the messages `sendInLoop` accepted. `wire`: written and not yet read. `read`: the
   * bytes read so far. `open`: the receiving end has not been closed for a reason of its own.
   */
  datatype Channel<M> = Channel(sent: seq<M>, tx: Sender, wire: Bytes, read: Bytes, rx: Receiver<M>, open: bool)

  datatype Event<M> =
    | SendMessage(m: M, n: int)    // `write` returns n, if it is called
    | WriteEvent(n: int)           // EPOLLOUT; `write` returns n
    | ReadEvent(k: nat)            // EPOLLIN; `readv` returns k bytes
    | SenderCloses
    | ReceiverCloses

  function Initial<M>(): Channel<M> {
    Channel([], Sender(true, [], false, [], []), [], [], Receiver([], [], false), true)
  }

  /** An event that cannot happen in a state leaves it unchanged. */
  function Step<M>(printer: Printer<M>, parse: Parser<M>, c: Channel<M>, e: Event<M>): Channel<M> {
    match e
    case SendMessage(m, n) =>
      var frame := Encode(printer, m);
      if !c.tx.connected || frame.None? || n > |frame.value| then c else
        var tx := AfterSend(c.tx, frame.value, n);
        c.(sent := c.sent + [m], tx := tx, wire := c.wire + tx.written[|c.tx.written|..])
    case WriteEvent(n) =>
      if n > |c.tx.output| then c else
        var tx := AfterWriteEvent(c.tx, n);
        c.(tx := tx, wire := c.wire + tx.written[|c.tx.written|..])
    case ReadEvent(k) =>
      if !c.open || c.rx.closed || k == 0 || k > |c.wire| then c else
        c.(rx := Feed(parse, c.rx, c.wire[..k]), wire := c.wire[k..], read := c.read + c.wire[..k])
    case SenderCloses => c.(tx := AfterClose(c.tx))
    case ReceiverCloses => c.(open := false)
  }

  function Run<M>(printer: Printer<M>, parse: Parser<M>, events: seq<Event<M>>): Channel<M> {
    if events == [] then Initial()
    else Step(printer, parse, Run(printer, parse, events[..|events| - 1]), events[|events| - 1])
  }

  /** The bytes read, under way and buffered are the frames of what was sent, in order. */
  ghost predicate Invariant<M>(printer: Printer<M>, parse: Parser<M>, c: Channel<M>) {
    && c.tx.Sound()
    && AllEncode(printer, c.sent)
    && c.tx.accepted == Frames(printer, c.sent)
    && c.tx.written == c.read + c.wire
    && HasRead(parse, c.rx, c.read)
  }

  /** The sender's half: the wire carries on where it was. */
  lemma WireGrows(written: Bytes, written': Bytes, read: Bytes, wire: Bytes)
    requires written == read + wire && written <= written'
    ensures written' == read + (wire + written'[|written|..])
  {
  }

  lemma SendKeepsInvariant<M>(printer: Printer<M>, parse: Parser<M>, c: Channel<M>, m: M, n: int)
    requires Invariant(printer, parse, c)
    ensures Invariant(printer, parse, Step(printer, parse, c, SendMessage(m, n)))
  {
    hide HasRead, Frames, AllEncode, Encode, AfterSend, Sender.Sound;
    var frame := Encode(printer, m);
    if c.tx.connected && frame.Some? && n <= |frame.value| {
      SendKeepsSound(c.tx, frame.value, n);
      FramesAppend(printer, c.sent, m);
      SendWrites(c.tx, frame.value, n);
      WireGrows(c.tx.written, AfterSend(c.tx, frame.value, n).written, c.read, c.wire);
    }
  }

  lemma SendWrites(s: Sender, data: Bytes, n: int)
    requires s.connected && n <= |data|
    ensures s.written <= AfterSend(s, data, n).written && AfterSend(s, data, n).accepted == s.accepted + data
  {
  }

  lemma WriteKeepsInvariant<M>(printer: Printer<M>, parse: Parser<M>, c: Channel<M>, n: int)
    requires Invariant(printer, parse, c)
    ensures Invariant(printer, parse, Step(printer, parse, c, WriteEvent(n)))
  {
    hide HasRead, Frames, AllEncode, Encode, AfterWriteEvent, Sender.Sound;
    if n <= |c.tx.output| {
      WriteEventKeepsSound(c.tx, n);
      EventWrites(c.tx, n);
      WireGrows(c.tx.written, AfterWriteEvent(c.tx, n).written, c.read, c.wire);
    }
  }

  lemma EventWrites(s: Sender, n: int)
    requires n <= |s.output|
    ensures s.written <= AfterWriteEvent(s, n).written && AfterWriteEvent(s, n).accepted == s.accepted
  {
  }

  lemma ReadKeepsInvariant<M>(printer: Printer<M>, parse: Parser<M>, c: Channel<M>, k: nat)
    requires Invariant(printer, parse, c)
    ensures Invariant(printer, parse, Step(printer, parse, c, ReadEvent(k)))
  {
    hide HasRead, Frames, AllEncode, Encode, Feed, Sender.Sound;
    if k <= |c.wire| {
      FeedReads(parse, c.rx, c.read, c.wire[..k]);
      assert c.read + c.wire == c.read + c.wire[..k] + c.wire[k..];
    }
  }

  lemma StepKeepsInvariant<M>(printer: Printer<M>, parse: Parser<M>, c: Channel<M>, e: Event<M>)
    requires Invariant(printer, parse, c)
    ensures Invariant(printer, parse, Step(printer, parse, c, e))
  {
    hide HasRead, Frames, AllEncode, Encode;
    match e {
      case SendMessage(m, n) => SendKeepsInvariant(printer, parse, c, m, n);
      case WriteEvent(n) => WriteKeepsInvariant(printer, parse, c, n);
      case ReadEvent(k) => ReadKeepsInvariant(printer, parse, c, k);
      case SenderCloses =>
      case ReceiverCloses =>
    }
  }

  lemma {:induction false} RunInvariant<M>(printer: Printer<M>, parse: Parser<M>, events: seq<Event<M>>)
    ensures Invariant(printer, parse, Run(printer, parse, events))
  {
    if events != [] {
      RunInvariant(printer, parse, events[..|events| - 1]);
      StepKeepsInvariant(printer, parse, Run(printer, parse, events[..|events| - 1]), events[|events| - 1]);
    }
  }

  /**
   * Safety of the channel, for any message whatever: what has been dispatched is a prefix of
   * what was accepted for sending, and the receiver closes only on an undeliverable message.
   */
  lemma DispatchedIsPrefix<M(!new)>(printer: Printer<M>, parse: Parser<M>, c: Channel<M>)
    requires Faithful(printer, parse) && Invariant(printer, parse, c)
    ensures c.rx.dispatched <= c.sent
    ensures c.rx.closed ==>
      |c.rx.dispatched| < |c.sent| && !Deliverable(printer, parse, c.sent[|c.rx.dispatched|])
  {
    var stream := Frames(printer, c.sent);
    assert c.read <= stream by {
      assert c.read + c.wire + c.tx.output == stream;
    }
    PrefixDecodes(printer, parse, c.sent, c.read);
  }

  /**
   * Completeness: once everything written is read and nothing is buffered, everything sent has
   * been dispatched, or else exactly the messages before the first undeliverable one.
   */
  lemma DrainedIsComplete<M(!new)>(printer: Printer<M>, parse: Parser<M>, events: seq<Event<M>>)
    requires Faithful(printer, parse)
    requires var c := Run(printer, parse, events); c.wire == [] && c.tx.output == []
    ensures var c := Run(printer, parse, events);
      && c.rx.dispatched <= c.sent
      && (forall i | 0 <= i < |c.rx.dispatched| :: Deliverable(printer, parse, c.sent[i]))
      && (if c.rx.closed then
            |c.rx.dispatched| < |c.sent| && !Deliverable(printer, parse, c.sent[|c.rx.dispatched|])
          else c.rx.dispatched == c.sent)
  {
    RunInvariant(printer, parse, events);
    var c := Run(printer, parse, events);
    assert c.read + [] + [] == c.read;
    assert c.read == Frames(printer, c.sent);
    WholeDecodes(printer, parse, c.sent);
  }

  /** The channel never gets stuck on the sending side: buffered bytes wait for a write event. */
  lemma BufferedBytesAreScheduled<M>(printer: Printer<M>, parse: Parser<M>, events: seq<Event<M>>)
    ensures var tx := Run(printer, parse, events).tx; tx.connected && tx.output != [] ==> tx.wantWrite
  {
    RunInvariant(printer, parse, events);
  }

  // ---------------------------------------------------------------- nothing is refused, and nothing stays behind

  /** The messages handed to the channel before its sender closed, as far as they encode. */
  function Offered<M>(printer: Printer<M>, events: seq<Event<M>>): seq<M> {
    if events == [] then [] else
      var before := events[..|events| - 1];
      Offered(printer, before) +
        match events[|events| - 1]
        case SendMessage(m, n) => if Carries(printer, m, n) && Up(before) then [m] else []
        case _ => []
  }

  predicate Up<M>(events: seq<Event<M>>) { forall i | 0 <= i < |events| :: !events[i].SenderCloses? }

  /** The message encodes, and `write` takes no more than it is offered. */
  predicate Carries<M>(printer: Printer<M>, m: M, n: int) {
    Encode(printer, m).Some? && n <= |Encode(printer, m).value|
  }

  lemma StepSends<M>(printer: Printer<M>, parse: Parser<M>, c: Channel<M>, e: Event<M>)
    ensures var c' := Step(printer, parse, c, e);
      && c'.tx.connected == (c.tx.connected && !e.SenderCloses?)
      && c'.sent == c.sent + (if e.SendMessage? && c.tx.connected && Carries(printer, e.m, e.n) then [e.m] else [])
  {
    hide Encode;
    assert c.sent + [] == c.sent;
  }

  /** The channel takes every message that encodes, in order, until its sender closes. */
  lemma {:induction false} SentIsOffered<M>(printer: Printer<M>, parse: Parser<M>, events: seq<Event<M>>)
    ensures var c := Run(printer, parse, events);
      c.sent == Offered(printer, events) && (c.tx.connected <==> Up(events))
  {
    if events != [] {
      var before, e := events[..|events| - 1], events[|events| - 1];
      hide Step, Carries;
      SentIsOffered(printer, parse, before);
      StepSends(printer, parse, Run(printer, parse, before), e);
      assert events == before + [e];
    }
  }

  lemma RunNext<M>(printer: Printer<M>, parse: Parser<M>, events: seq<Event<M>>, e: Event<M>)
    ensures Run(printer, parse, events + [e]) == Step(printer, parse, Run(printer, parse, events), e)
  {
    assert (events + [e])[..|events|] == events;
  }

  /** One full write and one full read empty the channel. */
  lemma Drains<M>(printer: Printer<M>, parse: Parser<M>, c: Channel<M>)
    requires c.tx.connected && c.open && !c.rx.closed
    ensures var flushed := Step(printer, parse, c, WriteEvent(|c.tx.output|));
      && flushed.tx.output == [] && flushed.wire == c.wire + c.tx.output && flushed.sent == c.sent
      && var read := Step(printer, parse, flushed, ReadEvent(|flushed.wire|));
        read.wire == [] && read.tx.output == [] && read.sent == c.sent
  {
    hide Feed;
    var flushed := Step(printer, parse, c, WriteEvent(|c.tx.output|));
    assert flushed.tx.written == c.tx.written + c.tx.output;
    assert flushed.wire == c.wire + c.tx.output;
  }

  /**
   * Nothing stays behind for good: from every state of a channel whose two ends are up, one write event and one read
   * event get everything sent dispatched, if it is deliverable.
   */
  lemma CanDrain<M(!new)>(printer: Printer<M>, parse: Parser<M>, events: seq<Event<M>>) returns (more: seq<Event<M>>)
    requires Faithful(printer, parse)
    requires var c := Run(printer, parse, events); c.tx.connected && c.open && !c.rx.closed
    ensures |more| == 2 && Run(printer, parse, events + more).sent == Run(printer, parse, events).sent
    ensures var c := Run(printer, parse, events + more);
      (forall m | m in c.sent :: Deliverable(printer, parse, m)) ==> c.rx.dispatched == c.sent
  {
    hide Run, Step, Deliverable, Faithful;
    var c := Run(printer, parse, events);
    Drains(printer, parse, c);
    var write := WriteEvent(|c.tx.output|);
    RunNext(printer, parse, events, write);
    var read := ReadEvent(|Run(printer, parse, events + [write]).wire|);
    RunNext(printer, parse, events + [write], read);
    more := [write, read];
    assert events + [write] + [read] == events + more;
    DrainedIsComplete(printer, parse, events + more);
  }
}
