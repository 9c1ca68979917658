/**
 * Length-prefixed framing (code/protocol/codec.h) and what it promises: a byte
 * stream decodes to the same messages however it is cut into reads, and a stream
 * of frames decodes to the messages that were encoded.
 *
 * The codec is a template over the message type; here it takes the type's printer
 * and parser as arguments.
 */
module Codec {
  import opened Basics

  const MAX_FRAME_SIZE: nat := 64 * 1024 * 1024
  const UINT32_MAX: nat := 0xffff_ffff

  type Printer<!M> = M -> Option<Bytes>
  type Parser<M> = Bytes -> Option<M>

  datatype Decoded<M> = Ok(msg: M, consumed: nat) | Incomplete | Corrupted

  /** `encode` refuses only what does not serialize or overflows the length; it does not look at MAX_FRAME_SIZE. */
  function Encode<M>(printer: Printer<M>, m: M): Option<Bytes> {
    match printer(m)
    case None => None
    case Some(data) => if |data| > UINT32_MAX then None else Some(ToBigEndian(|data|) + data)
  }

  function Decode<M>(parse: Parser<M>, buffer: Bytes): (d: Decoded<M>)
    ensures d.Ok? ==> 4 <= d.consumed <= |buffer|
  {
    if |buffer| < 4 then Incomplete else
      var len := BigEndian(buffer[..4]);
      if len > MAX_FRAME_SIZE then Corrupted
      else if len > |buffer| - 4 then Incomplete
      else match parse(buffer[4..4 + len])
        case None => Corrupted
        case Some(m) => Ok(m, 4 + len)
  }

  // ---------------------------------------------------------------- whole streams

  /** What a whole byte stream holds: its messages, the bytes after them, and whether a bad frame comes next. */
  datatype Stream<M> = Stream(msgs: seq<M>, rest: Bytes, corrupt: bool)

  function DecodeAll<M>(parse: Parser<M>, b: Bytes): Stream<M>
    decreases |b|
  {
    match Decode(parse, b)
    case Incomplete => Stream([], b, false)
    case Corrupted => Stream([], b, true)
    case Ok(m, consumed) =>
      var later := DecodeAll(parse, b[consumed..]);
      Stream([m] + later.msgs, later.rest, later.corrupt)
  }

  /** A decision taken on a prefix is not changed by further bytes. */
  lemma DecodeStable<M>(parse: Parser<M>, b: Bytes, more: Bytes)
    requires !Decode(parse, b).Incomplete?
    ensures Decode(parse, b + more) == Decode(parse, b)
  {
    assert (b + more)[..4] == b[..4];
    var len := BigEndian(b[..4]);
    if len <= |b| - 4 {
      assert (b + more)[4..4 + len] == b[4..4 + len];
    }
  }

  /** Decoding `b + more` is decoding `b`, then what is left of it followed by `more`. */
  lemma {:induction false} DecodeAllAppend<M>(parse: Parser<M>, b: Bytes, more: Bytes)
    ensures var s := DecodeAll(parse, b);
      DecodeAll(parse, b + more) ==
        if s.corrupt then s.(rest := s.rest + more)
        else var t := DecodeAll(parse, s.rest + more); Stream(s.msgs + t.msgs, t.rest, t.corrupt)
    decreases |b|
  {
    hide Decode;
    var d := Decode(parse, b);
    if d.Incomplete? {
      var t := DecodeAll(parse, b + more);
      assert [] + t.msgs == t.msgs;
    } else {
      DecodeStable(parse, b, more);
      if d.Ok? {
        assert (b + more)[d.consumed..] == b[d.consumed..] + more;
        DecodeAllAppend(parse, b[d.consumed..], more);
        var s := DecodeAll(parse, b[d.consumed..]);
        var t := DecodeAll(parse, s.rest + more);
        assert [d.msg] + (s.msgs + t.msgs) == [d.msg] + s.msgs + t.msgs;
      }
    }
  }

  // ---------------------------------------------------------------- read by read

  /** A connection's receiving side: unconsumed input, messages handed on, and whether it closed. */
  datatype Receiver<M> = Receiver(input: Bytes, dispatched: seq<M>, closed: bool)

  /** One readable event with `chunk` read: append, then decode until a frame is incomplete or corrupt. */
  function Feed<M>(parse: Parser<M>, r: Receiver<M>, chunk: Bytes): Receiver<M> {
    if r.closed then r else
      var s := DecodeAll(parse, r.input + chunk);
      Receiver(s.rest, r.dispatched + s.msgs, s.corrupt)
  }

  function FeedAll<M>(parse: Parser<M>, chunks: seq<Bytes>): Receiver<M> {
    if chunks == [] then Receiver([], [], false)
    else Feed(parse, FeedAll(parse, chunks[..|chunks| - 1]), chunks[|chunks| - 1])
  }

  function Flatten(chunks: seq<Bytes>): Bytes {
    if chunks == [] then [] else Flatten(chunks[..|chunks| - 1]) + chunks[|chunks| - 1]
  }

  /** A receiver that has read `read`, in whatever pieces. */
  ghost predicate HasRead<M>(parse: Parser<M>, r: Receiver<M>, read: Bytes) {
    var whole := DecodeAll(parse, read);
    r.dispatched == whole.msgs && r.closed == whole.corrupt && (!r.closed ==> r.input == whole.rest)
  }

  lemma FeedReads<M>(parse: Parser<M>, r: Receiver<M>, read: Bytes, chunk: Bytes)
    requires HasRead(parse, r, read)
    ensures HasRead(parse, Feed(parse, r, chunk), read + chunk)
  {
    DecodeAllAppend(parse, read, chunk);
  }

  /**
   * Chunking invariance: for every cut of a stream into reads the messages handed on are those
   * of the whole stream, the connection closes exactly when the whole stream holds a corrupt
   * frame, nothing is handed on after it, and otherwise exactly the undecoded suffix is kept.
   */
  lemma {:induction false} ChunkingInvariance<M>(parse: Parser<M>, chunks: seq<Bytes>)
    ensures HasRead(parse, FeedAll(parse, chunks), Flatten(chunks))
  {
    if chunks != [] {
      ChunkingInvariance(parse, chunks[..|chunks| - 1]);
      FeedReads(parse, FeedAll(parse, chunks[..|chunks| - 1]), Flatten(chunks[..|chunks| - 1]), chunks[|chunks| - 1]);
    }
  }

  // ---------------------------------------------------------------- frames

  /** Nothing comes back from the wire as a different message. */
  ghost predicate Faithful<M(!new)>(printer: Printer<M>, parse: Parser<M>) {
    forall m | printer(m).Some? :: parse(printer(m).value) == Some(m) || parse(printer(m).value) == None
  }

  /** The messages the other end will decode: small enough, and parsing back. */
  ghost predicate Deliverable<M>(printer: Printer<M>, parse: Parser<M>, m: M) {
    && printer(m).Some?
    && |printer(m).value| <= MAX_FRAME_SIZE
    && parse(printer(m).value) == Some(m)
  }

  /** Decoding an encoded message gives it back exactly when it is deliverable; otherwise the frame is corrupt. */
  lemma FrameRoundTrip<M(!new)>(printer: Printer<M>, parse: Parser<M>, m: M, rest: Bytes)
    requires Faithful(printer, parse) && Encode(printer, m).Some?
    ensures var frame := Encode(printer, m).value;
      Decode(parse, frame + rest) == if Deliverable(printer, parse, m) then Ok(m, |frame|) else Corrupted
  {
    var data := printer(m).value;
    var all := ToBigEndian(|data|) + data + rest;
    assert all[..4] == ToBigEndian(|data|) && all[4..4 + |data|] == data;
  }

  /** A cut frame is not taken for a whole one. */
  lemma CutFrame<M>(printer: Printer<M>, parse: Parser<M>, m: M, n: nat)
    requires Encode(printer, m).Some? && n < |Encode(printer, m).value|
    ensures var d := Decode(parse, Encode(printer, m).value[..n]);
      d == if 4 <= n && |printer(m).value| > MAX_FRAME_SIZE then Corrupted else Incomplete
  {
    var data := printer(m).value;
    var cut := (ToBigEndian(|data|) + data)[..n];
    if 4 <= n {
      assert cut[..4] == ToBigEndian(|data|);
    }
  }

  ghost predicate AllEncode<M>(printer: Printer<M>, msgs: seq<M>) {
    forall m | m in msgs :: Encode(printer, m).Some?
  }

  /** The bytes of a sequence of messages, one frame after another. */
  ghost function Frames<M>(printer: Printer<M>, msgs: seq<M>): Bytes
    requires AllEncode(printer, msgs)
  {
    if msgs == [] then [] else
      assert forall m | m in msgs[1..] :: m in msgs;
      assert msgs[0] in msgs;
      Encode(printer, msgs[0]).value + Frames(printer, msgs[1..])
  }

  lemma {:induction false} FramesAppend<M>(printer: Printer<M>, msgs: seq<M>, m: M)
    requires AllEncode(printer, msgs) && Encode(printer, m).Some?
    ensures AllEncode(printer, msgs + [m])
    ensures Frames(printer, msgs + [m]) == Frames(printer, msgs) + Encode(printer, m).value
  {
    hide Encode;
    var all := msgs + [m];
    assert AllEncode(printer, all);
    if msgs == [] {
      assert all[1..] == [] && all[0] == m;
    } else {
      assert all[1..] == msgs[1..] + [m] && all[0] == msgs[0];
      assert AllEncode(printer, msgs[1..]);
      FramesAppend(printer, msgs[1..], m);
      hide AllEncode;
    }
  }

  /**
   * Whatever prefix of a stream of frames has been read, the messages decoded from it are a prefix
   * of those encoded, and a corrupt frame is met only at a message that is not deliverable.
   */
  lemma {:induction false} PrefixDecodes<M(!new)>(printer: Printer<M>, parse: Parser<M>, msgs: seq<M>, read: Bytes)
    requires Faithful(printer, parse) && AllEncode(printer, msgs) && read <= Frames(printer, msgs)
    ensures var s := DecodeAll(parse, read);
      s.msgs <= msgs && (s.corrupt ==> |s.msgs| < |msgs| && !Deliverable(printer, parse, msgs[|s.msgs|]))
    decreases |msgs|
  {
    if msgs != [] {
      assert msgs[0] in msgs;
      var frame, later := Encode(printer, msgs[0]).value, Frames(printer, msgs[1..]);
      if |read| < |frame| {
        assert read == frame[..|read|];
        CutFrame(printer, parse, msgs[0], |read|);
      } else {
        var rest := read[|frame|..];
        assert read == frame + rest && rest <= later;
        FrameRoundTrip(printer, parse, msgs[0], rest);
        PrefixDecodes(printer, parse, msgs[1..], rest);
      }
    }
  }

  /**
   * Once everything is read, exactly the messages before the first undeliverable one were
   * decoded; if there is none, that is all of them, with nothing left over.
   */
  lemma {:induction false} WholeDecodes<M(!new)>(printer: Printer<M>, parse: Parser<M>, msgs: seq<M>)
    requires Faithful(printer, parse) && AllEncode(printer, msgs)
    ensures var s := DecodeAll(parse, Frames(printer, msgs));
      && s.msgs <= msgs
      && (forall i | 0 <= i < |s.msgs| :: Deliverable(printer, parse, msgs[i]))
      && (if s.corrupt then |s.msgs| < |msgs| && !Deliverable(printer, parse, msgs[|s.msgs|])
          else s.msgs == msgs && s.rest == [])
  {
    if msgs != [] {
      assert msgs[0] in msgs && forall m | m in msgs[1..] :: m in msgs;
      FrameRoundTrip(printer, parse, msgs[0], Frames(printer, msgs[1..]));
      WholeDecodes(printer, parse, msgs[1..]);
      hide Encode, Decode, Deliverable, Faithful;
      assert Frames(printer, msgs)[|Encode(printer, msgs[0]).value|..] == Frames(printer, msgs[1..]);
    }
  }
}
