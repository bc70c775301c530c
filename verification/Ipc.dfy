/**
 Frames between a hosted shell and the daemon (`publisher/src/ipc.rs`).
 */
module Ipc {
  import opened Bytes
  import opened Results
  import opened Wire

  datatype Frame = Control(json: Data) | Output(startOffset: nat, bytes: Data) | Input(bytes: Data)

  datatype Error = Eof | TooLarge(length: nat) | UnknownFrame(kind: byte) | WrongDirection(kind: byte) | Malformed

  const CONTROL: byte := 0x01
  const OUTPUT: byte := 0x02
  const INPUT: byte := 0x03
  const MAX_FRAME_BYTES: nat := 1024 * 1024

  function Kind(f: Frame): byte {
    match f case Control(_) => CONTROL case Output(_, _) => OUTPUT case Input(_) => INPUT
  }

  function Payload(f: Frame): Data {
    match f
    case Control(json) => json
    case Output(start, bytes) => BigEndian(start, 8) + bytes
    case Input(bytes) => bytes
  }

  /** `encode_control`, `encode_output`, `encode_input` */
  function Encode(f: Frame): Data { [Kind(f)] + Field(Payload(f)) }

  function EncodeAll(frames: seq<Frame>): Data {
    if frames == [] then [] else Encode(frames[0]) + EncodeAll(frames[1..])
  }

  /** What a payload of some kind means on one side of a connection. */
  function Interpreted(kind: byte, payload: Data, expectOutput: bool): Result<Frame, Error> {
    if kind == CONTROL then Ok(Control(payload))
    else if kind == OUTPUT && expectOutput then
      if |payload| < 8 then Err(Malformed) else Ok(Output(Number(payload[..8]), payload[8..]))
    else if kind == INPUT && !expectOutput then Ok(Input(payload))
    else if kind == OUTPUT || kind == INPUT then Err(WrongDirection(kind))
    else Err(UnknownFrame(kind))
  }

  /** One frame, and what is left: the length is judged before the payload, the kind after it. */
  function ReadOne(data: Data, expectOutput: bool): (r: (Result<Frame, Error>, Data))
    ensures r.0.Ok? ==> |r.1| < |data|
  {
    if |data| < 5 then (Err(Eof), [])
    else
      var length := Number(data[1..5]);
      if length > MAX_FRAME_BYTES then (Err(TooLarge(length)), data[5..])
      else if 5 + length > |data| then (Err(Eof), [])
      else (Interpreted(data[0], data[5..5 + length], expectOutput), data[5 + length..])
  }

  /** Frames until the bytes run out, or the first that is refused. */
  function ReadAll(data: Data, expectOutput: bool): Result<seq<Frame>, Error>
    decreases |data|
  {
    if data == [] then Ok([])
    else
      var (first, rest) := ReadOne(data, expectOutput);
      match first
      case Err(e) => Err(e)
      case Ok(f) =>
        match ReadAll(rest, expectOutput)
        case Err(e) => Err(e)
        case Ok(more) => Ok([f] + more)
  }

  /** Sent the right way, and no longer than a frame may be, its offset counted in. */
  predicate Fits(f: Frame, expectOutput: bool) {
    && |Payload(f)| <= MAX_FRAME_BYTES
    && (f.Output? ==> expectOutput) && (f.Input? ==> !expectOutput)
  }

  /** A start offset is a u64. */
  predicate Typed(f: Frame) { f.Output? ==> f.startOffset < U64 }

  lemma PayloadIsInterpreted(f: Frame, expectOutput: bool)
    requires Typed(f) && Fits(f, expectOutput)
    ensures Interpreted(Kind(f), Payload(f), expectOutput) == Ok(f)
  {
    if f.Output? {
      Widths();
      NumberOfBigEndian(f.startOffset, 8);
      assert Payload(f)[..8] == BigEndian(f.startOffset, 8) && Payload(f)[8..] == f.bytes;
    }
  }

  lemma InterpretedIsPayload(kind: byte, payload: Data, expectOutput: bool)
    requires Interpreted(kind, payload, expectOutput).Ok? && |payload| <= MAX_FRAME_BYTES
    ensures var f := Interpreted(kind, payload, expectOutput).value;
            Kind(f) == kind && Payload(f) == payload && Typed(f) && Fits(f, expectOutput)
  {
    if kind == OUTPUT {
      Widths();
      BigEndianOfNumber(payload[..8]);
      assert payload == payload[..8] + payload[8..];
    }
  }

  /** Which error a frame is refused with: its length is judged first, then whether it is all there, then its kind. */
  lemma RefusedBecause(data: Data, expectOutput: bool)
    requires 5 <= |data|
    ensures var n, kind, r := Number(data[1..5]), data[0] as int, ReadOne(data, expectOutput).0;
            && (r == Err(TooLarge(n)) <==> MAX_FRAME_BYTES < n)
            && (r == Err(Eof) <==> n <= MAX_FRAME_BYTES && |data| < 5 + n)
            && (n <= MAX_FRAME_BYTES && 5 + n <= |data| ==>
                  && (r == Err(UnknownFrame(data[0])) <==> kind != 1 && kind != 2 && kind != 3)
                  && (r == Err(WrongDirection(data[0])) <==>
                        (kind == 2 && !expectOutput) || (kind == 3 && expectOutput))
                  && (r == Err(Malformed) <==> kind == 2 && expectOutput && n < 8))
  {
  }

  lemma TooShortIsEof(data: Data, expectOutput: bool)
    requires |data| < 5
    ensures ReadOne(data, expectOutput).0 == Err(Eof)
  {
  }

  lemma EncodedIsRead(f: Frame, tail: Data, expectOutput: bool)
    requires Typed(f) && Fits(f, expectOutput)
    ensures ReadOne(Encode(f) + tail, expectOutput) == (Ok(f), tail)
  {
    var data, payload := Encode(f) + tail, Payload(f);
    assert data[1..] == Field(payload) + tail;
    FirstFieldOf(payload, tail);
    HeaderIsField(data);
    PayloadIsInterpreted(f, expectOutput);
  }

  /** A frame is a kind and one length-prefixed field. */
  lemma HeaderIsField(data: Data)
    requires |data| >= 5
    ensures Number(data[1..5]) == Number(data[1..][..4])
    ensures 5 + Number(data[1..5]) <= |data| ==>
              var n := Number(data[1..5]);
              FirstField(data[1..]) == Some(data[5..5 + n]) && data[5 + n..] == data[1..][4 + n..]
  {
    assert data[1..5] == data[1..][..4];
    if 5 + Number(data[1..5]) <= |data| {
      Shifted(data, Number(data[1..5]));
    }
  }

  lemma Shifted(data: Data, n: nat)
    requires 5 + n <= |data|
    ensures data[1..][4..4 + n] == data[5..5 + n] && data[1..][4 + n..] == data[5 + n..]
  {
    var tail := data[1..];
    assert tail[4..4 + n] == data[5..5 + n];
  }

  /** Whatever is read is the one encoding of what it was read as, and it was fit to be read. */
  lemma ReadIsEncoded(data: Data, expectOutput: bool)
    requires ReadOne(data, expectOutput).0.Ok?
    ensures var (r, rest) := ReadOne(data, expectOutput);
            data == Encode(r.value) + rest && Typed(r.value) && Fits(r.value, expectOutput)
  {
    var n := Number(data[1..5]);
    HeaderIsField(data);
    FirstFieldIsField(data[1..]);
    InterpretedIsPayload(data[0], data[5..5 + n], expectOutput);
    assert data == [data[0]] + data[1..];
  }

  lemma {:induction false} AllEncodedAreRead(frames: seq<Frame>, expectOutput: bool)
    requires forall f | f in frames :: Typed(f) && Fits(f, expectOutput)
    ensures ReadAll(EncodeAll(frames), expectOutput) == Ok(frames)
    decreases |frames|
  {
    if frames != [] {
      EncodedIsRead(frames[0], EncodeAll(frames[1..]), expectOutput);
      AllEncodedAreRead(frames[1..], expectOutput);
      assert [frames[0]] + frames[1..] == frames;
    }
  }

  /** Bytes that are read to the end are the concatenated encodings of the frames read. */
  lemma {:induction false} AllReadAreEncoded(data: Data, expectOutput: bool)
    requires ReadAll(data, expectOutput).Ok?
    ensures var frames := ReadAll(data, expectOutput).value;
            EncodeAll(frames) == data && forall f | f in frames :: Typed(f) && Fits(f, expectOutput)
    decreases |data|
  {
    if data != [] {
      var (first, rest) := ReadOne(data, expectOutput);
      ReadIsEncoded(data, expectOutput);
      AllReadAreEncoded(rest, expectOutput);
      var more := ReadAll(rest, expectOutput).value;
      assert ([first.value] + more)[1..] == more;
    }
  }

  /** A list of frames is read back whole exactly when each is sent the right way and is not too long. */
  lemma ReadsBackIff(frames: seq<Frame>, expectOutput: bool)
    requires forall f | f in frames :: Typed(f)
    ensures ReadAll(EncodeAll(frames), expectOutput) == Ok(frames) <==> forall f | f in frames :: Fits(f, expectOutput)
  {
    if forall f | f in frames :: Fits(f, expectOutput) {
      AllEncodedAreRead(frames, expectOutput);
    }
    if ReadAll(EncodeAll(frames), expectOutput) == Ok(frames) {
      AllReadAreEncoded(EncodeAll(frames), expectOutput);
    }
  }

  /** No two lists of frames look the same on the wire. */
  lemma FramingIsUnique(a: seq<Frame>, b: seq<Frame>, expectOutput: bool)
    requires forall f | f in a + b :: Typed(f) && Fits(f, expectOutput)
    requires EncodeAll(a) == EncodeAll(b)
    ensures a == b
  {
    forall f | f in a || f in b
      ensures Typed(f) && Fits(f, expectOutput)
    {
      assert f in a + b;
    }
    AllEncodedAreRead(a, expectOutput);
    AllEncodedAreRead(b, expectOutput);
  }

  /** One end of a connection, and the bytes still to come before the peer hangs up. */
  class Reader {
    var data: Data

    constructor (incoming: Data)
      ensures data == incoming
    {
      data := incoming;
    }

    /** `read_exact`: all of them, or the end of the stream. */
    method ReadExact(n: nat) returns (r: Option<Data>)
      modifies this
      ensures n <= |old(data)| ==> r == Some(old(data)[..n]) && data == old(data)[n..]
      ensures |old(data)| < n ==> r == None && data == []
    {
      if n <= |data| {
        r := Some(data[..n]);
        data := data[n..];
      } else {
        r := None;
        data := [];
      }
    }

    method ReadFrame(expectOutput: bool) returns (r: Result<Frame, Error>)
      modifies this
      ensures (r, data) == ReadOne(old(data), expectOutput)
    {
      ghost var all := data;
      var kind := ReadExact(1);
      if kind.None? {
        return Err(Eof);
      }
      var prefix := ReadExact(4);
      if prefix.None? {
        return Err(Eof);
      }
      assert prefix.value == all[1..5] && data == all[5..];
      var length := Number(prefix.value);
      if length > MAX_FRAME_BYTES {
        return Err(TooLarge(length));
      }
      var payload := ReadExact(length);
      if payload.None? {
        return Err(Eof);
      }
      assert payload.value == all[5..5 + length] && data == all[5 + length..];
      r := Interpreted(kind.value[0], payload.value, expectOutput);
    }

    /** Reading on until the peer hangs up. */
    method ReadFrames(expectOutput: bool) returns (r: Result<seq<Frame>, Error>)
      modifies this
      ensures r == ReadAll(old(data), expectOutput)
      ensures r.Ok? ==> data == []
    {
      var frames := [];
      ghost var all := data;
      assert ReadAll(all, expectOutput).Ok? ==>
        [] + ReadAll(all, expectOutput).value == ReadAll(all, expectOutput).value;
      while data != []
        invariant ReadAll(all, expectOutput) == Following(frames, ReadAll(data, expectOutput))
        decreases |data|
      {
        ghost var before := data;
        var one := ReadFrame(expectOutput);
        if one.Err? {
          return Err(one.error);
        }
        FollowingMoves(frames, one.value, ReadAll(data, expectOutput));
        frames := frames + [one.value];
      }
      assert frames + [] == frames;
      r := Ok(frames);
    }
  }

  function Following(first: seq<Frame>, rest: Result<seq<Frame>, Error>): Result<seq<Frame>, Error> {
    match rest case Err(e) => Err(e) case Ok(more) => Ok(first + more)
  }

  lemma FollowingMoves(first: seq<Frame>, f: Frame, rest: Result<seq<Frame>, Error>)
    ensures Following(first + [f], rest) == Following(first, Following([f], rest))
  {
    if rest.Ok? {
      assert first + [f] + rest.value == first + ([f] + rest.value);
    }
  }
}
