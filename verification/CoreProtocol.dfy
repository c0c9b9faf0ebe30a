/** Frames on the authoritative core's wire: a length in four bytes, then canonical JSON. */
module CoreProtocol {
  import opened Utf8
  import opened CanonicalJson
  import opened BigEndian

  const MIN_MAX_FRAME_BYTES := 4_096
  const HARD_MAX_FRAME_BYTES := 4_194_304
  const HEADER_BYTES := 4

  predicate ValidBound(bound: int) {
    MIN_MAX_FRAME_BYTES <= bound <= HARD_MAX_FRAME_BYTES
  }

  /** `encode_frame`. */
  function EncodeFrame(v: Value, bound: int): Option<seq<byte>> {
    if !ValidBound(bound) || CanonicalBytes(v).None? then None
    else
      var payload := CanonicalBytes(v).value;
      if payload == [] || |payload| > bound then None else Some(Pack(|payload|, HEADER_BYTES) + payload)
  }

  datatype Taken = Taken(v: Value, rest: seq<byte>) | Unusable

  /** The frame at the start of a byte stream. */
  function TakeFrame(stream: seq<byte>, bound: int): Taken {
    if !ValidBound(bound) || |stream| < HEADER_BYTES then Unusable
    else
      var size := Unpack(stream[..HEADER_BYTES]);
      if size <= 0 || size > bound || |stream| < HEADER_BYTES + size then Unusable
      else
        match DecodeCanonical(stream[HEADER_BYTES..HEADER_BYTES + size])
        case None => Unusable
        case Some(v) => Taken(v, stream[HEADER_BYTES + size..])
  }

  /** An encoded frame is taken off the stream whole, and nothing behind it is touched. */
  lemma FrameRoundTrip(v: Value, bound: int, rest: seq<byte>)
    requires EncodeFrame(v, bound).Some?
    ensures TakeFrame(EncodeFrame(v, bound).value + rest, bound) == Taken(Normal(v), rest)
  {
    var payload := CanonicalBytes(v).value;
    var stream := EncodeFrame(v, bound).value + rest;
    Capacities();
    UnpackPacked(|payload|, HEADER_BYTES);
    assert stream[..HEADER_BYTES] == Pack(|payload|, HEADER_BYTES);
    assert stream[HEADER_BYTES..HEADER_BYTES + |payload|] == payload;
    assert stream[HEADER_BYTES + |payload|..] == rest;
    DecodesWhatWasPrinted(v);
    hide Normal, CanonicalBytes, DecodeCanonical;
  }

  /** Only encoded frames are ever taken: the bytes consumed are the one frame of the value. */
  lemma TakenWasEncoded(stream: seq<byte>, bound: int)
    requires TakeFrame(stream, bound).Taken?
    ensures var t := TakeFrame(stream, bound);
      EncodeFrame(t.v, bound).Some? && stream == EncodeFrame(t.v, bound).value + t.rest
  {
    var header := stream[..HEADER_BYTES];
    var size := Unpack(header);
    var payload, rest := stream[HEADER_BYTES..HEADER_BYTES + size], stream[HEADER_BYTES + size..];
    PackUnpacked(header);
    AcceptsOnlyCanonical(payload);
    ThreeParts(stream, HEADER_BYTES, HEADER_BYTES + size);
    hide CanonicalBytes, DecodeCanonical, Pack, Unpack;
  }

  /** A value can be sent exactly when the bound is an admissible one, the value is, and its canonical
      bytes fit the bound; they are never empty. */
  lemma EncodesIff(v: Value, bound: int)
    ensures EncodeFrame(v, bound).Some? <==>
              && 4_096 <= bound <= 4_194_304 && Admissible(v, 0)
              && |Encode(Printed(Normal(v)))| <= bound
    ensures EncodeFrame(v, bound).Some? ==> |EncodeFrame(v, bound).value| == 4 + |Encode(Printed(Normal(v)))| > 4
  {
    PrintedStart(Normal(v));
    hide Admissible, Printed, Normal, Pack;
  }

  lemma ThreeParts(s: seq<byte>, i: nat, j: nat)
    requires i <= j <= |s|
    ensures s == s[..i] + s[i..j] + s[j..]
  {
  }

  // ----- a connection that delivers its bytes piecemeal -----

  /** What one call for bytes meets: some of them, as many as happen to be there, or the deadline. */
  datatype Arrival = Gets(count: nat) | TimesOut

  predicate Punctual(arrivals: seq<Arrival>) {
    forall i | 0 <= i < |arrivals| :: arrivals[i].Gets?
  }

  datatype Received = Chunk(bytes: seq<byte>) | TimedOut

  datatype Read = Read(bytes: seq<byte>) | EndOfStream | ReadTimedOut

  datatype Frame = Frame(v: Value) | ProtocolError | TransportError

  class Connection {
    var stream: seq<byte>
    var arrivals: seq<Arrival>

    constructor (stream: seq<byte>, arrivals: seq<Arrival>)
      ensures this.stream == stream && this.arrivals == arrivals
    {
      this.stream, this.arrivals := stream, arrivals;
    }

    /** Up to `count` of the next bytes: at least one unless the stream has ended. */
    method Recv(count: nat) returns (r: Received)
      requires count > 0
      modifies this
      ensures r.Chunk? ==>
                && r.bytes + stream == old(stream) && |r.bytes| <= count
                && (r.bytes == [] <==> old(stream) == [])
      ensures r.TimedOut? ==> stream == old(stream) && !Punctual(old(arrivals))
      ensures Punctual(old(arrivals)) ==> Punctual(arrivals)
    {
      var next := if arrivals == [] then Gets(count) else arrivals[0];
      if arrivals != [] {
        arrivals := arrivals[1..];
      }
      if next.TimesOut? {
        return TimedOut;
      }
      var size := if next.count == 0 then 1 else if next.count > count then count else next.count;
      size := if size > |stream| then |stream| else size;
      r := Chunk(stream[..size]);
      stream := stream[size..];
    }

    /** `_receive_exact`. */
    method ReceiveExact(size: nat) returns (r: Read)
      modifies this
      ensures r.Read? ==> |old(stream)| >= size && r.bytes == old(stream)[..size] && stream == old(stream)[size..]
      ensures r.EndOfStream? ==> |old(stream)| < size
      ensures r.ReadTimedOut? ==> !Punctual(old(arrivals))
      ensures Punctual(old(arrivals)) ==> Punctual(arrivals)
    {
      var chunks: seq<byte> := [];
      var remaining := size;
      while remaining > 0
        invariant chunks + stream == old(stream) && |chunks| + remaining == size && remaining >= 0
        invariant Punctual(old(arrivals)) ==> Punctual(arrivals)
        decreases remaining
      {
        var got := Recv(remaining);
        if got.TimedOut? {
          return ReadTimedOut;
        }
        if got.bytes == [] {
          return EndOfStream;
        }
        chunks := chunks + got.bytes;
        remaining := remaining - |got.bytes|;
      }
      assert (chunks + stream)[..size] == chunks && (chunks + stream)[size..] == stream;
      r := Read(chunks);
    }

    /** `receive_frame`. */
    method ReceiveFrame(bound: int) returns (r: Frame)
      modifies this
      ensures r.Frame? ==> TakeFrame(old(stream), bound) == Taken(r.v, stream)
      ensures r.ProtocolError? ==> TakeFrame(old(stream), bound).Unusable?
      ensures r.TransportError? ==> !Punctual(old(arrivals))
      ensures Punctual(old(arrivals)) ==> Punctual(arrivals)
    {
      hide Punctual, DecodeCanonical, Unpack;
      if !ValidBound(bound) {
        return ProtocolError;
      }
      var header := ReceiveExact(HEADER_BYTES);
      if header.EndOfStream? {
        return ProtocolError;
      }
      if header.ReadTimedOut? {
        return TransportError;
      }
      var size := Unpack(header.bytes);
      if size <= 0 || size > bound {
        return ProtocolError;
      }
      var payload := ReceiveExact(size);
      if payload.EndOfStream? {
        return ProtocolError;
      }
      if payload.ReadTimedOut? {
        return TransportError;
      }
      assert payload.bytes == old(stream)[HEADER_BYTES..HEADER_BYTES + size];
      var decoded := DecodeCanonical(payload.bytes);
      r := if decoded.None? then ProtocolError else Frame(decoded.value);
    }

    /** Receives one frame after the other until a count is reached or one fails. */
    method ReceiveFrames(count: nat, bound: int) returns (values: seq<Value>)
      modifies this
      ensures |values| <= count
      ensures forall sent: seq<Value>, rest | Sendable(sent, bound) && old(stream) == Sent(sent, bound) + rest
                && |sent| == count && Punctual(old(arrivals)) ::
                values == Normals(sent) && stream == rest
    {
      values := [];
      hide Punctual, TakeFrame, Normal, EncodeFrame;
      for i := 0 to count
        invariant |values| == i && (Punctual(old(arrivals)) ==> Punctual(arrivals))
        invariant forall sent: seq<Value>, rest | Sendable(sent, bound) && old(stream) == Sent(sent, bound) + rest
                    && |sent| == count && Punctual(old(arrivals)) ::
                    values == Normals(sent[..i]) && stream == Sent(sent[i..], bound) + rest
      {
        ghost var before := stream;
        var next := ReceiveFrame(bound);
        forall sent: seq<Value>, rest | Sendable(sent, bound) && old(stream) == Sent(sent, bound) + rest
          && |sent| == count && Punctual(old(arrivals))
          ensures next.Frame? && next.v == Normal(sent[i]) && stream == Sent(sent[i + 1..], bound) + rest
          ensures values + [Normal(sent[i])] == Normals(sent[..i + 1])
        {
          SentStep(sent, i, bound, rest);
        }
        if !next.Frame? {
          return;
        }
        values := values + [next.v];
      }
      forall sent: seq<Value>, rest | Sendable(sent, bound) && old(stream) == Sent(sent, bound) + rest
        && |sent| == count && Punctual(old(arrivals))
        ensures values == Normals(sent) && stream == rest
      {
        assert sent[..count] == sent && sent[count..] == [];
        assert Sent([], bound) + rest == rest;
      }
    }
  }

  predicate Sendable(values: seq<Value>, bound: int) {
    forall i | 0 <= i < |values| :: EncodeFrame(values[i], bound).Some?
  }

  /** The bytes of the frames one after the other. */
  function Sent(values: seq<Value>, bound: int): seq<byte>
    requires Sendable(values, bound)
  {
    if values == [] then [] else EncodeFrame(values[0], bound).value + Sent(values[1..], bound)
  }

  function Normals(values: seq<Value>): seq<Value> {
    seq(|values|, i requires 0 <= i < |values| => Normal(values[i]))
  }

  lemma SentStep(sent: seq<Value>, i: nat, bound: int, rest: seq<byte>)
    requires Sendable(sent, bound) && i < |sent|
    ensures Sendable(sent[i..], bound) && Sendable(sent[i + 1..], bound)
    ensures TakeFrame(Sent(sent[i..], bound) + rest, bound)
         == Taken(Normal(sent[i]), Sent(sent[i + 1..], bound) + rest)
    ensures Normals(sent[..i + 1]) == Normals(sent[..i]) + [Normal(sent[i])]
  {
    hide TakeFrame, EncodeFrame, Normal;
    var later := Sent(sent[i + 1..], bound) + rest;
    FrameRoundTrip(sent[i], bound, later);
    assert sent[i..][1..] == sent[i + 1..];
    assert Sent(sent[i..], bound) + rest == EncodeFrame(sent[i], bound).value + later;
  }
}
