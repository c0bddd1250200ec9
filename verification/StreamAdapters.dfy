/**
 Byte streams over message-framed transports (websocket/client_adapter.rs,
 websocket/server_adapter.rs, zenoh/raw_adapter.rs): buffer, decode, extend.
 */
module StreamAdapters {
  import opened Bytes

  /**
   One call of a decoder on a buffer: a value (a packet or a decoding error) or a request for
   more bytes; either way the decoder's new state and what it left in the buffer.
   */
  datatype Decoding<S, V> =
    | Yield(value: V, state: S, rest: seq<U8>)
    | NeedMore(state: S, rest: seq<U8>)

  type Decoder<!S, !V> = (S, seq<U8>) -> Decoding<S, V>

  /** A yield takes at least one byte out of the buffer. */
  ghost predicate Consumes<S(!new), V(!new)>(decode: Decoder<S, V>) {
    forall s: S, b: seq<U8> :: decode(s, b).Yield? ==> |decode(s, b).rest| < |b|
  }

  /** The result is stable under appended bytes; a request for more may have discarded a prefix. */
  ghost predicate Stable<S(!new), V(!new)>(decode: Decoder<S, V>) {
    forall s: S, b: seq<U8>, more: seq<U8> :: StableAt(decode, s, b, more)
  }

  ghost predicate StableAt<S, V>(decode: Decoder<S, V>, s: S, b: seq<U8>, more: seq<U8>) {
    match decode(s, b)
    case Yield(v, s', rest) => decode(s, b + more) == Yield(v, s', rest + more)
    case NeedMore(s', rest) => decode(s', rest + more) == decode(s, b + more)
  }

  /** What a transport hands over; the end of the sequence is the end of the stream. */
  datatype Event =
    | Binary(bytes: seq<U8>)
    | Control                // close, ping, pong, raw frame
    | Text
    | TransportError
    | Pending                // nothing yet: the poll returns and is repeated later

  /** All binary payloads, in order. */
  function Payload(source: seq<Event>): seq<U8> {
    if source == [] then []
    else (if source[0].Binary? then source[0].bytes else []) + Payload(source[1..])
  }

  datatype Poll<V> = Ready(value: V) | ReadyError | End | NotReady

  /** Every value the decoder finds in a contiguous run of bytes, and what remains. */
  datatype Parsed<S, V> = Parsed(values: seq<V>, state: S, rest: seq<U8>)

  ghost function ParseAll<S(!new), V(!new)>(decode: Decoder<S, V>, s: S, b: seq<U8>): Parsed<S, V>
    requires Consumes(decode)
    decreases |b|
  {
    match decode(s, b)
    case NeedMore(s', rest) => Parsed([], s', rest)
    case Yield(v, s', rest) =>
      var p := ParseAll(decode, s', rest);
      p.(values := [v] + p.values)
  }

  // ---- The WebSocket adapters ----

  datatype Adapter<S> = Adapter(state: S, buffer: seq<U8>, source: seq<Event>)

  /** One `poll_next`. */
  function PollNext<S, V>(decode: Decoder<S, V>, a: Adapter<S>): (r: (Poll<V>, Adapter<S>))
    ensures |r.1.source| <= |a.source|
    decreases |a.source|
  {
    match decode(a.state, a.buffer)
    case Yield(v, s', rest) => (Ready(v), a.(state := s', buffer := rest))
    case NeedMore(s', rest) =>
      if a.source == [] then (End, a.(state := s', buffer := rest))
      else
        var a' := Adapter(s', rest, a.source[1..]);
        match a.source[0]
        case Binary(bytes) => PollNext(decode, a'.(buffer := rest + bytes))
        case Control => PollNext(decode, a')
        case Text => (ReadyError, a')
        case TransportError => (ReadyError, a')
        case Pending => (NotReady, a')
  }

  class WebSocketAdapter<S, V> {
    const decode: Decoder<S, V>
    var state: S
    var buffer: seq<U8>
    var source: seq<Event>

    constructor (decode: Decoder<S, V>, state: S, source: seq<Event>)
      ensures this.decode == decode && View() == Adapter(state, [], source)
    {
      this.decode, this.state, this.source := decode, state, source;
      buffer := [];
    }

    function View(): Adapter<S>
      reads this
    {
      Adapter(state, buffer, source)
    }

    method Poll() returns (r: Poll<V>)
      modifies this
      ensures (r, View()) == PollNext(decode, old(View()))
    {
      while true
        invariant PollNext(decode, View()) == PollNext(decode, old(View()))
        decreases |source|
      {
        var taken := buffer;
        var result := decode(state, taken);
        state, buffer := result.state, result.rest;
        if result.Yield? {
          return Ready(result.value);
        }
        if source == [] {
          return End;
        }
        var event := source[0];
        source := source[1..];
        match event
        case Binary(bytes) => buffer := buffer + bytes;
        case Control =>
        case Text => return ReadyError;
        case TransportError => return ReadyError;
        case Pending => return NotReady;
      }
    }
  }

  /** The values a consumer gets by polling until the end, polling again after errors and waits. */
  ghost function Drained<S(!new), V(!new)>(decode: Decoder<S, V>, a: Adapter<S>): seq<V>
    requires Consumes(decode)
    decreases |a.source|, |a.buffer|
  {
    var (r, a') := PollNext(decode, a);
    PollShrinks(decode, a);
    match r
    case Ready(v) => [v] + Drained(decode, a')
    case End => []
    case _ => Drained(decode, a')
  }

  /** Every poll that is not the end used up a message or some bytes of the buffer. */
  lemma {:induction false} PollShrinks<S(!new), V(!new)>(decode: Decoder<S, V>, a: Adapter<S>)
    requires Consumes(decode)
    ensures var (r, a') := PollNext(decode, a);
            !r.End? ==>
              |a'.source| < |a.source| || (a'.source == a.source && |a'.buffer| < |a.buffer|)
    decreases |a.source|
  {
    var d := decode(a.state, a.buffer);
    if d.NeedMore? && a.source != [] {
      var a' := Adapter(d.state, d.rest, a.source[1..]);
      if a.source[0].Binary? {
        PollShrinks(decode, a'.(buffer := d.rest + a.source[0].bytes));
      } else if a.source[0].Control? {
        PollShrinks(decode, a');
      }
    }
  }

  /** Bytes still to come can be parsed with those already there. */
  ghost function Everything<S(!new), V(!new)>(decode: Decoder<S, V>, a: Adapter<S>): Parsed<S, V>
    requires Consumes(decode)
  {
    ParseAll(decode, a.state, a.buffer + Payload(a.source))
  }

  /** A poll yields the next value of the whole stream, or none of them. */
  lemma {:induction false} PollTakesNext<S(!new), V(!new)>(decode: Decoder<S, V>, a: Adapter<S>)
    requires Consumes(decode) && Stable(decode)
    ensures var (r, a') := PollNext(decode, a);
            match r
            case Ready(v) => Everything(decode, a).values == [v] + Everything(decode, a').values
                          && Everything(decode, a).rest == Everything(decode, a').rest
            case End => Everything(decode, a).values == []
            case _ => Everything(decode, a) == Everything(decode, a')
    decreases |a.source|
  {
    var more := Payload(a.source);
    var d := decode(a.state, a.buffer);
    assert StableAt(decode, a.state, a.buffer, more);
    if d.NeedMore? {
      if a.source == [] {
        assert a.buffer + more == a.buffer;
      } else {
        var a' := Adapter(d.state, d.rest, a.source[1..]);
        var more' := Payload(a.source[1..]);
        if a.source[0].Binary? {
          var a'' := a'.(buffer := d.rest + a.source[0].bytes);
          assert a''.buffer + more' == d.rest + more;
          PollTakesNext(decode, a'');
        } else {
          assert more == more';
          if a.source[0].Control? {
            PollTakesNext(decode, a');
          }
        }
      }
    }
  }

  /**
   The values a consumer gets are those of the concatenated payloads, whatever the cuts between
   messages, the control frames between them, and the moments the transport had nothing.
   */
  lemma {:induction false} ChunkingDoesNotMatter<S(!new), V(!new)>(decode: Decoder<S, V>, a: Adapter<S>)
    requires Consumes(decode) && Stable(decode)
    ensures Drained(decode, a) == ParseAll(decode, a.state, a.buffer + Payload(a.source)).values
    decreases |a.source|, |a.buffer|
  {
    PollTakesNext(decode, a);
    PollShrinks(decode, a);
    var (r, a') := PollNext(decode, a);
    if !r.End? {
      ChunkingDoesNotMatter(decode, a');
    }
  }

  /** Two transports carrying the same bytes deliver the same values. */
  lemma SameBytesSameValues<S(!new), V(!new)>(decode: Decoder<S, V>, s: S, a: seq<Event>, b: seq<Event>)
    requires Consumes(decode) && Stable(decode) && Payload(a) == Payload(b)
    ensures Drained(decode, Adapter(s, [], a)) == Drained(decode, Adapter(s, [], b))
  {
    ChunkingDoesNotMatter(decode, Adapter(s, [], a));
    ChunkingDoesNotMatter(decode, Adapter(s, [], b));
  }

  // ---- The Zenoh adapter ----

  /** A sample's payload comes in slices; the end of the sequence is the end of the stream. */
  datatype Sample = Sample(slices: seq<seq<U8>>) | NotYet

  function Joined(slices: seq<seq<U8>>): seq<U8> {
    if slices == [] then [] else slices[0] + Joined(slices[1..])
  }

  function SamplesPayload(samples: seq<Sample>): seq<U8> {
    if samples == [] then []
    else (if samples[0].Sample? then Joined(samples[0].slices) else []) + SamplesPayload(samples[1..])
  }

  /** `endsSeen` counts how often the source was polled and said that it is over. */
  datatype Zenoh<S> = Zenoh(state: S, buffer: seq<U8>, samples: seq<Sample>, endOfStream: bool, endsSeen: nat)

  function PollZenoh<S, V>(decode: Decoder<S, V>, decodeEof: Decoder<S, V>, z: Zenoh<S>): (Poll<V>, Zenoh<S>)
    decreases |z.samples|, !z.endOfStream
  {
    match if z.endOfStream then decodeEof(z.state, z.buffer) else decode(z.state, z.buffer)
    case Yield(v, s', rest) => (Ready(v), z.(state := s', buffer := rest))
    case NeedMore(s', rest) =>
      var z' := z.(state := s', buffer := rest);
      if z.endOfStream then (End, z')
      else if z.samples == [] then
        PollZenoh(decode, decodeEof, z'.(endOfStream := true, endsSeen := z.endsSeen + 1))
      else
        var z'' := z'.(samples := z.samples[1..]);
        match z.samples[0]
        case Sample(slices) => PollZenoh(decode, decodeEof, z''.(buffer := rest + Joined(slices)))
        case NotYet => (NotReady, z'')
  }

  class ZenohRawReader<S, V> {
    const decode: Decoder<S, V>
    const decodeEof: Decoder<S, V>
    var state: S
    var buffer: seq<U8>
    var samples: seq<Sample>
    var endOfStream: bool
    ghost var endsSeen: nat

    constructor (decode: Decoder<S, V>, decodeEof: Decoder<S, V>, state: S, samples: seq<Sample>)
      ensures this.decode == decode && this.decodeEof == decodeEof
      ensures View() == Zenoh(state, [], samples, false, 0)
    {
      this.decode, this.decodeEof, this.state, this.samples := decode, decodeEof, state, samples;
      buffer, endOfStream, endsSeen := [], false, 0;
    }

    ghost function View(): Zenoh<S>
      reads this
    {
      Zenoh(state, buffer, samples, endOfStream, endsSeen)
    }

    method Poll() returns (r: Poll<V>)
      modifies this
      ensures (r, View()) == PollZenoh(decode, decodeEof, old(View()))
    {
      while true
        invariant PollZenoh(decode, decodeEof, View()) == PollZenoh(decode, decodeEof, old(View()))
        decreases |samples|, !endOfStream
      {
        var taken := buffer;
        var result := if endOfStream then decodeEof(state, taken) else decode(state, taken);
        state, buffer := result.state, result.rest;
        if result.Yield? {
          return Ready(result.value);
        }
        if endOfStream {
          return End;
        }
        if samples == [] {
          endOfStream, endsSeen := true, endsSeen + 1;
          continue;
        }
        var sample := samples[0];
        samples := samples[1..];
        if sample.NotYet? {
          return NotReady;
        }
        Extend(sample.slices);
      }
    }

    method Extend(slices: seq<seq<U8>>)
      modifies this`buffer
      ensures buffer == old(buffer) + Joined(slices)
    {
      var i := 0;
      while i < |slices|
        invariant i <= |slices|
        invariant buffer + Joined(slices[i..]) == old(buffer) + Joined(slices)
      {
        assert slices[i..][1..] == slices[i + 1..];
        assert buffer + Joined(slices[i..]) == buffer + slices[i] + Joined(slices[i + 1..]);
        buffer := buffer + slices[i];
        i := i + 1;
      }
      assert Joined(slices[i..]) == [];
    }
  }

  /** The source said that it is over once if the flag is set, and never otherwise. */
  predicate EndRemembered<S>(z: Zenoh<S>) {
    z.endsSeen == (if z.endOfStream then 1 else 0) && (z.endOfStream ==> z.samples == [])
  }

  lemma {:induction false} NeverPolledAfterEnd<S, V>(decode: Decoder<S, V>, decodeEof: Decoder<S, V>, z: Zenoh<S>)
    requires EndRemembered(z)
    ensures EndRemembered(PollZenoh(decode, decodeEof, z).1)
    decreases |z.samples|, !z.endOfStream
  {
    var d := if z.endOfStream then decodeEof(z.state, z.buffer) else decode(z.state, z.buffer);
    if d.NeedMore? && !z.endOfStream {
      var z' := z.(state := d.state, buffer := d.rest);
      if z.samples == [] {
        NeverPolledAfterEnd(decode, decodeEof, z'.(endOfStream := true, endsSeen := z.endsSeen + 1));
      } else if z.samples[0].Sample? {
        NeverPolledAfterEnd(decode, decodeEof,
          z'.(samples := z.samples[1..], buffer := d.rest + Joined(z.samples[0].slices)));
      }
    }
  }

  /** Every value still to come: those of the whole payload, then those of one drain of the tail. */
  ghost function ZenohValues<S(!new), V(!new)>(decode: Decoder<S, V>, decodeEof: Decoder<S, V>, z: Zenoh<S>): seq<V>
    requires Consumes(decode) && Consumes(decodeEof)
  {
    if z.endOfStream then ParseAll(decodeEof, z.state, z.buffer).values
    else
      var p := ParseAll(decode, z.state, z.buffer + SamplesPayload(z.samples));
      p.values + ParseAll(decodeEof, p.state, p.rest).values
  }

  lemma {:induction false} ZenohPollTakesNext<S(!new), V(!new)>(
      decode: Decoder<S, V>, decodeEof: Decoder<S, V>, z: Zenoh<S>)
    requires Consumes(decode) && Consumes(decodeEof) && Stable(decode)
    ensures var (r, z') := PollZenoh(decode, decodeEof, z);
            match r
            case Ready(v) => ZenohValues(decode, decodeEof, z) == [v] + ZenohValues(decode, decodeEof, z')
            case End => ZenohValues(decode, decodeEof, z) == []
            case _ => ZenohValues(decode, decodeEof, z) == ZenohValues(decode, decodeEof, z')
    ensures var (r, z') := PollZenoh(decode, decodeEof, z);
            !r.End? ==>
              || |z'.samples| < |z.samples|
              || (z'.samples == z.samples && !z.endOfStream && z'.endOfStream)
              || (z'.samples == z.samples && z.endOfStream == z'.endOfStream && |z'.buffer| < |z.buffer|)
    decreases |z.samples|, !z.endOfStream
  {
    var more := SamplesPayload(z.samples);
    if !z.endOfStream {
      var d := decode(z.state, z.buffer);
      assert StableAt(decode, z.state, z.buffer, more);
      if d.Yield? {
        var p := ParseAll(decode, d.state, d.rest + more);
        assert [d.value] + p.values + ParseAll(decodeEof, p.state, p.rest).values
            == [d.value] + (p.values + ParseAll(decodeEof, p.state, p.rest).values);
      } else {
        var z' := z.(state := d.state, buffer := d.rest);
        if z.samples == [] {
          assert z.buffer + more == z.buffer;
          ZenohPollTakesNext(decode, decodeEof, z'.(endOfStream := true, endsSeen := z.endsSeen + 1));
        } else {
          var more' := SamplesPayload(z.samples[1..]);
          if z.samples[0].Sample? {
            var z'' := z'.(samples := z.samples[1..], buffer := d.rest + Joined(z.samples[0].slices));
            assert z''.buffer + more' == d.rest + more;
            ZenohPollTakesNext(decode, decodeEof, z'');
          } else {
            assert more == more';
          }
        }
      }
    }
  }

  ghost function ZenohDrained<S(!new), V(!new)>(decode: Decoder<S, V>, decodeEof: Decoder<S, V>, z: Zenoh<S>): seq<V>
    requires Consumes(decode) && Consumes(decodeEof) && Stable(decode)
    decreases |z.samples|, !z.endOfStream, |z.buffer|
  {
    var (r, z') := PollZenoh(decode, decodeEof, z);
    ZenohPollTakesNext(decode, decodeEof, z);
    match r
    case Ready(v) => [v] + ZenohDrained(decode, decodeEof, z')
    case End => []
    case _ => ZenohDrained(decode, decodeEof, z')
  }

  /**
   The values of the concatenated samples, then one drain of the tail that is left, however the
   samples were cut and sliced and whenever the consumer polled.
   */
  lemma {:induction false} ZenohChunkingDoesNotMatter<S(!new), V(!new)>(
      decode: Decoder<S, V>, decodeEof: Decoder<S, V>, z: Zenoh<S>)
    requires Consumes(decode) && Consumes(decodeEof) && Stable(decode)
    ensures ZenohDrained(decode, decodeEof, z) == ZenohValues(decode, decodeEof, z)
    decreases |z.samples|, !z.endOfStream, |z.buffer|
  {
    ZenohPollTakesNext(decode, decodeEof, z);
    var (r, z') := PollZenoh(decode, decodeEof, z);
    if !r.End? {
      ZenohChunkingDoesNotMatter(decode, decodeEof, z');
    }
  }

  /** The default `decode_eof` of tokio-util: an error while bytes remain. */
  function DefaultEof<S, V>(decode: Decoder<S, V>, remaining: V): Decoder<S, V> {
    (s: S, b: seq<U8>) =>
      var d := decode(s, b);
      if d.Yield? || d.rest == [] then d else Decoding.Yield(remaining, d.state, d.rest)
  }

  /**
   With the default `decode_eof` a tail that is not a whole frame is never given up: once the
   stream is over, every further poll yields the same error and the end is never reported. The
   end is reported exactly when the decoder leaves nothing.
   */
  lemma TailErrorRepeats<S(!new), V(!new)>(decode: Decoder<S, V>, remaining: V, z: Zenoh<S>)
    requires Stable(decode) && z.endOfStream && decode(z.state, z.buffer).NeedMore?
    ensures var eof := DefaultEof(decode, remaining);
            var (r, z') := PollZenoh(decode, eof, z);
            && (r.End? <==> decode(z.state, z.buffer).rest == [])
            && (!r.End? ==> r == Ready(remaining) && PollZenoh(decode, eof, z') == (r, z'))
  {
    var d := decode(z.state, z.buffer);
    assert StableAt(decode, z.state, z.buffer, []);
    assert z.buffer + [] == z.buffer && d.rest + [] == d.rest;
  }

  /** A request for more does not put bytes into the buffer. */
  ghost predicate NeverGrows<S(!new), V(!new)>(decode: Decoder<S, V>) {
    forall s: S, b: seq<U8> :: decode(s, b).NeedMore? ==> |decode(s, b).rest| <= |b|
  }

  /** The default as a consumer meets it that stops at the first tail error. */
  function EofOnce<S, V>(decode: Decoder<S, V>, remaining: V): Decoder<S, V> {
    (s: S, b: seq<U8>) =>
      var d := decode(s, b);
      if d.Yield? || d.rest == [] then d else Decoding.Yield(remaining, d.state, [])
  }

  lemma EofOnceConsumes<S(!new), V(!new)>(decode: Decoder<S, V>, remaining: V)
    requires Consumes(decode) && NeverGrows(decode)
    ensures Consumes(EofOnce(decode, remaining))
  {
  }

  /** Up to and including the tail error, the default and its one-shot form cannot be told apart. */
  lemma {:induction false} DefaultUntilTailError<S(!new), V(!new)>(decode: Decoder<S, V>, remaining: V, z: Zenoh<S>)
    ensures var (r, z') := PollZenoh(decode, DefaultEof(decode, remaining), z);
            var (q, y) := PollZenoh(decode, EofOnce(decode, remaining), z);
            r == q && (z' == y || (r == Ready(remaining) && z' == y.(buffer := z'.buffer) && y.buffer == []))
    decreases |z.samples|, !z.endOfStream
  {
    var d := decode(z.state, z.buffer);
    if !z.endOfStream && d.NeedMore? {
      var z' := z.(state := d.state, buffer := d.rest);
      if z.samples == [] {
        DefaultUntilTailError(decode, remaining, z'.(endOfStream := true, endsSeen := z.endsSeen + 1));
      } else if z.samples[0].Sample? {
        DefaultUntilTailError(decode, remaining,
          z'.(samples := z.samples[1..], buffer := d.rest + Joined(z.samples[0].slices)));
      }
    }
  }
}
