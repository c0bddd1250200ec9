/**
 A MAVLink 2 framer as the decoder of the stream adapters: frames cut into messages anyhow come
 out whole and in order. It stands for the codec library, which is not part of the repository.
 */
module Framing {
  import opened Bytes
  import opened StreamAdapters
  import opened ZenohEnding
  import Tlog

  /** Looks for a magic byte; waits for the whole frame behind it; a wrong frame costs one byte. */
  function DecodeFrame(valid: Tlog.Validity, b: seq<U8>): (d: Decoding<(), seq<U8>>)
    ensures d.Yield? ==> |d.rest| < |b|
    ensures d.NeedMore? ==> |d.rest| <= |b|
    decreases |b|
  {
    if b == [] then NeedMore((), [])
    else if b[0] != Tlog.STX then DecodeFrame(valid, b[1..])
    else if |b| < 3 || |b| < Tlog.PacketLength(b) then NeedMore((), b)
    else if valid(b[..Tlog.PacketLength(b)])
    then Yield(b[..Tlog.PacketLength(b)], (), b[Tlog.PacketLength(b)..])
    else DecodeFrame(valid, b[1..])
  }

  function Framer(valid: Tlog.Validity): Decoder<(), seq<U8>> {
    (_: (), b: seq<U8>) => DecodeFrame(valid, b)
  }

  lemma {:induction false} FrameStable(valid: Tlog.Validity, b: seq<U8>, more: seq<U8>)
    ensures match DecodeFrame(valid, b)
            case Yield(v, s, rest) => DecodeFrame(valid, b + more) == Yield(v, s, rest + more)
            case NeedMore(_, rest) => DecodeFrame(valid, rest + more) == DecodeFrame(valid, b + more)
    decreases |b|
  {
    if b == [] {
      assert b + more == more && [] + more == more;
    } else {
      assert (b + more)[1..] == b[1..] + more;
      if b[0] != Tlog.STX {
        FrameStable(valid, b[1..], more);
      } else if |b| >= 3 && |b| >= Tlog.PacketLength(b) {
        var n := Tlog.PacketLength(b);
        assert Tlog.PacketLength(b + more) == n;
        assert (b + more)[..n] == b[..n] && (b + more)[n..] == b[n..] + more;
        if !valid(b[..n]) {
          FrameStable(valid, b[1..], more);
        }
      }
    }
  }

  /** The framer obeys the laws the adapters rely on. */
  lemma FramerObeysLaws(valid: Tlog.Validity)
    ensures Consumes(Framer(valid)) && Stable(Framer(valid)) && NeverGrows(Framer(valid))
  {
    forall s: (), b: seq<U8>, more: seq<U8>
      ensures StableAt(Framer(valid), s, b, more)
    {
      FrameStable(valid, b, more);
    }
  }

  function Concat(packets: seq<seq<U8>>): seq<U8> {
    if packets == [] then [] else packets[0] + Concat(packets[1..])
  }

  predicate AllFrames(valid: Tlog.Validity, packets: seq<seq<U8>>) {
    forall i :: 0 <= i < |packets| ==> Tlog.Framed(packets[i]) && valid(packets[i])
  }

  /** Less than a whole frame behind its magic byte, or nothing. */
  predicate Partial(tail: seq<U8>) {
    tail == [] || (tail[0] == Tlog.STX && (|tail| < 3 || |tail| < Tlog.PacketLength(tail)))
  }

  lemma FirstFrame(valid: Tlog.Validity, first: seq<U8>, more: seq<U8>)
    requires Tlog.Framed(first) && valid(first)
    ensures DecodeFrame(valid, first + more).Yield?
    ensures DecodeFrame(valid, first + more).value == first && DecodeFrame(valid, first + more).rest == more
  {
    assert Tlog.PacketLength(first + more) == |first|;
    assert (first + more)[..|first|] == first && (first + more)[|first|..] == more;
  }

  lemma {:induction false} FramesParse(valid: Tlog.Validity, packets: seq<seq<U8>>, tail: seq<U8>)
    requires AllFrames(valid, packets) && Partial(tail) && Consumes(Framer(valid))
    ensures ParseAll(Framer(valid), (), Concat(packets) + tail) == Parsed(packets, (), tail)
    decreases |packets|
  {
    hide Tlog.Framed;
    if packets == [] {
      assert Concat(packets) + tail == tail;
    } else {
      hide DecodeFrame;
      var first, more := packets[0], Concat(packets[1..]) + tail;
      assert Concat(packets) + tail == first + more;
      FirstFrame(valid, first, more);
      FramesParse(valid, packets[1..], tail);
    }
  }

  /** However frames are cut into WebSocket messages, the consumer gets them whole, all, and in order. */
  lemma FramesSurviveWebSocket(valid: Tlog.Validity, packets: seq<seq<U8>>, source: seq<Event>)
    requires AllFrames(valid, packets) && Payload(source) == Concat(packets)
    ensures Consumes(Framer(valid))
    ensures Drained(Framer(valid), Adapter((), [], source)) == packets
  {
    FramerObeysLaws(valid);
    ChunkingDoesNotMatter(Framer(valid), Adapter((), [], source));
    assert [] + Payload(source) == Concat(packets) + [];
    FramesParse(valid, packets, []);
  }

  function AtStart(samples: seq<Sample>): Zenoh<()> {
    Zenoh((), [], samples, false, 0)
  }

  lemma FramesComing(valid: Tlog.Validity, packets: seq<seq<U8>>, tail: seq<U8>, samples: seq<Sample>)
    requires AllFrames(valid, packets) && Partial(tail) && SamplesPayload(samples) == Concat(packets) + tail
    ensures Consumes(Framer(valid)) && Stable(Framer(valid)) && NeverGrows(Framer(valid))
    ensures Coming(Framer(valid), AtStart(samples)) == Parsed(packets, (), tail)
  {
    FramerObeysLaws(valid);
    assert AtStart(samples).buffer + SamplesPayload(samples) == Concat(packets) + tail;
    FramesParse(valid, packets, tail);
  }

  /**
   So it is over Zenoh samples: enough polls give exactly the frames, the next one the end, and a
   consumer that reads until the end or an error gets the frames alone.
   */
  lemma FramesSurviveZenoh(
      valid: Tlog.Validity, remaining: seq<U8>, packets: seq<seq<U8>>, samples: seq<Sample>, n: nat)
    requires AllFrames(valid, packets) && SamplesPayload(samples) == Concat(packets)
    ensures Consumes(Framer(valid)) && Stable(Framer(valid)) && Consumes(EofOnce(Framer(valid), remaining))
    ensures ZenohDrained(Framer(valid), EofOnce(Framer(valid), remaining), AtStart(samples)) == packets
    ensures var eof := DefaultEof(Framer(valid), remaining);
            && (n >= Waits(samples) + |packets| ==> Polled(Framer(valid), eof, AtStart(samples), n) == packets)
            && (n > Waits(samples) + |packets| ==> Ends(Framer(valid), eof, AtStart(samples), n))
  {
    hide PollZenoh, Polled, Ends, ZenohDrained, Framer, Concat;
    assert Concat(packets) + [] == Concat(packets);
    FramesComing(valid, packets, [], samples);
    OneShotDrained(Framer(valid), remaining, AtStart(samples));
    DefaultRun(Framer(valid), remaining, AtStart(samples), n);
  }

  /**
   When the stream stops inside a frame, the polls give the whole frames and then the tail error
   again and again: the end is never reported.
   */
  lemma PartialFrameNeverEnds(
      valid: Tlog.Validity, remaining: seq<U8>, packets: seq<seq<U8>>, tail: seq<U8>, samples: seq<Sample>, n: nat)
    requires AllFrames(valid, packets) && Partial(tail) && tail != []
    requires SamplesPayload(samples) == Concat(packets) + tail
    ensures var eof, got := DefaultEof(Framer(valid), remaining),
                            Polled(Framer(valid), DefaultEof(Framer(valid), remaining), AtStart(samples), n);
            && got <= packets + Repeated(remaining, n) && n - Waits(samples) <= |got| <= n
            && !Ends(Framer(valid), eof, AtStart(samples), n)
  {
    hide PollZenoh, Polled, Ends, Framer, Concat;
    FramesComing(valid, packets, tail, samples);
    DefaultRun(Framer(valid), remaining, AtStart(samples), n);
  }

  /** For one: a stream of a single magic byte. */
  lemma LoneMagicNeverEnds(valid: Tlog.Validity, remaining: seq<U8>, samples: seq<Sample>, n: nat)
    requires samples == [Sample([[Tlog.STX]])]
    ensures var eof := DefaultEof(Framer(valid), remaining);
            && Polled(Framer(valid), eof, AtStart(samples), n) == Repeated(remaining, n)
            && !Ends(Framer(valid), eof, AtStart(samples), n)
  {
    hide PollZenoh, Polled, Ends, Framer;
    assert Joined(samples[0].slices) == [Tlog.STX] && samples[1..] == [];
    assert SamplesPayload(samples) == Concat([]) + [Tlog.STX];
    PartialFrameNeverEnds(valid, remaining, [], [Tlog.STX], samples, n);
    assert [] + Repeated(remaining, n) == Repeated(remaining, n);
  }
}
