/**
 How a Zenoh stream ends (zenoh/raw_adapter.rs) under the default `decode_eof`: every value of the
 samples, and then the end, or an error that never stops.
 */
module ZenohEnding {
  import opened Bytes
  import opened StreamAdapters

  predicate Started<S>(z: Zenoh<S>) {
    z.endOfStream ==> z.samples == []
  }

  /** What the decoder will find in the bytes there and to come, and what it will leave. */
  ghost function Coming<S(!new), V(!new)>(decode: Decoder<S, V>, z: Zenoh<S>): Parsed<S, V>
    requires Consumes(decode)
  {
    ParseAll(decode, z.state, z.buffer + SamplesPayload(z.samples))
  }

  /** How often the source still has nothing to give. */
  function Waits(samples: seq<Sample>): nat {
    if samples == [] then 0 else (if samples[0].NotYet? then 1 else 0) + Waits(samples[1..])
  }

  /** A decoder that left some bytes for want of more leaves them again. */
  lemma LeftAgain<S(!new), V(!new)>(decode: Decoder<S, V>, s: S, b: seq<U8>)
    requires Stable(decode) && decode(s, b).NeedMore?
    ensures var d := decode(s, b); decode(d.state, d.rest) == d
  {
    assert StableAt(decode, s, b, []);
    assert b + [] == b && decode(s, b).rest + [] == decode(s, b).rest;
  }

  lemma {:induction false} ParseSettles<S(!new), V(!new)>(decode: Decoder<S, V>, s: S, b: seq<U8>)
    requires Consumes(decode) && Stable(decode)
    ensures var p := ParseAll(decode, s, b); decode(p.state, p.rest) == NeedMore(p.state, p.rest)
    decreases |b|
  {
    var d := decode(s, b);
    if d.Yield? {
      ParseSettles(decode, d.state, d.rest);
    } else {
      LeftAgain(decode, s, b);
    }
  }

  /** One poll brings the next value; behind the last one the end, or the tail error if bytes are left. */
  ghost predicate PollBrings<S(!new), V(!new)>(
      decode: Decoder<S, V>, remaining: V, z: Zenoh<S>, r: Poll<V>, z': Zenoh<S>)
    requires Consumes(decode)
  {
    var p, p' := Coming(decode, z), Coming(decode, z');
    && p'.rest == p.rest && Started(z') && Waits(z'.samples) <= Waits(z.samples)
    && match r
       case Ready(v) =>
         if p.values != [] then p.values == [v] + p'.values
         else p.rest != [] && v == remaining && p'.values == []
       case NotReady => p'.values == p.values && Waits(z'.samples) < Waits(z.samples)
       case End => p.values == [] && p'.values == [] && p.rest == []
       case ReadyError => false
  }

  lemma TailPoll<S(!new), V(!new)>(decode: Decoder<S, V>, remaining: V, z: Zenoh<S>)
    requires Consumes(decode) && Stable(decode) && z.endOfStream && z.samples == []
    ensures var (r, z') := PollZenoh(decode, DefaultEof(decode, remaining), z);
            PollBrings(decode, remaining, z, r, z')
  {
    var d := decode(z.state, z.buffer);
    assert z.buffer + SamplesPayload(z.samples) == z.buffer;
    assert d.rest + SamplesPayload(z.samples) == d.rest;
    if d.NeedMore? {
      LeftAgain(decode, z.state, z.buffer);
    }
  }

  lemma {:induction false} DefaultPoll<S(!new), V(!new)>(decode: Decoder<S, V>, remaining: V, z: Zenoh<S>)
    requires Consumes(decode) && Stable(decode) && Started(z)
    ensures var (r, z') := PollZenoh(decode, DefaultEof(decode, remaining), z);
            PollBrings(decode, remaining, z, r, z')
    decreases |z.samples|, !z.endOfStream
  {
    var eof, more, d := DefaultEof(decode, remaining), SamplesPayload(z.samples), decode(z.state, z.buffer);
    if z.endOfStream {
      TailPoll(decode, remaining, z);
    } else {
      assert StableAt(decode, z.state, z.buffer, more);
      if d.NeedMore? {
        var z' := z.(state := d.state, buffer := d.rest);
        if z.samples == [] {
          assert z.buffer + more == z.buffer && d.rest + more == d.rest;
          DefaultPoll(decode, remaining, z'.(endOfStream := true, endsSeen := z.endsSeen + 1));
        } else if z.samples[0].Sample? {
          var z'' := z'.(samples := z.samples[1..], buffer := d.rest + Joined(z.samples[0].slices));
          assert z''.buffer + SamplesPayload(z''.samples) == d.rest + more;
          DefaultPoll(decode, remaining, z'');
        } else {
          assert SamplesPayload(z.samples[1..]) == more;
        }
      }
    }
  }

  // ---- Whole runs of polls ----

  /** The values of the next `n` polls. */
  function Polled<S, V>(decode: Decoder<S, V>, decodeEof: Decoder<S, V>, z: Zenoh<S>, n: nat): (values: seq<V>)
    ensures |values| <= n
    decreases n
  {
    if n == 0 then []
    else
      var (r, z') := PollZenoh(decode, decodeEof, z);
      (match r case Ready(v) => [v] case _ => []) + Polled(decode, decodeEof, z', n - 1)
  }

  /** One of the next `n` polls says that the stream is over. */
  predicate Ends<S, V>(decode: Decoder<S, V>, decodeEof: Decoder<S, V>, z: Zenoh<S>, n: nat)
    decreases n
  {
    n > 0 &&
      var (r, z') := PollZenoh(decode, decodeEof, z);
      r.End? || Ends(decode, decodeEof, z', n - 1)
  }

  function Repeated<V>(v: V, n: nat): seq<V> {
    seq(n, i => v)
  }

  /** A run gets the values in order, all of them in time, and then the tail error for ever if bytes are left. */
  ghost predicate RunBrings<V>(p: seq<V>, left: seq<U8>, remaining: V, waits: nat, got: seq<V>, n: nat) {
    if left == []
    then got <= p && |got| >= Min(n - waits, |p|)
    else got <= p + Repeated(remaining, n) && |got| >= n - waits
  }

  lemma NextBrings<V>(
      v: V, p: seq<V>, p': seq<V>, left: seq<U8>, remaining: V, waits: nat, got: seq<V>, n: nat)
    requires n > 0 && RunBrings(p', left, remaining, waits, got, n - 1)
    requires if p != [] then p == [v] + p' else left != [] && v == remaining && p' == []
    ensures RunBrings(p, left, remaining, waits, [v] + got, n)
  {
    if left != [] {
      assert forall i :: 0 <= i < |got| ==> got[i] == (p' + Repeated(remaining, n - 1))[i];
      assert forall i :: 0 <= i < 1 + |got| ==> ([v] + got)[i] == (p + Repeated(remaining, n))[i];
    } else {
      assert forall i :: 0 <= i < |got| ==> got[i] == p'[i];
      assert forall i :: 0 <= i < 1 + |got| ==> ([v] + got)[i] == p[i];
    }
  }

  lemma LaterBrings<V>(
      p: seq<V>, left: seq<U8>, remaining: V, waits: nat, waits': nat, got: seq<V>, n: nat)
    requires n > 0 && RunBrings(p, left, remaining, waits', got, n - 1) && waits' < waits
    ensures RunBrings(p, left, remaining, waits, got, n)
  {
    if left != [] {
      assert p + Repeated(remaining, n - 1) <= p + Repeated(remaining, n);
    }
  }

  lemma FewerWaits<V>(p: seq<V>, left: seq<U8>, remaining: V, waits: nat, waits': nat, got: seq<V>, n: nat)
    requires RunBrings(p, left, remaining, waits', got, n) && waits' <= waits
    ensures RunBrings(p, left, remaining, waits, got, n)
  {
  }

  /** Every run under the default, poll by poll. */
  lemma {:induction false} DefaultRun<S(!new), V(!new)>(decode: Decoder<S, V>, remaining: V, z: Zenoh<S>, n: nat)
    requires Consumes(decode) && Stable(decode) && Started(z)
    ensures var p := Coming(decode, z);
            var eof := DefaultEof(decode, remaining);
            && RunBrings(p.values, p.rest, remaining, Waits(z.samples), Polled(decode, eof, z, n), n)
            && (Ends(decode, eof, z, n) ==> p.rest == [])
            && (p.rest == [] && n > Waits(z.samples) + |p.values| ==> Ends(decode, eof, z, n))
    decreases n
  {
    hide RunBrings, Stable, Consumes, PollZenoh, Coming, DefaultEof, Waits;
    var p, eof := Coming(decode, z), DefaultEof(decode, remaining);
    if n == 0 {
      RunOfNone(p.values, p.rest, remaining, Waits(z.samples));
    } else {
      DefaultPoll(decode, remaining, z);
      var (r, z') := PollZenoh(decode, eof, z);
      DefaultRun(decode, remaining, z', n - 1);
      var p', got := Coming(decode, z'), Polled(decode, eof, z', n - 1);
      match r {
        case Ready(v) =>
          NextBrings(v, p.values, p'.values, p.rest, remaining, Waits(z'.samples), got, n);
          FewerWaits(p.values, p.rest, remaining, Waits(z.samples), Waits(z'.samples), [v] + got, n);
        case NotReady =>
          LaterBrings(p.values, p.rest, remaining, Waits(z.samples), Waits(z'.samples), got, n);
          assert Polled(decode, eof, z, n) == got;
        case End =>
          NothingBrings(p.rest, remaining, Waits(z.samples), Waits(z'.samples), got, n);
          assert Polled(decode, eof, z, n) == got;
      }
    }
  }

  lemma RunOfNone<V>(p: seq<V>, left: seq<U8>, remaining: V, waits: nat)
    ensures RunBrings(p, left, remaining, waits, [], 0)
  {
  }

  lemma NothingBrings<V>(left: seq<U8>, remaining: V, waits: nat, waits': nat, got: seq<V>, n: nat)
    requires n > 0 && left == [] && RunBrings([], left, remaining, waits', got, n - 1)
    ensures RunBrings([], left, remaining, waits, got, n)
  {
  }

  /** Whether the stream is ever reported to be over: exactly when the decoder leaves no bytes. */
  lemma EndsExactly<S(!new), V(!new)>(decode: Decoder<S, V>, remaining: V, z: Zenoh<S>)
    requires Consumes(decode) && Stable(decode) && Started(z)
    ensures (exists n: nat :: Ends(decode, DefaultEof(decode, remaining), z, n)) <==> Coming(decode, z).rest == []
  {
    var eof := DefaultEof(decode, remaining);
    if Coming(decode, z).rest == [] {
      var n := Waits(z.samples) + |Coming(decode, z).values| + 1;
      DefaultRun(decode, remaining, z, n);
      assert Ends(decode, eof, z, n);
    } else {
      forall n: nat ensures !Ends(decode, eof, z, n) {
        DefaultRun(decode, remaining, z, n);
      }
    }
  }

  // ---- The same, against a tail that is drained once ----

  /** What a consumer gets that stops at the first tail error. */
  lemma OneShotDrained<S(!new), V(!new)>(decode: Decoder<S, V>, remaining: V, z: Zenoh<S>)
    requires Consumes(decode) && Stable(decode) && NeverGrows(decode) && !z.endOfStream
    ensures Consumes(EofOnce(decode, remaining))
    ensures var p := Coming(decode, z);
            ZenohDrained(decode, EofOnce(decode, remaining), z)
              == p.values + (if p.rest == [] then [] else [remaining])
  {
    var once := EofOnce(decode, remaining);
    EofOnceConsumes(decode, remaining);
    ZenohChunkingDoesNotMatter(decode, once, z);
    var p := Coming(decode, z);
    ParseSettles(decode, z.state, z.buffer + SamplesPayload(z.samples));
    assert once(p.state, []).NeedMore?;
    assert ParseAll(once, p.state, []).values == [];
    if p.rest != [] {
      assert once(p.state, p.rest) == Yield(remaining, p.state, []);
      assert ParseAll(once, p.state, p.rest).values == [remaining];
    }
  }

  /**
   Under the default, the values up to and including the first tail error are those of the
   one-shot form, and the error only repeats from there on.
   */
  lemma DefaultIsOneShotThenRepeats<S(!new), V(!new)>(
      decode: Decoder<S, V>, remaining: V, z: Zenoh<S>, n: nat)
    requires Consumes(decode) && Stable(decode) && NeverGrows(decode) && !z.endOfStream
    ensures Consumes(EofOnce(decode, remaining))
    ensures var once := ZenohDrained(decode, EofOnce(decode, remaining), z);
            var got := Polled(decode, DefaultEof(decode, remaining), z, n);
            if |got| <= |once| then got <= once
            else once != [] && once[|once| - 1] == remaining && got == once + Repeated(remaining, |got| - |once|)
  {
    hide PollZenoh, Polled, ZenohDrained, Coming;
    OneShotDrained(decode, remaining, z);
    DefaultRun(decode, remaining, z, n);
    var p := Coming(decode, z);
    var once := ZenohDrained(decode, EofOnce(decode, remaining), z);
    var got := Polled(decode, DefaultEof(decode, remaining), z, n);
    if p.rest != [] {
      assert forall i :: 0 <= i < |got| ==> got[i] == (p.values + Repeated(remaining, n))[i];
      assert forall i :: 0 <= i < |got| ==> got[i] == if i < |p.values| then p.values[i] else remaining;
      if |got| > |once| {
        assert got == once + Repeated(remaining, |got| - |once|);
      }
    }
  }
}
