/**
 Errors of a WebSocket transport (websocket/client_adapter.rs, websocket/server_adapter.rs): each is
 returned by one poll, behind exactly the values that the bytes before it complete.
 */
module StreamErrors {
  import opened Bytes
  import opened StreamAdapters

  /** A text frame or a transport error. */
  predicate IsError(e: Event) {
    e.Text? || e.TransportError?
  }

  function ErrorsIn(source: seq<Event>): nat {
    if source == [] then 0 else (if IsError(source[0]) then 1 else 0) + ErrorsIn(source[1..])
  }

  function WaitsIn(source: seq<Event>): nat {
    if source == [] then 0 else (if source[0].Pending? then 1 else 0) + WaitsIn(source[1..])
  }

  /**
   A poll returns an error for each error it takes from the source, so for one at most, and waits for each
   moment the source had nothing; it reports the end only when the source is used up.
   */
  lemma {:induction false} PollReportsExactly<S, V>(decode: Decoder<S, V>, a: Adapter<S>)
    ensures var (r, a') := PollNext(decode, a);
            && ErrorsIn(a.source) == ErrorsIn(a'.source) + (if r.ReadyError? then 1 else 0)
            && WaitsIn(a.source) == WaitsIn(a'.source) + (if r.NotReady? then 1 else 0)
            && (r.End? ==> a'.source == [] && ErrorsIn(a.source) == WaitsIn(a.source) == 0)
    decreases |a.source|
  {
    var d := decode(a.state, a.buffer);
    if d.NeedMore? && a.source != [] {
      var a' := Adapter(d.state, d.rest, a.source[1..]);
      if a.source[0].Binary? {
        PollReportsExactly(decode, a'.(buffer := d.rest + a.source[0].bytes));
      } else if a.source[0].Control? {
        PollReportsExactly(decode, a');
      }
    }
  }

  // ---- In which order values and errors come ----

  /** Everything polls return up to the end, waits left out. */
  ghost function Log<S(!new), V(!new)>(decode: Decoder<S, V>, a: Adapter<S>): seq<Poll<V>>
    requires Consumes(decode)
    decreases |a.source|, |a.buffer|
  {
    var (r, a') := PollNext(decode, a);
    PollShrinks(decode, a);
    match r
    case End => []
    case NotReady => Log(decode, a')
    case _ => [r] + Log(decode, a')
  }

  function Readies<V>(values: seq<V>): seq<Poll<V>> {
    seq(|values|, i requires 0 <= i < |values| => Ready(values[i]))
  }

  /** The log one call of the decoder further. */
  lemma LogStep<S(!new), V(!new)>(decode: Decoder<S, V>, a: Adapter<S>)
    requires Consumes(decode)
    ensures var d := decode(a.state, a.buffer);
            Log(decode, a) ==
              if d.Yield? then [Ready(d.value)] + Log(decode, a.(state := d.state, buffer := d.rest))
              else if a.source == [] then []
              else
                var a' := Adapter(d.state, d.rest, a.source[1..]);
                if a.source[0].Binary? then Log(decode, a'.(buffer := d.rest + a.source[0].bytes))
                else if IsError(a.source[0]) then [ReadyError] + Log(decode, a')
                else Log(decode, a')
  {
  }

  lemma ReadiesFirst<V>(v: V, values: seq<V>)
    ensures Readies([v] + values) == [Ready(v)] + Readies(values)
  {
  }

  /** One call of the decoder on the buffer, seen from the parse of all the bytes to come. */
  lemma ParseStep<S(!new), V(!new)>(decode: Decoder<S, V>, s: S, b: seq<U8>, more: seq<U8>)
    requires Consumes(decode) && Stable(decode)
    ensures var d := decode(s, b);
            var p := ParseAll(decode, d.state, d.rest + more);
            ParseAll(decode, s, b + more) == if d.Yield? then p.(values := [d.value] + p.values) else p
  {
    assert StableAt(decode, s, b, more);
  }

  predicate ErrorFree(source: seq<Event>) {
    forall i :: 0 <= i < |source| ==> !IsError(source[i])
  }

  /**
   The first error comes behind the values of all the bytes before it, and what comes behind it is
   what the decoder makes of the bytes it had left and those still to come.
   */
  lemma {:induction false} ErrorsComeInPlace<S(!new), V(!new)>(
      decode: Decoder<S, V>, a: Adapter<S>, before: seq<Event>, e: Event, after: seq<Event>)
    requires Consumes(decode) && Stable(decode)
    requires a.source == before + [e] + after && ErrorFree(before) && IsError(e)
    ensures var p := ParseAll(decode, a.state, a.buffer + Payload(before));
            Log(decode, a) == Readies(p.values) + [ReadyError] + Log(decode, Adapter(p.state, p.rest, after))
    decreases |before|, |a.buffer|
  {
    hide Log, Readies, Stable, ParseAll;
    LogStep(decode, a);
    var more := Payload(before);
    ParseStep(decode, a.state, a.buffer, more);
    match decode(a.state, a.buffer)
    case Yield(v, s', rest) =>
      ErrorsComeInPlace(decode, a.(state := s', buffer := rest), before, e, after);
      ReadiesFirst(v, ParseAll(decode, s', rest + more).values);
    case NeedMore(s', rest) =>
      var a' := Adapter(s', rest, a.source[1..]);
      if before == [] {
        assert a.source[1..] == after;
        NothingParsed(decode, a.state, a.buffer);
        assert a.buffer + more == a.buffer;
      } else {
        assert a.source[1..] == before[1..] + [e] + after;
        var a'' := if before[0].Binary? then a'.(buffer := rest + before[0].bytes) else a';
        assert a''.buffer + Payload(before[1..]) == rest + more;
        ErrorsComeInPlace(decode, a'', before[1..], e, after);
      }
  }

  lemma NothingParsed<S(!new), V(!new)>(decode: Decoder<S, V>, s: S, b: seq<U8>)
    requires Consumes(decode) && decode(s, b).NeedMore?
    ensures ParseAll(decode, s, b) == Parsed([], decode(s, b).state, decode(s, b).rest)
    ensures Readies<V>([]) == []
  {
  }

  /** Without an error the log is the values of all the bytes. */
  lemma {:induction false} NoErrorNoReport<S(!new), V(!new)>(decode: Decoder<S, V>, a: Adapter<S>)
    requires Consumes(decode) && Stable(decode) && ErrorFree(a.source)
    ensures Log(decode, a) == Readies(ParseAll(decode, a.state, a.buffer + Payload(a.source)).values)
    decreases |a.source|, |a.buffer|
  {
    hide Log, Readies, Stable, ParseAll;
    LogStep(decode, a);
    var more := Payload(a.source);
    ParseStep(decode, a.state, a.buffer, more);
    match decode(a.state, a.buffer)
    case Yield(v, s', rest) =>
      NoErrorNoReport(decode, a.(state := s', buffer := rest));
      ReadiesFirst(v, ParseAll(decode, s', rest + more).values);
    case NeedMore(s', rest) =>
      if a.source == [] {
        NothingParsed(decode, a.state, a.buffer);
        assert a.buffer + more == a.buffer;
      } else {
        var a' := Adapter(s', rest, a.source[1..]);
        var a'' := if a.source[0].Binary? then a'.(buffer := rest + a.source[0].bytes) else a';
        assert a''.buffer + Payload(a.source[1..]) == rest + more;
        NoErrorNoReport(decode, a'');
      }
  }
}
