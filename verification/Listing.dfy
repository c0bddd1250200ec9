/** Directory listings: the NUL-separated text of a reply and its parser (mavftp/protocol.rs). */
module Listing {
  import opened Wrappers
  import opened Bytes

  const NUL: U8 := 0
  const TAB: U8 := 9
  const PLUS: U8 := 43
  const DIGIT_ZERO: U8 := 48

  datatype EntryKind = Directory | File | Skip

  function KindByte(kind: EntryKind): U8 {
    match kind
    case Directory => 68
    case File => 70
    case Skip => 83
  }

  function KindFromByte(b: U8): Option<EntryKind> {
    if b == 68 then Some(Directory)
    else if b == 70 then Some(File)
    else if b == 83 then Some(Skip)
    else None
  }

  datatype ListingEntry = ListingEntry(kind: EntryKind, name: seq<U8>, size: Option<U64>)

  /** The first position of `b`, or the length of `s`. */
  function IndexOf(s: seq<U8>, b: U8): (k: nat)
    ensures k <= |s| && forall i :: 0 <= i < k ==> s[i] != b
    ensures k < |s| ==> s[k] == b
  {
    if s == [] || s[0] == b then 0 else 1 + IndexOf(s[1..], b)
  }

  function Split(text: seq<U8>): (segments: seq<seq<U8>>)
    ensures |segments| > 0
  {
    var k := IndexOf(text, NUL);
    if k == |text| then [text] else [text[..k]] + Split(text[k + 1..])
  }

  predicate IsDigit(b: U8) {
    DIGIT_ZERO <= b <= DIGIT_ZERO + 9
  }

  /** The value of a run of decimal digits, if they are all digits. */
  function DigitsValue(s: seq<U8>): Option<nat> {
    if s == [] then Some(0)
    else
      match DigitsValue(s[..|s| - 1])
      case None => None
      case Some(high) =>
        var last := s[|s| - 1];
        if IsDigit(last) then Some(10 * high + (last - DIGIT_ZERO)) else None
  }

  /** `str::parse::<u64>`: an optional plus sign, at least one digit, no overflow. */
  function ParseU64(s: seq<U8>): Option<U64> {
    var digits := if |s| > 1 && s[0] == PLUS then s[1..] else s;
    if digits == [] then None
    else
      match DigitsValue(digits)
      case None => None
      case Some(v) => if v < 0x1_0000_0000_0000_0000 then Some(v) else None
  }

  function ParseEntry(segment: seq<U8>): Option<ListingEntry> {
    if segment == [] then None
    else
      match KindFromByte(segment[0])
      case None => None
      case Some(kind) =>
        var rest := segment[1..];
        var tab := IndexOf(rest, TAB);
        if kind == File && tab < |rest|
        then Some(ListingEntry(kind, rest[..tab], ParseU64(rest[tab + 1..])))
        else Some(ListingEntry(kind, rest, None))
  }

  /** The values that are there, in order. */
  function Somes<T>(options: seq<Option<T>>): seq<T> {
    if options == [] then []
    else (match options[0] case Some(v) => [v] case None => []) + Somes(options[1..])
  }

  function ParseEach(segments: seq<seq<U8>>): (options: seq<Option<ListingEntry>>)
    ensures |options| == |segments|
  {
    seq(|segments|, i requires 0 <= i < |segments| => ParseEntry(segments[i]))
  }

  function ParseSegments(segments: seq<seq<U8>>): seq<ListingEntry> {
    Somes(ParseEach(segments))
  }

  function Parse(text: seq<U8>): seq<ListingEntry> {
    ParseSegments(Split(text))
  }

  // ---- The printer a server uses ----

  function PrintNat(n: nat): (s: seq<U8>)
    ensures s != [] && DigitsValue(s) == Some(n)
    ensures NUL !in s && PLUS !in s
  {
    if n < 10 then
      var s := [DIGIT_ZERO + n];
      assert s[..|s| - 1] == [];
      s
    else
      var high := PrintNat(n / 10);
      var s := high + [DIGIT_ZERO + n % 10];
      assert s[..|s| - 1] == high;
      s
  }

  function PrintEntry(e: ListingEntry): seq<U8> {
    [KindByte(e.kind)] + e.name
    + (match e.size case Some(n) => [TAB] + PrintNat(n) case None => [])
  }

  /** The text of a reply: every segment closed by a NUL. */
  function Join(segments: seq<seq<U8>>): seq<U8> {
    if segments == [] then [] else segments[0] + [NUL] + Join(segments[1..])
  }

  function Print(entries: seq<ListingEntry>): seq<U8> {
    Join(seq(|entries|, i requires 0 <= i < |entries| => PrintEntry(entries[i])))
  }

  /** Entries the text format can carry. */
  predicate Printable(e: ListingEntry) {
    && NUL !in e.name
    && (e.kind == File ==> TAB !in e.name)
    && (e.kind != File ==> e.size == None)
  }

  lemma IndexOfUnique(s: seq<U8>, b: U8, k: nat)
    requires k <= |s| && forall i :: 0 <= i < k ==> s[i] != b
    requires k < |s| ==> s[k] == b
    ensures IndexOf(s, b) == k
  {
  }

  lemma {:induction false} SomesConcat<T>(a: seq<Option<T>>, b: seq<Option<T>>)
    ensures Somes(a + b) == Somes(a) + Somes(b)
  {
    if a == [] {
      assert a + b == b;
    } else {
      assert (a + b)[1..] == a[1..] + b;
      SomesConcat(a[1..], b);
    }
  }

  lemma ParseSegmentsConcat(a: seq<seq<U8>>, b: seq<seq<U8>>)
    ensures ParseSegments(a + b) == ParseSegments(a) + ParseSegments(b)
  {
    assert ParseEach(a + b) == ParseEach(a) + ParseEach(b);
    SomesConcat(ParseEach(a), ParseEach(b));
  }

  lemma ParseOneSegment(segment: seq<U8>)
    ensures ParseSegments([segment]) == match ParseEntry(segment) case Some(e) => [e] case None => []
  {
    var options := [ParseEntry(segment)];
    assert ParseEach([segment]) == options;
    assert Somes(options[1..]) == [];
    assert Somes(options) == match options[0] case Some(e) => [e] case None => [];
  }

  lemma SplitAt(text: seq<U8>, k: nat)
    requires k < |text| && text[k] == NUL && forall i :: 0 <= i < k ==> text[i] != NUL
    ensures Split(text) == [text[..k]] + Split(text[k + 1..])
  {
    hide Split;
    IndexOfUnique(text, NUL, k);
    SplitUnfolded(text);
  }

  lemma SplitUnfolded(text: seq<U8>)
    ensures var k := IndexOf(text, NUL);
            Split(text) == if k == |text| then [text] else [text[..k]] + Split(text[k + 1..])
  {
    hide IndexOf;
  }

  lemma {:induction false} SplitConcat(a: seq<U8>, b: seq<U8>)
    ensures Split(a + [NUL] + b) == Split(a) + Split(b)
    decreases |a|
  {
    hide Split;
    var text := a + [NUL] + b;
    var k := IndexOf(a, NUL);
    SplitUnfolded(a);
    SplitAt(text, k);
    assert text[..k] == a[..k];
    if k == |a| {
      assert text[..k] == a && text[k + 1..] == b;
    } else {
      assert text[k + 1..] == a[k + 1..] + [NUL] + b;
      SplitConcat(a[k + 1..], b);
      assert [a[..k]] + (Split(a[k + 1..]) + Split(b)) == ([a[..k]] + Split(a[k + 1..])) + Split(b);
    }
  }

  /** A NUL separates: the entries of the whole are the entries of the two sides. */
  lemma ParseConcat(a: seq<U8>, b: seq<U8>)
    ensures Parse(a + [NUL] + b) == Parse(a) + Parse(b)
  {
    SplitConcat(a, b);
    ParseSegmentsConcat(Split(a), Split(b));
  }

  lemma ParseNulFree(segment: seq<U8>)
    requires NUL !in segment
    ensures Parse(segment) == ParseSegments([segment])
  {
    IndexOfUnique(segment, NUL, |segment|);
    assert Split(segment) == [segment];
  }

  lemma ParseNoise(noise: seq<U8>)
    requires NUL !in noise
    requires noise == [] || KindFromByte(noise[0]) == None
    ensures Parse(noise) == []
  {
    ParseNulFree(noise);
    ParseOneSegment(noise);
  }

  /** Empty segments and segments of an unknown kind can be inserted anywhere. */
  lemma ParseIgnoresNoise(a: seq<U8>, noise: seq<U8>, b: seq<U8>)
    requires NUL !in noise
    requires noise == [] || KindFromByte(noise[0]) == None
    ensures Parse(a + [NUL] + noise + [NUL] + b) == Parse(a + [NUL] + b)
  {
    hide Parse;
    calc {
      Parse(a + [NUL] + noise + [NUL] + b);
      { assert a + [NUL] + noise + [NUL] + b == a + [NUL] + (noise + [NUL] + b); }
      Parse(a + [NUL] + (noise + [NUL] + b));
      { ParseConcat(a, noise + [NUL] + b); }
      Parse(a) + Parse(noise + [NUL] + b);
      { ParseConcat(noise, b); }
      Parse(a) + (Parse(noise) + Parse(b));
      { ParseNoise(noise); }
      Parse(a) + Parse(b);
      { ParseConcat(a, b); }
      Parse(a + [NUL] + b);
    }
  }

  lemma ParsePrintedSize(n: U64)
    ensures ParseU64(PrintNat(n)) == Some(n)
  {
    assert PrintNat(n)[0] in PrintNat(n);
  }

  lemma ParsePrintEntry(e: ListingEntry)
    requires Printable(e)
    ensures ParseEntry(PrintEntry(e)) == Some(e)
  {
    var segment := PrintEntry(e);
    var rest := segment[1..];
    match e.size
    case Some(n) =>
      assert rest == e.name + [TAB] + PrintNat(n);
      assert forall i :: 0 <= i < |e.name| ==> rest[i] == e.name[i];
      IndexOfUnique(rest, TAB, |e.name|);
      assert rest[..|e.name|] == e.name && rest[|e.name| + 1..] == PrintNat(n);
      ParsePrintedSize(n);
    case None =>
      assert rest == e.name;
      if e.kind == File {
        IndexOfUnique(rest, TAB, |rest|);
      }
  }

  predicate NulFree(segments: seq<seq<U8>>) {
    forall i :: 0 <= i < |segments| ==> NUL !in segments[i]
  }

  lemma ParseNothing()
    ensures ParseSegments([]) == []
  {
  }

  /** Parsing joined segments is parsing them one by one. */
  lemma {:induction false} ParseJoin(segments: seq<seq<U8>>)
    requires NulFree(segments)
    ensures Parse(Join(segments)) == ParseSegments(segments)
    decreases |segments|
  {
    hide Parse, ParseSegments;
    if segments == [] {
      ParseNoise([]);
      ParseNothing();
    } else {
      var first, rest := segments[0], segments[1..];
      ParseConcat(first, Join(rest));
      ParseNulFree(first);
      ParseJoin(rest);
      ParseSegmentsConcat([first], rest);
      assert [first] + rest == segments;
    }
  }

  lemma PrintEntryNulFree(e: ListingEntry)
    requires Printable(e)
    ensures NUL !in PrintEntry(e)
  {
  }

  lemma {:induction false} ParseTexts(entries: seq<ListingEntry>, texts: seq<seq<U8>>)
    requires |texts| == |entries|
    requires forall i :: 0 <= i < |entries| ==> Printable(entries[i]) && texts[i] == PrintEntry(entries[i])
    ensures ParseSegments(texts) == entries
    decreases |entries|
  {
    if entries != [] {
      ParsePrintEntry(entries[0]);
      ParseTexts(entries[1..], texts[1..]);
      ParseOneSegment(texts[0]);
      ParseSegmentsConcat([texts[0]], texts[1..]);
      assert [texts[0]] + texts[1..] == texts;
    }
  }

  /** The parser undoes the printer. */
  lemma ParsePrint(entries: seq<ListingEntry>)
    requires forall i :: 0 <= i < |entries| ==> Printable(entries[i])
    ensures Parse(Print(entries)) == entries
  {
    var texts := seq(|entries|, i requires 0 <= i < |entries| => PrintEntry(entries[i]));
    forall i | 0 <= i < |entries| ensures NUL !in texts[i] {
      PrintEntryNulFree(entries[i]);
    }
    ParseJoin(texts);
    ParseTexts(entries, texts);
  }
}
