/** `list_directory_entries` (mavftp/client.rs): pages asked for by the number of entries seen so far. */
module DirectoryListing {
  import opened Wrappers
  import opened Bytes
  import opened FtpProtocol
  import opened FtpServer
  import opened Transport
  import opened InOrderLink
  import opened Listing

  type Entries = seq<ListingEntry>

  function ListRequest(s: U16, path: Path, offset: U32): FtpPayload {
    PathRequest(LIST_DIRECTORY, s, path).(offset := offset)
  }

  datatype Listed = Listed(result: Result<Entries, FtpFailure>, link: Link, requests: nat)

  /** Asks for pages from `offset` on, having found the entries so far. */
  function ListFrom(l: Link, target: Target, path: Path, offset: U32, found: Entries): Listed
    decreases |l.schedule|
  {
    var (s, l1) := Draw(l);
    var (r, l2) := SendReceive(l1, target, ListRequest(s, path, offset));
    if r.Failure? then Listed(Failure(r.error), l2, 1)
    else
      var nak := CheckNak(r.value);
      if nak.Some? then
        Listed(if nak.value.errCode == EOF then Success(found) else Failure(Refused(nak.value)), l2, 1)
      else
        var entries := Parse(r.value.data);
        if entries == [] then Listed(Success(found), l2, 1)
        else
          var rest := ListFrom(l2, target, path, Add32(offset, |entries|), found + entries);
          rest.(requests := rest.requests + 1)
  }

  method ListDirectoryEntries(hub: Hub, target: Target, path: Path)
    returns (r: Result<Entries, FtpFailure>, requests: nat)
    modifies hub
    ensures Listed(r, hub.View(), requests) == ListFrom(old(hub.View()), target, path, 0, [])
  {
    ghost var start := ListFrom(hub.View(), target, path, 0, []);
    var allEntries: Entries := [];
    var offset: U32 := 0;
    requests := 0;
    while true
      invariant var rest := ListFrom(hub.View(), target, path, offset, allEntries);
                rest.(requests := requests + rest.requests) == start
      decreases |hub.schedule|
    {
      var s := hub.NextSeq();
      var resp := hub.SendAndReceive(target, ListRequest(s, path, offset));
      requests := requests + 1;
      if resp.Failure? {
        return Failure(resp.error), requests;
      }
      var nak := CheckNak(resp.value);
      if nak.Some? {
        if nak.value.errCode == EOF {
          break;
        }
        return Failure(Refused(nak.value)), requests;
      }
      var entries := Parse(resp.value.data);
      if entries == [] {
        break;
      }
      offset := Add32(offset, |entries|);
      allEntries := allEntries + entries;
    }
    r := Success(allEntries);
  }

  // ---- Completeness over an in-order link ----

  /** No value comes after a missing one. */
  predicate GapFree<T>(options: seq<Option<T>>) {
    forall i, j :: 0 <= i < j < |options| && options[j].Some? ==> options[i].Some?
  }

  /** No listing text that parses comes after one that does not. */
  predicate Orderly(texts: seq<seq<U8>>) {
    GapFree(ParseEach(texts))
  }

  predicate Serves(srv: Server, path: Path, texts: seq<seq<U8>>) {
    WirePath(path) in srv.listings && srv.listings[WirePath(path)] == texts
  }

  lemma {:induction false} SomesNone<T>(options: seq<Option<T>>)
    requires forall i :: 0 <= i < |options| ==> options[i].None?
    ensures Somes(options) == []
    decreases |options|
  {
    if options != [] {
      SomesNone(options[1..]);
    }
  }

  /** The values of a gap-free run are its first elements. */
  lemma {:induction false} SomesRun<T>(options: seq<Option<T>>)
    requires GapFree(options)
    ensures |Somes(options)| <= |options|
    ensures forall i :: 0 <= i < |options| ==> (options[i].Some? <==> i < |Somes(options)|)
    ensures forall i :: 0 <= i < |Somes(options)| ==> options[i] == Some(Somes(options)[i])
    decreases |options|
  {
    if options != [] {
      var rest := options[1..];
      if options[0].Some? {
        SomesRun(rest);
        assert forall i :: 1 <= i < |options| ==> options[i] == rest[i - 1];
      } else {
        SomesNone(options);
      }
    }
  }

  /** A part of a gap-free run has the same part of its values. */
  lemma SomesPart<T>(options: seq<Option<T>>, from: nat, to: nat)
    requires GapFree(options) && from <= to <= |options| && from <= |Somes(options)|
    ensures Somes(options[from..to]) == Somes(options)[from..Max(from, Min(to, |Somes(options)|))]
  {
    var part := options[from..to];
    SomesRun(options);
    SomesRun(part);
    var m := |Somes(part)|;
    assert forall i :: 0 <= i < |part| ==> part[i] == options[from + i];
    assert m < |part| ==> part[m].None?;
    assert m > 0 ==> part[m - 1].Some?;
    assert m == Max(from, Min(to, |Somes(options)|)) - from;
    assert forall i :: 0 <= i < m ==> Some(Somes(part)[i]) == Some(Somes(options)[from + i]);
  }

  /** A legal page at the offset, the end of the listing past it, or some other refusal. */
  predicate IsPage(reply: FtpPayload, texts: seq<seq<U8>>, offset: nat, count: nat) {
    match CheckNak(reply)
    case Some(nak) => nak.errCode == EOF ==> offset >= |texts|
    case None => LegalPage(texts, offset, count) && reply.data == Join(texts[offset..offset + count])
  }

  /** What one answered request brings; the server's listing stays as it is. */
  lemma PageAnswer(l: Link, path: Path, offset: U32, texts: seq<seq<U8>>) returns (count: nat)
    requires Startable(l) && Serves(l.net.server, path, texts)
    ensures var (r, l') := SendReceive(Draw(l).1, l.vehicle, ListRequest(Draw(l).0, path, offset));
            r.Success? ==>
              && Ready(l') && l'.vehicle == l.vehicle && Serves(l'.net.server, path, texts)
              && IsPage(r.value, texts, offset, count)
  {
    var p := ListRequest(Draw(l).0, path, offset);
    assert NormalData(p) == WirePath(path);
    var c := ExactlyOnce(Draw(l).1, p);
    GapsShrink(l);
    count := if c.choice.Proceed? then c.choice.count else 0;
  }

  lemma ParsePart(texts: seq<seq<U8>>, from: nat, to: nat)
    requires Orderly(texts) && from <= to <= |texts| && from <= |ParseSegments(texts)|
    ensures ParseSegments(texts[from..to]) == ParseSegments(texts)[from..Max(from, Min(to, |ParseSegments(texts)|))]
  {
    assert ParseEach(texts[from..to]) == ParseEach(texts)[from..to];
    SomesPart(ParseEach(texts), from, to);
  }

  /** Taking a legal page moves the entries found so far one page on. */
  lemma PageStep(texts: seq<seq<U8>>, offset: nat, count: nat)
    requires Orderly(texts) && NulFree(texts) && LegalPage(texts, offset, count)
    requires offset <= |ParseSegments(texts)|
    ensures var all, entries := ParseSegments(texts), Parse(Join(texts[offset..offset + count]));
            && offset + |entries| <= |all|
            && all[..offset] + entries == all[..offset + |entries|]
            && (entries == [] ==> offset == |all|)
  {
    hide Parse, ParseSegments, Join;
    ParseJoin(texts[offset..offset + count]);
    ParsePart(texts, offset, offset + count);
  }

  lemma {:induction false} RestComplete(l: Link, path: Path, texts: seq<seq<U8>>, offset: nat)
    requires Startable(l) && Serves(l.net.server, path, texts)
    requires Orderly(texts) && NulFree(texts) && |texts| < 0x1_0000_0000
    requires offset <= |ParseSegments(texts)| <= |texts|
    ensures var all := ParseSegments(texts);
            var r := ListFrom(l, l.vehicle, path, offset, all[..offset]);
            (r.result.Success? ==> r.result.value == all) && r.requests <= |all| - offset + 1
    decreases |ParseSegments(texts)| - offset
  {
    var all := ParseSegments(texts);
    var count := PageAnswer(l, path, offset, texts);
    var (r, l2) := SendReceive(Draw(l).1, l.vehicle, ListRequest(Draw(l).0, path, offset));
    SomesRun(ParseEach(texts));
    if r.Success? && CheckNak(r.value).None? {
      var entries := Parse(r.value.data);
      PageStep(texts, offset, count);
      if entries != [] {
        Add32Exact(offset, |entries|);
        ReadyIsStartable(l2);
        RestComplete(l2, path, texts, offset + |entries|);
      }
    }
  }

  /**
   A listing that reports success is the whole listing, in order, with no gap and no repeat, and
   took at most one request per entry and one more, for every pattern of lost and repeated packets.
   */
  lemma ListingComplete(l: Link, path: Path, texts: seq<seq<U8>>)
    requires Startable(l) && Serves(l.net.server, path, texts)
    requires Orderly(texts) && NulFree(texts) && |texts| < 0x1_0000_0000
    ensures var r := ListFrom(l, l.vehicle, path, 0, []);
            && (r.result.Success? ==> r.result.value == ParseSegments(texts))
            && r.requests <= |ParseSegments(texts)| + 1
  {
    SomesRun(ParseEach(texts));
    assert ParseSegments(texts)[..0] == [];
    RestComplete(l, path, texts, 0);
  }

  // ---- What goes wrong when the listing is not orderly ----

  /** One text per page, every request answered at once. */
  predicate Idle(l: Link, path: Path, texts: seq<seq<U8>>, n: nat) {
    IdleLink(l, n) && Serves(l.net.server, path, texts)
  }

  /** The text and the NUL that closes it fit a reply. */
  predicate Fits(text: seq<U8>) {
    |text| < FTP_DATA_MAX_LEN
  }

  lemma JoinOne(text: seq<U8>)
    requires NUL !in text
    ensures Join([text]) == text + [NUL] && Parse(Join([text])) == ParseSegments([text])
  {
    assert [text][1..] == [];
    assert Join([text]) == text + [NUL] + Join([]);
    ParseJoin([text]);
  }

  /** The server's answer with the one text at the offset. */
  lemma OneTextPage(srv: Server, req: FtpPayload, texts: seq<seq<U8>>)
    requires req.opcode == LIST_DIRECTORY && req.data in srv.listings && srv.listings[req.data] == texts
    requires req.offset < |texts| && Fits(texts[req.offset]) && NulFree(texts)
    requires Sane(srv) && !JustServed(srv, req.seqNumber)
    ensures var (after, reply) := Serve(srv, req, Proceed(0, 1));
            && after.listings == srv.listings && JustServed(after, req.seqNumber) && Sane(after)
            && CheckNak(reply).None?
            && Parse(reply.data) == ParseSegments([texts[req.offset]])
  {
    hide Parse, ParseSegments, Join;
    var text := texts[req.offset];
    assert texts[req.offset..req.offset + 1] == [text];
    JoinOne(text);
    ServeAnswers(srv, req, Proceed(0, 1));
  }

  lemma PromptPage(l: Link, path: Path, texts: seq<seq<U8>>, n: nat, offset: U32)
    requires Idle(l, path, texts, n) && n > 0 && offset < |texts| && Fits(texts[offset]) && NulFree(texts)
    ensures var (r, l') := SendReceive(Draw(l).1, l.vehicle, ListRequest(Draw(l).0, path, offset));
            && r.Success? && CheckNak(r.value).None? && Parse(r.value.data) == ParseSegments([texts[offset]])
            && Idle(l', path, texts, n - 1) && l'.vehicle == l.vehicle
  {
    var p := ListRequest(Draw(l).0, path, offset);
    assert NormalData(p) == WirePath(path);
    OneTextPage(l.net.server, Normalized(p), texts);
    PromptSend(l, p, n);
  }

  /** On an idle link a text that does not parse ends the listing, as if the end were reached. */
  lemma PromptStop(l: Link, path: Path, texts: seq<seq<U8>>, n: nat, offset: U32, found: Entries)
    requires Idle(l, path, texts, n) && n > 0 && offset < |texts| && Fits(texts[offset]) && NulFree(texts)
    requires ParseSegments([texts[offset]]) == []
    ensures ListFrom(l, l.vehicle, path, offset, found).result == Success(found)
  {
    PromptPage(l, path, texts, n, offset);
  }

  /** On an idle link a text that parses is added, and the next one is asked for. */
  lemma PromptRound(l: Link, path: Path, texts: seq<seq<U8>>, n: nat, offset: U32, found: Entries, e: ListingEntry)
    returns (l': Link)
    requires Idle(l, path, texts, n) && n > 0 && offset < |texts| < 0x1_0000_0000
    requires Fits(texts[offset]) && NulFree(texts)
    requires ParseSegments([texts[offset]]) == [e]
    ensures Idle(l', path, texts, n - 1) && l'.vehicle == l.vehicle
    ensures ListFrom(l, l.vehicle, path, offset, found).result
         == ListFrom(l', l.vehicle, path, offset + 1, found + [e]).result
  {
    hide Transport.SendReceive;
    PromptPage(l, path, texts, n, offset);
    l' := SendReceive(Draw(l).1, l.vehicle, ListRequest(Draw(l).0, path, offset)).1;
    Add32Exact(offset, 1);
  }

  lemma ParseNext(texts: seq<seq<U8>>, from: nat, to: nat, found: Entries)
    requires from < to <= |texts|
    ensures found + ParseSegments(texts[from..to])
         == (found + ParseSegments([texts[from]])) + ParseSegments(texts[from + 1..to])
  {
    assert texts[from..to] == [texts[from]] + texts[from + 1..to];
    ParseSegmentsConcat([texts[from]], texts[from + 1..to]);
  }

  lemma ParseNothing(texts: seq<seq<U8>>, at: nat, found: Entries)
    requires at <= |texts|
    ensures found + ParseSegments(texts[at..at]) == found
  {
    assert ParseEach(texts[at..at]) == [];
  }

  /** The client stops at the first text that does not parse. */
  lemma {:induction false} StopsAtBadText(
      l: Link, path: Path, texts: seq<seq<U8>>, offset: nat, bad: nat, found: Entries)
    requires offset <= bad < |texts| < 0x1_0000_0000 && NulFree(texts)
    requires forall i :: 0 <= i <= bad ==> Fits(texts[i])
    requires forall i :: 0 <= i < bad ==> |ParseSegments([texts[i]])| == 1
    requires ParseSegments([texts[bad]]) == []
    requires Idle(l, path, texts, bad + 1 - offset)
    ensures ListFrom(l, l.vehicle, path, offset, found).result == Success(found + ParseSegments(texts[offset..bad]))
    decreases bad - offset
  {
    hide ListFrom, ParseSegments, Serves, Sane;
    if offset < bad {
      var entry := ParseSegments([texts[offset]])[0];
      var l' := PromptRound(l, path, texts, bad + 1 - offset, offset, found, entry);
      StopsAtBadText(l', path, texts, offset + 1, bad, found + [entry]);
      ParseNext(texts, offset, bad, found);
    } else {
      PromptStop(l, path, texts, 1, offset, found);
      ParseNothing(texts, bad, found);
    }
  }

  lemma {:induction false} SomesCount<T>(options: seq<Option<T>>, bad: nat, good: nat)
    requires bad < good < |options| && options[good].Some?
    ensures |Somes(options)| > |Somes(options[..bad])|
  {
    assert options == options[..bad] + options[bad..good] + [options[good]] + options[good + 1..];
    SomesConcat(options[..bad] + options[bad..good] + [options[good]], options[good + 1..]);
    SomesConcat(options[..bad] + options[bad..good], [options[good]]);
    SomesConcat(options[..bad], options[bad..good]);
  }

  predicate CompleteRun(l: Link, path: Path, texts: seq<seq<U8>>) {
    var r := ListFrom(l, l.vehicle, path, 0, []).result;
    r.Success? ==> r.value == ParseSegments(texts)
  }

  /** A listing with a good text after a bad one is cut short by some run, which still reports success. */
  lemma DisorderlyLosesEntries(path: Path, texts: seq<seq<U8>>, bad: nat, good: nat) returns (l: Link)
    requires |texts| < 0x1_0000_0000 && NulFree(texts) && bad < |texts|
    requires forall i :: 0 <= i <= bad ==> Fits(texts[i])
    requires bad < good < |texts| && ParseEach(texts)[bad].None? && ParseEach(texts)[good].Some?
    requires forall i :: 0 <= i < bad ==> ParseEach(texts)[i].Some?
    ensures Startable(l) && Serves(l.net.server, path, texts)
    ensures !CompleteRun(l, path, texts)
  {
    hide ListFrom, Somes, ParseEntry, WirePath;
    var srv := Server(map[], map[WirePath(path) := texts], map[], None);
    l := Link(Target(1, 1), 0, [], Net([], [], srv), PromptSchedule(bad + 1));
    IdleIsStartable(l, bad + 1);
    forall i | 0 <= i <= bad
      ensures |ParseSegments([texts[i]])| == if i < bad then 1 else 0
    {
      ParseOneSegment(texts[i]);
      assert ParseEach(texts)[i] == ParseEntry(texts[i]);
    }
    StopsAtBadText(l, path, texts, 0, bad, []);
    assert texts[0..bad] == texts[..bad];
    assert ParseEach(texts[..bad]) == ParseEach(texts)[..bad];
    SomesCount(ParseEach(texts), bad, good);
  }

  // ---- A text that no reply can carry ----

  /** A text no reply can carry, with nothing before it that would end the listing. */
  predicate Blocked(texts: seq<seq<U8>>) {
    exists t :: 0 <= t < |texts| && !Fits(texts[t]) && forall i :: 0 <= i < t ==> ParseEach(texts)[i].Some?
  }

  lemma {:induction false} JoinLength(segments: seq<seq<U8>>, k: nat)
    requires k < |segments|
    ensures |Join(segments)| > |segments[k]|
    decreases k
  {
    if k > 0 {
      JoinLength(segments[1..], k - 1);
    }
  }

  lemma {:induction false} SomesAll<T>(options: seq<Option<T>>)
    requires forall i :: 0 <= i < |options| ==> options[i].Some?
    ensures |Somes(options)| == |options|
    decreases |options|
  {
    if options != [] {
      SomesAll(options[1..]);
    }
  }

  lemma PageFits(texts: seq<seq<U8>>, offset: nat, count: nat, k: nat)
    requires LegalPage(texts, offset, count) && offset <= k < offset + count
    ensures Fits(texts[k])
  {
    JoinLength(texts[offset..offset + count], k - offset);
  }

  /** A legal page before the text stays before it, and all its entries parse. */
  lemma PageBeforeText(texts: seq<seq<U8>>, offset: nat, count: nat, t: nat)
    requires NulFree(texts) && LegalPage(texts, offset, count) && offset <= t < |texts| && !Fits(texts[t])
    requires forall i :: 0 <= i < t ==> ParseEach(texts)[i].Some?
    ensures offset + count <= t && |Parse(Join(texts[offset..offset + count]))| == count
  {
    hide Parse, Join;
    var page := texts[offset..offset + count];
    if t < offset + count {
      PageFits(texts, offset, count, t);
    }
    forall i | 0 <= i < |page| ensures ParseEach(page)[i].Some? {
      assert page[i] == texts[offset + i] && ParseEach(texts)[offset + i].Some?;
    }
    SomesAll(ParseEach(page));
    assert ParseSegments(page) == Somes(ParseEach(page));
    ParseJoin(page);
  }

  /** Before such a text the listing cannot succeed: the text is asked for and always refused. */
  lemma {:induction false} BlockedFails(
      l: Link, path: Path, texts: seq<seq<U8>>, offset: U32, found: Entries, t: nat)
    requires Startable(l) && Serves(l.net.server, path, texts) && NulFree(texts) && |texts| < 0x1_0000_0000
    requires offset <= t < |texts| && !Fits(texts[t])
    requires forall i :: 0 <= i < t ==> ParseEach(texts)[i].Some?
    ensures ListFrom(l, l.vehicle, path, offset, found).result.Failure?
    decreases t - offset
  {
    hide Parse, ParseEach, Join;
    var count := PageAnswer(l, path, offset, texts);
    var (r, l2) := SendReceive(Draw(l).1, l.vehicle, ListRequest(Draw(l).0, path, offset));
    if r.Success? && CheckNak(r.value).None? {
      PageBeforeText(texts, offset, count, t);
      var entries := Parse(r.value.data);
      Add32Exact(offset, |entries|);
      ReadyIsStartable(l2);
      BlockedFails(l2, path, texts, offset + count, found + entries, t);
    }
  }

  /**
   Paging by the number of parsed entries is right for every run exactly when the listing is
   orderly, that is, the server reports no entry of an unknown kind before one of a known kind;
   or when no run succeeds, for a text that no reply can carry.
   */
  lemma ListingCompleteExactly(path: Path, texts: seq<seq<U8>>)
    requires |texts| < 0x1_0000_0000 && NulFree(texts)
    ensures (forall l :: Startable(l) && Serves(l.net.server, path, texts) ==> CompleteRun(l, path, texts))
       <==> Orderly(texts) || Blocked(texts)
  {
    if Orderly(texts) {
      forall l | Startable(l) && Serves(l.net.server, path, texts)
        ensures CompleteRun(l, path, texts)
      {
        ListingComplete(l, path, texts);
      }
    } else if Blocked(texts) {
      var t :| 0 <= t < |texts| && !Fits(texts[t]) && forall i :: 0 <= i < t ==> ParseEach(texts)[i].Some?;
      forall l | Startable(l) && Serves(l.net.server, path, texts)
        ensures CompleteRun(l, path, texts)
      {
        BlockedFails(l, path, texts, 0, [], t);
      }
    } else {
      var i, good :| 0 <= i < good < |texts| && ParseEach(texts)[i].None? && ParseEach(texts)[good].Some?;
      var bad := FirstBad(ParseEach(texts), i);
      assert forall k :: 0 <= k <= bad ==> Fits(texts[k]);
      var l := DisorderlyLosesEntries(path, texts, bad, good);
    }
  }

  // ---- Listings that succeed ----

  lemma ListPastEnd(srv: Server, req: FtpPayload)
    requires req.opcode == LIST_DIRECTORY && req.data in srv.listings && req.offset >= |srv.listings[req.data]|
    ensures Execute(srv, req, PROMPT).1 == NakReply(req, EOF)
    ensures CheckNak(NakReply(req, EOF)) == Some(FtpNakError(EOF, None))
  {
  }

  /** On an idle link the end of the listing is told at once. */
  lemma PromptEnd(l: Link, path: Path, texts: seq<seq<U8>>, n: nat, offset: U32, found: Entries)
    requires Idle(l, path, texts, n) && n > 0 && offset >= |texts|
    ensures ListFrom(l, l.vehicle, path, offset, found).result == Success(found)
  {
    hide Execute, Transport.SendReceive, NakReply, CheckNak;
    var p := ListRequest(Draw(l).0, path, offset);
    assert NormalData(p) == WirePath(path);
    PromptSend(l, p, n);
    ListPastEnd(l.net.server, Normalized(p));
  }

  lemma {:induction false} PromptListing(
      l: Link, path: Path, texts: seq<seq<U8>>, n: nat, offset: nat, found: Entries)
    requires Idle(l, path, texts, n) && offset <= |texts| < 0x1_0000_0000 && n > |texts| - offset
    requires NulFree(texts) && forall i :: 0 <= i < |texts| ==> Fits(texts[i])
    ensures ListFrom(l, l.vehicle, path, offset, found).result.Success?
    decreases |texts| - offset
  {
    hide ListFrom, ParseSegments, Serves, IdleLink;
    if offset == |texts| {
      PromptEnd(l, path, texts, n, offset, found);
    } else {
      ParseOneSegment(texts[offset]);
      var entries := ParseSegments([texts[offset]]);
      if entries == [] {
        PromptStop(l, path, texts, n, offset, found);
      } else {
        var l' := PromptRound(l, path, texts, n, offset, found, entries[0]);
        PromptListing(l', path, texts, n - 1, offset + 1, found + [entries[0]]);
      }
    }
  }

  /** Over an idle link to a vehicle that answers at once, every orderly listing of fitting texts is listed whole. */
  lemma ListingSucceeds(l: Link, path: Path, texts: seq<seq<U8>>)
    requires Idle(l, path, texts, |texts| + 1) && |texts| < 0x1_0000_0000
    requires Orderly(texts) && NulFree(texts) && forall i :: 0 <= i < |texts| ==> Fits(texts[i])
    ensures Startable(l) && ListFrom(l, l.vehicle, path, 0, []).result == Success(ParseSegments(texts))
  {
    hide ListFrom, IdleLink, Orderly, Serves, ParseSegments;
    IdleIsStartable(l, |texts| + 1);
    PromptListing(l, path, texts, |texts| + 1, 0, []);
    ListingComplete(l, path, texts);
  }

  lemma {:induction false} FirstBad<T>(options: seq<Option<T>>, i: nat) returns (bad: nat)
    requires i < |options| && options[i].None?
    ensures bad <= i && options[bad].None? && forall k :: 0 <= k < bad ==> options[k].Some?
  {
    bad := 0;
    while options[bad].Some?
      invariant bad <= i && forall k :: 0 <= k < bad ==> options[k].Some?
      decreases i - bad
    {
      bad := bad + 1;
    }
  }

  /** A refused page is the listing's error, whatever was found before it, and nothing more is asked. */
  lemma RefusedPageFails(l: Link, path: Path, offset: U32, found: Entries, code: U8, later: seq<Action>)
    requires Still(l) && l.schedule == [ServeNext(Refuse(code)), DeliverReply] + later
    ensures var r := ListFrom(l, l.vehicle, path, offset, found);
            r.result == Failure(RefusalOf(code)) && r.requests == 1 && r.link.schedule == later
  {
    hide SendReceive, Still, Execute;
    var p := ListRequest(Draw(l).0, path, offset);
    NextAnswered(l, p, Refuse(code), later);
    RefusalIsNoEnd(l.net.server, Normalized(p), code);
  }

  lemma RefusalIsNoEnd(srv: Server, req: FtpPayload, code: U8)
    ensures var nak := CheckNak(Execute(srv, req, Refuse(code)).1);
            nak.Some? && nak.value.errCode != EOF && Refused(nak.value) == RefusalOf(code)
  {
  }
}
