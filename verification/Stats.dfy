/**
 Accumulated statistics (stats/accumulated, hub/actor.rs `stats_task`): a flat total and a
 system / component / message index, fed by the same stream.
 */
module Stats {
  import opened Bytes

  datatype Message = Message(system: U8, component: U8, id: U32, packetSize: nat)

  /** The counters of `AccumulatedStatsInner` that do not depend on the clock. */
  datatype Inner = Inner(messages: U64, bytes: U64)

  const ZERO := Inner(0, 0)

  function New(m: Message): Inner {
    Inner(1, m.packetSize % 0x1_0000_0000_0000_0000)
  }

  function Updated(i: Inner, m: Message): Inner {
    Inner(Add64(i.messages, 1), Add64(i.bytes, m.packetSize))
  }

  /** Creating an entry for its first message is updating an empty one. */
  lemma NewIsUpdated(m: Message)
    ensures New(m) == Updated(ZERO, m)
  {
  }

  type ComponentStats = map<U32, Inner>
  type SystemStats = map<U8, ComponentStats>
  type Index = map<U8, SystemStats>

  /** The entry of a map, or a default, as `entry().or_default()` reaches it. */
  function EntryOr<K, V>(m: map<K, V>, k: K, default: V): V {
    if k in m then m[k] else default
  }

  function InComponent(c: ComponentStats, m: Message): ComponentStats {
    c[m.id := if m.id in c then Updated(c[m.id], m) else New(m)]
  }

  function InSystem(s: SystemStats, m: Message): SystemStats {
    s[m.component := InComponent(EntryOr(s, m.component, map[]), m)]
  }

  function InIndex(index: Index, m: Message): Index {
    index[m.system := InSystem(EntryOr(index, m.system, map[]), m)]
  }

  // ---- What the stream says ----

  predicate Matches(m: Message, system: U8, component: U8, id: U32) {
    m.system == system && m.component == component && m.id == id
  }

  /** Count and byte sum of the messages that match, wrapped to 64 bits. */
  function Tally(ms: seq<Message>, system: U8, component: U8, id: U32): Inner {
    if ms == [] then ZERO
    else
      var front, last := Tally(ms[..|ms| - 1], system, component, id), ms[|ms| - 1];
      if Matches(last, system, component, id) then Updated(front, last) else front
  }

  function Total(ms: seq<Message>): Inner {
    if ms == [] then ZERO else Updated(Total(ms[..|ms| - 1]), ms[|ms| - 1])
  }

  predicate Occurs(ms: seq<Message>, system: U8, component: U8, id: U32) {
    exists k :: 0 <= k < |ms| && Matches(ms[k], system, component, id)
  }

  predicate Has(index: Index, system: U8, component: U8, id: U32) {
    system in index && component in index[system] && id in index[system][component]
  }

  /** The index holds exactly the keys that occurred, each with the tally of its messages. */
  ghost predicate Indexes(index: Index, ms: seq<Message>) {
    forall s: U8, c: U8, i: U32 ::
      && (Has(index, s, c, i) <==> Occurs(ms, s, c, i))
      && (Has(index, s, c, i) ==> index[s][c][i] == Tally(ms, s, c, i))
  }

  lemma OccursStep(ms: seq<Message>, m: Message, s: U8, c: U8, i: U32)
    ensures Occurs(ms + [m], s, c, i) <==> Occurs(ms, s, c, i) || Matches(m, s, c, i)
    ensures Tally(ms + [m], s, c, i)
         == if Matches(m, s, c, i) then Updated(Tally(ms, s, c, i), m) else Tally(ms, s, c, i)
  {
    var ms' := ms + [m];
    assert ms'[..|ms'| - 1] == ms && ms'[|ms|] == m;
    if Occurs(ms, s, c, i) {
      var k :| 0 <= k < |ms| && Matches(ms[k], s, c, i);
      assert ms'[k] == ms[k];
    }
  }

  lemma {:induction false} NoTally(ms: seq<Message>, s: U8, c: U8, i: U32)
    requires !Occurs(ms, s, c, i)
    ensures Tally(ms, s, c, i) == ZERO
    decreases |ms|
  {
    if ms != [] {
      var front, last := ms[..|ms| - 1], ms[|ms| - 1];
      assert front + [last] == ms;
      OccursStep(front, last, s, c, i);
      NoTally(front, s, c, i);
    }
  }

  /** Feeding one message keeps the index right. */
  lemma IndexStep(index: Index, ms: seq<Message>, m: Message)
    requires Indexes(index, ms)
    ensures Indexes(InIndex(index, m), ms + [m])
  {
    var index' := InIndex(index, m);
    forall s: U8, c: U8, i: U32
      ensures Has(index', s, c, i) <==> Occurs(ms + [m], s, c, i)
      ensures Has(index', s, c, i) ==> index'[s][c][i] == Tally(ms + [m], s, c, i)
    {
      OccursStep(ms, m, s, c, i);
      if Matches(m, s, c, i) && !Occurs(ms, s, c, i) {
        NoTally(ms, s, c, i);
        NewIsUpdated(m);
      }
    }
  }

  // ---- Summing the levels ----

  datatype Field = Messages | ByteCount

  function Get(i: Inner, f: Field): nat {
    match f case Messages => i.messages case ByteCount => i.bytes
  }

  function Amount(m: Message, f: Field): nat {
    match f case Messages => 1 case ByteCount => m.packetSize
  }

  ghost function Sum<K>(m: map<K, nat>): nat
    decreases |m|
  {
    if m == map[] then 0
    else
      var k :| k in m;
      m[k] + Sum(m - {k})
  }

  /** Any key can be taken out of a sum first. */
  lemma {:induction false} SumWithout<K>(m: map<K, nat>, k: K)
    requires k in m
    ensures Sum(m) == m[k] + Sum(m - {k})
    decreases |m|
  {
    var j :| j in m && Sum(m) == m[j] + Sum(m - {j});
    if j != k {
      SumWithout(m - {j}, k);
      SumWithout(m - {k}, j);
      assert m - {j} - {k} == m - {k} - {j};
    }
  }

  lemma SumUpdate<K>(m: map<K, nat>, k: K, v: nat)
    ensures Sum(m[k := v]) + EntryOr(m, k, 0) == Sum(m) + v
  {
    var m' := m[k := v];
    SumWithout(m', k);
    if k in m {
      SumWithout(m, k);
      assert m' - {k} == m - {k};
    } else {
      assert m' - {k} == m;
    }
  }

  function Values(c: ComponentStats, f: Field): map<U32, nat> {
    map i | i in c :: Get(c[i], f)
  }

  ghost function ComponentSum(c: ComponentStats, f: Field): nat {
    Sum(Values(c, f))
  }

  ghost function ComponentSums(s: SystemStats, f: Field): map<U8, nat> {
    map c | c in s :: ComponentSum(s[c], f)
  }

  ghost function SystemSum(s: SystemStats, f: Field): nat {
    Sum(ComponentSums(s, f))
  }

  ghost function SystemSums(index: Index, f: Field): map<U8, nat> {
    map s | s in index :: SystemSum(index[s], f)
  }

  ghost function IndexSum(index: Index, f: Field): nat {
    Sum(SystemSums(index, f))
  }

  /** Equal modulo 2^64. */
  predicate Same64(a: int, b: int) {
    a % 0x1_0000_0000_0000_0000 == b % 0x1_0000_0000_0000_0000
  }

  lemma GetUpdated(i: Inner, m: Message, f: Field)
    ensures Get(Updated(i, m), f) == Add64(Get(i, f), Amount(m, f))
  {
  }

  lemma Shift64(before: nat, old': nat, new': nat, after: nat, amount: nat)
    requires after + old' == before + new' && Same64(new', old' + amount)
    ensures Same64(after, before + amount)
  {
    assert after - (before + amount) == new' - (old' + amount);
  }

  /** Adding an amount to one summand, modulo 2^64, adds it to the sum. */
  lemma SumShift<K>(m: map<K, nat>, k: K, value: nat, amount: nat)
    requires Same64(value, EntryOr(m, k, 0) + amount)
    ensures Same64(Sum(m[k := value]), Sum(m) + amount)
  {
    SumUpdate(m, k, value);
    Shift64(Sum(m), EntryOr(m, k, 0), value, Sum(m[k := value]), amount);
  }

  lemma UpdatedShifts(i: Inner, m: Message, f: Field)
    ensures Same64(Get(Updated(i, m), f), Get(i, f) + Amount(m, f))
  {
    GetUpdated(i, m, f);
  }

  lemma ComponentSumStep(c: ComponentStats, m: Message, f: Field)
    ensures Same64(ComponentSum(InComponent(c, m), f), ComponentSum(c, f) + Amount(m, f))
  {
    hide Same64, Updated;
    var entry := EntryOr(c, m.id, ZERO);
    NewIsUpdated(m);
    UpdatedShifts(entry, m, f);
    var value := Get(Updated(entry, m), f);
    assert Values(InComponent(c, m), f) == Values(c, f)[m.id := value];
    assert EntryOr(Values(c, f), m.id, 0) == Get(entry, f);
    SumShift(Values(c, f), m.id, value, Amount(m, f));
  }

  lemma EmptySums(f: Field)
    ensures ComponentSum(map[], f) == 0 && SystemSum(map[], f) == 0 && IndexSum(map[], f) == 0
  {
  }

  lemma SystemSumStep(s: SystemStats, m: Message, f: Field)
    ensures Same64(SystemSum(InSystem(s, m), f), SystemSum(s, f) + Amount(m, f))
  {
    hide Same64, InComponent, ComponentSum;
    var entry := EntryOr(s, m.component, map[]);
    EmptySums(f);
    ComponentSumStep(entry, m, f);
    var value := ComponentSum(InComponent(entry, m), f);
    assert ComponentSums(InSystem(s, m), f) == ComponentSums(s, f)[m.component := value];
    assert EntryOr(ComponentSums(s, f), m.component, 0) == ComponentSum(entry, f);
    SumShift(ComponentSums(s, f), m.component, value, Amount(m, f));
  }

  lemma IndexSumStep(index: Index, m: Message, f: Field)
    ensures Same64(IndexSum(InIndex(index, m), f), IndexSum(index, f) + Amount(m, f))
  {
    hide Same64, InSystem, SystemSum;
    var entry := EntryOr(index, m.system, map[]);
    EmptySums(f);
    SystemSumStep(entry, m, f);
    var value := SystemSum(InSystem(entry, m), f);
    assert SystemSums(InIndex(index, m), f) == SystemSums(index, f)[m.system := value];
    assert EntryOr(SystemSums(index, f), m.system, 0) == SystemSum(entry, f);
    SumShift(SystemSums(index, f), m.system, value, Amount(m, f));
  }

  lemma Same64Adds(a: int, b: int, a': int, b': int, amount: int)
    requires Same64(a, b) && Same64(a', a + amount) && Same64(b', b + amount)
    ensures Same64(a', b')
  {
    assert Same64(a + amount, b + amount) by {
      Same64Shift(a, b, amount);
    }
  }

  lemma Same64Shift(a: int, b: int, amount: int)
    requires Same64(a, b)
    ensures Same64(a + amount, b + amount)
  {
    assert (a + amount) - (b + amount) == a - b;
  }

  /** The index a stream builds. */
  function IndexOf(ms: seq<Message>): Index {
    if ms == [] then map[] else InIndex(IndexOf(ms[..|ms| - 1]), ms[|ms| - 1])
  }

  lemma {:induction false} IndexCorrect(ms: seq<Message>)
    ensures Indexes(IndexOf(ms), ms)
    decreases |ms|
  {
    if ms != [] {
      var front, last := ms[..|ms| - 1], ms[|ms| - 1];
      assert front + [last] == ms;
      IndexCorrect(front);
      IndexStep(IndexOf(front), front, last);
    }
  }

  lemma AgreementStep(index: Index, total: Inner, m: Message, f: Field)
    requires Same64(IndexSum(index, f), Get(total, f))
    ensures Same64(IndexSum(InIndex(index, m), f), Get(Updated(total, m), f))
  {
    hide Same64, IndexSum, InIndex, Updated;
    IndexSumStep(index, m, f);
    UpdatedShifts(total, m, f);
    Same64Adds(IndexSum(index, f), Get(total, f),
               IndexSum(InIndex(index, m), f), Get(Updated(total, m), f), Amount(m, f));
  }

  /** For every stream, the sums over the three levels are the flat totals, modulo 2^64. */
  lemma {:induction false} IndexAgreesWithTotals(ms: seq<Message>, f: Field)
    ensures Same64(IndexSum(IndexOf(ms), f), Get(Total(ms), f))
    decreases |ms|
  {
    if ms == [] {
      EmptySums(f);
    } else {
      var front, last := ms[..|ms| - 1], ms[|ms| - 1];
      IndexAgreesWithTotals(front, f);
      AgreementStep(IndexOf(front), Total(front), last, f);
    }
  }

  /** Below 2^64 messages and bytes the totals are plain sums. */
  function PlainSum(ms: seq<Message>, f: Field): nat {
    if ms == [] then 0 else PlainSum(ms[..|ms| - 1], f) + Amount(ms[|ms| - 1], f)
  }

  lemma AddsModulo(a: nat, b: nat)
    ensures Add64(a % 0x1_0000_0000_0000_0000, b) == (a + b) % 0x1_0000_0000_0000_0000
  {
  }

  lemma {:induction false} TotalIsPlainSum(ms: seq<Message>, f: Field)
    ensures Get(Total(ms), f) == PlainSum(ms, f) % 0x1_0000_0000_0000_0000
    decreases |ms|
  {
    hide Updated, Amount;
    if ms != [] {
      var front, last := ms[..|ms| - 1], ms[|ms| - 1];
      TotalIsPlainSum(front, f);
      GetUpdated(Total(front), last, f);
      AddsModulo(PlainSum(front, f), Amount(last, f));
    }
  }

  // ---- The accumulators of the hub ----

  class AccumulatedStatsInner {
    var messages: U64
    var bytes: U64

    constructor Default()
      ensures View() == ZERO
    {
      messages, bytes := 0, 0;
    }

    function View(): Inner
      reads this
    {
      Inner(messages, bytes)
    }

    method Update(m: Message)
      modifies this
      ensures View() == Updated(old(View()), m)
    {
      bytes := Add64(bytes, m.packetSize);
      messages := Add64(messages, 1);
    }
  }

  class AccumulatedHubMessagesStats {
    var systems: Index

    constructor Default()
      ensures systems == map[]
    {
      systems := map[];
    }

    method Update(m: Message)
      modifies this
      ensures systems == InIndex(old(systems), m)
    {
      var system := if m.system in systems then systems[m.system] else map[];
      var component := if m.component in system then system[m.component] else map[];
      if m.id in component {
        component := component[m.id := Updated(component[m.id], m)];
      } else {
        component := component[m.id := New(m)];
      }
      system := system[m.component := component];
      systems := systems[m.system := system];
    }
  }

  /** What a receiver gets: a message, or the error of a lagging or closed channel. */
  datatype Received = Got(message: Message) | Lagged | Closed

  /** The messages before the first receive error of any kind. */
  function UntilError(received: seq<Received>): seq<Message> {
    if received == [] || !received[0].Got? then []
    else [received[0].message] + UntilError(received[1..])
  }

  /** All messages that reached the receiver. */
  function AllMessages(received: seq<Received>): seq<Message> {
    if received == [] then []
    else (if received[0].Got? then [received[0].message] else []) + AllMessages(received[1..])
  }

  predicate MessageAfterError(received: seq<Received>) {
    exists i, j :: 0 <= i < j < |received| && !received[i].Got? && received[j].Got?
  }

  lemma {:induction false} NoMessages(received: seq<Received>)
    ensures AllMessages(received) == [] <==> forall i :: 0 <= i < |received| ==> !received[i].Got?
    decreases |received|
  {
    if received != [] {
      NoMessages(received[1..]);
      assert forall i :: 1 <= i < |received| ==> received[i] == received[1..][i - 1];
    }
  }

  /** Every message is counted exactly when none follows a receive error. */
  lemma {:induction false} CountsAllExactly(received: seq<Received>)
    ensures UntilError(received) == AllMessages(received) <==> !MessageAfterError(received)
    decreases |received|
  {
    if received != [] {
      var rest := received[1..];
      assert forall i :: 1 <= i < |received| ==> received[i] == rest[i - 1];
      if received[0].Got? {
        CountsAllExactly(rest);
        SameBehindFirst(received[0].message, UntilError(rest), AllMessages(rest));
        LaterError(received);
      } else {
        NoMessages(rest);
        if AllMessages(rest) != [] {
          var j :| 0 <= j < |rest| && rest[j].Got?;
          assert received[j + 1].Got?;
        }
      }
    }
  }

  lemma SameBehindFirst(m: Message, a: seq<Message>, b: seq<Message>)
    ensures [m] + a == [m] + b <==> a == b
  {
    if [m] + a == [m] + b {
      assert a == ([m] + a)[1..] == ([m] + b)[1..] == b;
    }
  }

  lemma LaterError(received: seq<Received>)
    requires received != [] && received[0].Got?
    ensures MessageAfterError(received) <==> MessageAfterError(received[1..])
  {
    var rest := received[1..];
    if MessageAfterError(received) {
      var i, j :| 0 <= i < j < |received| && !received[i].Got? && received[j].Got?;
      assert !rest[i - 1].Got? && rest[j - 1].Got?;
    }
    if MessageAfterError(rest) {
      var i, j :| 0 <= i < j < |rest| && !rest[i].Got? && rest[j].Got?;
      assert !received[i + 1].Got? && received[j + 1].Got?;
    }
  }

  /** One lag, and the message behind it is not counted. */
  lemma LagEndsCounting(received: seq<Received>, m: Message)
    requires received == [Lagged, Got(m)]
    ensures AllMessages(received) == [m] && UntilError(received) == []
    ensures Total(UntilError(received)).messages == 0 && Total(AllMessages(received)).messages == 1
  {
    hide Total;
    var rest := received[1..];
    assert rest == [Got(m)] && rest[1..] == [];
    assert AllMessages(rest) == [m] + AllMessages(rest[1..]);
    TotalsOfNoneAndOne([m]);
  }

  lemma TotalsOfNoneAndOne(ms: seq<Message>)
    requires |ms| == 1
    ensures Total([]).messages == 0 && Total(ms).messages == 1
  {
    assert ms[..0] == [];
  }

  /** `stats_task`: counts until the first receive error, a lag included, and then stops for good. */
  method StatsTask(received: seq<Received>, hubStats: AccumulatedStatsInner, messagesStats: AccumulatedHubMessagesStats)
    requires hubStats.View() == ZERO && messagesStats.systems == map[]
    modifies hubStats, messagesStats
    ensures var stream := UntilError(received);
            && hubStats.View() == Total(stream) && messagesStats.systems == IndexOf(stream)
            && Indexes(messagesStats.systems, stream)
            && forall f :: Same64(IndexSum(messagesStats.systems, f), Get(hubStats.View(), f))
  {
    var i := 0;
    ghost var stream := [];
    while i < |received| && received[i].Got?
      invariant i <= |received| && stream + UntilError(received[i..]) == UntilError(received)
      invariant hubStats.View() == Total(stream) && messagesStats.systems == IndexOf(stream)
    {
      var m := received[i].message;
      hubStats.Update(m);
      messagesStats.Update(m);
      assert (stream + [m])[..|stream|] == stream;
      assert stream + UntilError(received[i..]) == (stream + [m]) + UntilError(received[i..][1..]);
      assert received[i..][1..] == received[i + 1..];
      stream := stream + [m];
      i := i + 1;
    }
    assert UntilError(received[i..]) == [];
    assert stream == UntilError(received);
    IndexCorrect(stream);
    forall f ensures Same64(IndexSum(messagesStats.systems, f), Get(hubStats.View(), f)) {
      IndexAgreesWithTotals(stream, f);
    }
  }
}
