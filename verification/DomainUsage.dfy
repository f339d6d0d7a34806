/** Usage per user and destination domain, taken from dumps of the live streams
    (DomainStreamAccumulator.collect of hy2panel/domain_usage.py). */
module DomainUsage {
  import opened Wrappers

  const MAX_DOMAIN_RECORDS: int := 1000

  type Limit = n: int | 1 <= n <= MAX_DOMAIN_RECORDS witness 1

  datatype Amount = Amount(tx: int, rx: int)

  const ZERO := Amount(0, 0)

  function Plus(a: Amount, b: Amount): Amount {
    Amount(a.tx + b.tx, a.rx + b.rx)
  }

  /** One direction of an amount. */
  function Part(a: Amount, sent: bool): int {
    if sent then a.tx else a.rx
  }

  predicate AtMost(a: Amount, b: Amount) {
    a.tx <= b.tx && a.rx <= b.rx
  }

  /** What a record is about: a user and the canonical name of a destination. */
  datatype Owner = Owner(user: string, domain: string)

  /** The identity of a stream at one endpoint. */
  datatype Key = Key(endpoint: int, connection: int, stream: int, initialAt: string)

  /** One stream of a dump; it has no owner if its destination is not a domain name. */
  datatype Stream = Stream(key: Key, owner: Option<Owner>, tx: int, rx: int)

  function Counters(s: Stream): Amount {
    Amount(s.tx, s.rx)
  }

  /** The answer of an endpoint to dump_streams; None if it failed. */
  type Dump = Option<seq<Stream>>

  // What one round counts.

  function Positive(x: int): int {
    if x > 0 then x else 0
  }

  function Delta(previous: map<Key, Amount>, s: Stream): Amount {
    if s.key !in previous then Counters(s)
    else Amount(Positive(s.tx - previous[s.key].tx), Positive(s.rx - previous[s.key].rx))
  }

  function Get(totals: map<Owner, Amount>, o: Owner): Amount {
    if o in totals then totals[o] else ZERO
  }

  function Credited(previous: map<Key, Amount>, s: Stream, totals: map<Owner, Amount>): map<Owner, Amount> {
    if Delta(previous, s) == ZERO || s.owner.None? then totals
    else totals[s.owner.value := Plus(Get(totals, s.owner.value), Delta(previous, s))]
  }

  /** The totals after the streams of a dump of an initialized endpoint. */
  function Counted(previous: map<Key, Amount>, streams: seq<Stream>, totals: map<Owner, Amount>): map<Owner, Amount> {
    if streams == [] then totals
    else
      Credited(previous, streams[|streams| - 1], Counted(previous, streams[..|streams| - 1], totals))
  }

  function CountedIf(
      initialized: bool, previous: map<Key, Amount>, streams: seq<Stream>, totals: map<Owner, Amount>): map<Owner, Amount>
  {
    if initialized then Counted(previous, streams, totals) else totals
  }

  function Current(streams: seq<Stream>): map<Key, Amount> {
    if streams == [] then map[]
    else
      var n := |streams| - 1;
      Current(streams[..n])[streams[n].key := Counters(streams[n])]
  }

  function Without(previous: map<Key, Amount>, endpoint: int): map<Key, Amount> {
    map k | k in previous && k.endpoint != endpoint :: previous[k]
  }

  datatype Memory = Memory(previous: map<Key, Amount>, initialized: set<int>)

  const FRESH := Memory(map[], {})

  function Remembered(m: Memory, endpoint: int, streams: seq<Stream>): Memory {
    Memory(Without(m.previous, endpoint) + Current(streams), m.initialized + {endpoint})
  }

  /** The memory and the totals after the first endpoints of a round. */
  function Round(m: Memory, dumps: seq<Dump>): (Memory, map<Owner, Amount>) {
    if dumps == [] then (m, map[])
    else
      var n := |dumps| - 1;
      var (before, totals) := Round(m, dumps[..n]);
      if dumps[n].None? then (before, totals)
      else
        (Remembered(before, n, dumps[n].value),
         CountedIf(n in before.initialized, before.previous, dumps[n].value, totals))
  }

  // What happened: the life of every stream that was ever seen.

  /** `base` is what its counters showed when counting began: at first sight if that was the
      endpoint's first dump, nothing otherwise. */
  datatype Life = Life(key: Key, owner: Option<Owner>, base: Amount, last: Amount)

  function Find(lives: seq<Life>, key: Key): Option<Life> {
    if lives == [] then None
    else if lives[0].key == key then Some(lives[0])
    else Find(lives[1..], key)
  }

  function See(lives: seq<Life>, s: Stream, initialized: bool): seq<Life> {
    if lives == [] then [Life(s.key, s.owner, if initialized then ZERO else Counters(s), Counters(s))]
    else if lives[0].key == s.key then [lives[0].(last := Counters(s))] + lives[1..]
    else [lives[0]] + See(lives[1..], s, initialized)
  }

  function SeeAll(lives: seq<Life>, streams: seq<Stream>, initialized: bool): seq<Life> {
    if streams == [] then lives
    else See(SeeAll(lives, streams[..|streams| - 1], initialized), streams[|streams| - 1], initialized)
  }

  /** Last-seen value minus baseline, summed over the streams of this owner. */
  function Grown(lives: seq<Life>, o: Owner, sent: bool): int {
    if lives == [] then 0
    else
      (if lives[0].owner == Some(o) then Part(lives[0].last, sent) - Part(lives[0].base, sent) else 0)
      + Grown(lives[1..], o, sent)
  }

  function SeeRound(lives: seq<Life>, m: Memory, dumps: seq<Dump>): seq<Life> {
    if dumps == [] then lives
    else
      var n := |dumps| - 1;
      var before := SeeRound(lives, m, dumps[..n]);
      if dumps[n].None? then before
      else SeeAll(before, dumps[n].value, n in Round(m, dumps[..n]).0.initialized)
  }

  // What is assumed of the proxy.

  /** A stream that was seen before was also in its endpoint's last dump, belongs to the same
      owner, and its counters have not decreased. */
  predicate Continues(lives: seq<Life>, m: Memory, s: Stream) {
    Find(lives, s.key).Some? ==>
      && s.key in m.previous
      && Find(lives, s.key).value.owner == s.owner
      && AtMost(Find(lives, s.key).value.last, Counters(s))
  }

  ghost predicate Lawful(lives: seq<Life>, m: Memory, endpoint: int, streams: seq<Stream>) {
    && (forall i :: 0 <= i < |streams| ==>
          && streams[i].key.endpoint == endpoint && streams[i].tx >= 0 && streams[i].rx >= 0
          && Continues(lives, m, streams[i]))
    && (forall i, j :: 0 <= i < j < |streams| ==> streams[i].key != streams[j].key)
  }

  ghost predicate LawfulRound(lives: seq<Life>, m: Memory, dumps: seq<Dump>) {
    forall n :: 0 <= n < |dumps| && dumps[n].Some? ==>
      Lawful(SeeRound(lives, m, dumps[..n]), Round(m, dumps[..n]).0, n, dumps[n].value)
  }

  /** The memory holds the last-seen counters of streams that were seen. */
  ghost predicate Tracks(lives: seq<Life>, m: Memory) {
    forall k :: k in m.previous ==>
      k.endpoint in m.initialized && Find(lives, k).Some? && Find(lives, k).value.last == m.previous[k]
  }

  // Telescoping.

  lemma {:induction false} SeeFinds(lives: seq<Life>, s: Stream, initialized: bool, k: Key)
    ensures k != s.key ==> Find(See(lives, s, initialized), k) == Find(lives, k)
    ensures Find(See(lives, s, initialized), s.key).Some?
    ensures Find(See(lives, s, initialized), s.key).value.last == Counters(s)
  {
    if lives != [] && lives[0].key != s.key {
      SeeFinds(lives[1..], s, initialized, k);
      assert See(lives, s, initialized)[1..] == See(lives[1..], s, initialized);
    } else if lives != [] {
      assert See(lives, s, initialized)[1..] == lives[1..];
    }
  }

  /** What a sighting adds to the growth. */
  function Gain(lives: seq<Life>, s: Stream, initialized: bool, o: Owner, sent: bool): int {
    var life := Find(lives, s.key);
    if s.owner != Some(o) then 0
    else if life.Some? then Part(Counters(s), sent) - Part(life.value.last, sent)
    else if initialized then Part(Counters(s), sent) else 0
  }

  lemma GrownFirst(life: Life, rest: seq<Life>, o: Owner, sent: bool)
    ensures Grown([life] + rest, o, sent)
         == (if life.owner == Some(o) then Part(life.last, sent) - Part(life.base, sent) else 0) + Grown(rest, o, sent)
  {
    assert ([life] + rest)[1..] == rest;
  }

  lemma {:induction false} SeeGrows(lives: seq<Life>, s: Stream, initialized: bool, o: Owner, sent: bool)
    requires Find(lives, s.key).Some? ==> Find(lives, s.key).value.owner == s.owner
    ensures Grown(See(lives, s, initialized), o, sent) == Grown(lives, o, sent) + Gain(lives, s, initialized, o, sent)
  {
    hide Grown;
    if lives == [] {
      var life := Life(s.key, s.owner, if initialized then ZERO else Counters(s), Counters(s));
      GrownFirst(life, [], o, sent);
      GrownNothing(o, sent);
      assert [life] + [] == [life];
    } else {
      GrownFirst(lives[0], lives[1..], o, sent);
      assert lives == [lives[0]] + lives[1..];
      if lives[0].key == s.key {
        GrownFirst(lives[0].(last := Counters(s)), lives[1..], o, sent);
      } else {
        SeeGrows(lives[1..], s, initialized, o, sent);
        GrownFirst(lives[0], See(lives[1..], s, initialized), o, sent);
      }
    }
  }

  lemma GrownNothing(o: Owner, sent: bool)
    ensures Grown([], o, sent) == 0
  {
  }

  /** What is compared with the memory is compared with the last sighting. */
  lemma DeltaMeans(lives: seq<Life>, m: Memory, endpoint: int, s: Stream)
    requires Tracks(lives, m) && Continues(lives, m, s) && s.key.endpoint == endpoint
    ensures Find(lives, s.key).Some? ==>
              endpoint in m.initialized
              && forall sent ::
                   Part(Delta(m.previous, s), sent) == Part(Counters(s), sent) - Part(Find(lives, s.key).value.last, sent)
    ensures Find(lives, s.key).None? ==> Delta(m.previous, s) == Counters(s)
  {
    hide Find;
  }

  lemma CreditedGet(previous: map<Key, Amount>, s: Stream, totals: map<Owner, Amount>, o: Owner, sent: bool)
    ensures Part(Get(Credited(previous, s, totals), o), sent)
         == Part(Get(totals, o), sent) + if s.owner == Some(o) then Part(Delta(previous, s), sent) else 0
  {
    hide Delta;
  }

  /** One more stream: the delta that is counted is what its life gained. */
  lemma CountedStep(
      lives: seq<Life>, before: seq<Life>, m: Memory, endpoint: int, s: Stream, totals: map<Owner, Amount>, o: Owner,
      sent: bool)
    requires Tracks(lives, m) && Continues(lives, m, s) && s.key.endpoint == endpoint
    requires Find(before, s.key) == Find(lives, s.key)
    ensures var initialized := endpoint in m.initialized;
            Part(Get(totals, o), sent) + Gain(before, s, initialized, o, sent)
            == Part(Get(if initialized then Credited(m.previous, s, totals) else totals, o), sent)
  {
    hide Find, Tracks, Continues, Delta, Counters, Get, Credited;
    DeltaMeans(lives, m, endpoint, s);
    CreditedGet(m.previous, s, totals, o, sent);
  }

  /** One dump: the totals grow exactly as the streams' lives do. */
  lemma {:induction false} DumpTelescopes(
      lives: seq<Life>, m: Memory, endpoint: int, streams: seq<Stream>, totals: map<Owner, Amount>, o: Owner,
      sent: bool)
    requires Tracks(lives, m) && Lawful(lives, m, endpoint, streams)
    ensures var initialized := endpoint in m.initialized;
            Grown(SeeAll(lives, streams, initialized), o, sent) + Part(Get(totals, o), sent)
            == Grown(lives, o, sent) + Part(Get(CountedIf(initialized, m.previous, streams, totals), o), sent)
  {
    if streams != [] {
      hide Grown, Find, Get, Gain, See, Tracks, Continues, SeeAll, CountedIf, Lawful, Current;
      var n := |streams| - 1;
      var initialized := endpoint in m.initialized;
      var before := SeeAll(lives, streams[..n], initialized);
      LawfulParts(lives, m, endpoint, streams);
      DumpTelescopes(lives, m, endpoint, streams[..n], totals, o, sent);
      SeeAllFinds(lives, streams[..n], initialized, streams[n].key);
      OwnerKept(lives, m, streams[n]);
      SeeGrows(before, streams[n], initialized, o, sent);
      CountedStep(lives, before, m, endpoint, streams[n], CountedIf(initialized, m.previous, streams[..n], totals), o, sent);
      DumpUnfolds(lives, m, initialized, streams, totals);
    }
  }

  lemma LawfulParts(lives: seq<Life>, m: Memory, endpoint: int, streams: seq<Stream>)
    requires Lawful(lives, m, endpoint, streams) && streams != []
    ensures var n := |streams| - 1;
            && Lawful(lives, m, endpoint, streams[..n]) && Continues(lives, m, streams[n])
            && streams[n].key.endpoint == endpoint
            && forall i :: 0 <= i < n ==> streams[..n][i].key != streams[n].key
  {
    hide Continues;
  }

  lemma DumpUnfolds(lives: seq<Life>, m: Memory, initialized: bool, streams: seq<Stream>, totals: map<Owner, Amount>)
    requires streams != []
    ensures var n := |streams| - 1;
            var mid := CountedIf(initialized, m.previous, streams[..n], totals);
            && SeeAll(lives, streams, initialized) == See(SeeAll(lives, streams[..n], initialized), streams[n], initialized)
            && CountedIf(initialized, m.previous, streams, totals)
               == if initialized then Credited(m.previous, streams[n], mid) else mid
  {
    hide See, Credited;
  }

  lemma OwnerKept(lives: seq<Life>, m: Memory, s: Stream)
    requires Continues(lives, m, s)
    ensures Find(lives, s.key).Some? ==> Find(lives, s.key).value.owner == s.owner
  {
  }

  /** Sightings leave the lives of other streams, and set the counters of those seen. */
  lemma {:induction false} SeeAllFinds(lives: seq<Life>, streams: seq<Stream>, initialized: bool, k: Key)
    ensures (forall i :: 0 <= i < |streams| ==> streams[i].key != k) ==>
              Find(SeeAll(lives, streams, initialized), k) == Find(lives, k) && k !in Current(streams)
    ensures k in Current(streams) ==>
              && Find(SeeAll(lives, streams, initialized), k).Some?
              && Find(SeeAll(lives, streams, initialized), k).value.last == Current(streams)[k]
    ensures k in Current(streams) ==> exists i :: 0 <= i < |streams| && streams[i].key == k
    ensures k !in Current(streams) ==> Find(SeeAll(lives, streams, initialized), k) == Find(lives, k)
  {
    if streams != [] {
      var n := |streams| - 1;
      SeeAllFinds(lives, streams[..n], initialized, k);
      SeeFinds(SeeAll(lives, streams[..n], initialized), streams[n], initialized, k);
      assert streams[n].key == k ==> k in Current(streams);
    }
  }

  lemma TracksDump(lives: seq<Life>, m: Memory, endpoint: int, streams: seq<Stream>)
    requires Tracks(lives, m) && Lawful(lives, m, endpoint, streams)
    ensures Tracks(SeeAll(lives, streams, endpoint in m.initialized), Remembered(m, endpoint, streams))
  {
    var initialized := endpoint in m.initialized;
    var after := Remembered(m, endpoint, streams);
    forall k | k in after.previous
      ensures k.endpoint in after.initialized && Find(SeeAll(lives, streams, initialized), k).Some?
      ensures Find(SeeAll(lives, streams, initialized), k).value.last == after.previous[k]
    {
      SeeAllFinds(lives, streams, initialized, k);
    }
  }

  /** One round over all endpoints, some of which may have failed. */
  lemma {:induction false} RoundTelescopes(lives: seq<Life>, m: Memory, dumps: seq<Dump>, o: Owner, sent: bool)
    requires Tracks(lives, m) && LawfulRound(lives, m, dumps)
    ensures Tracks(SeeRound(lives, m, dumps), Round(m, dumps).0)
    ensures Grown(SeeRound(lives, m, dumps), o, sent) == Grown(lives, o, sent) + Part(Get(Round(m, dumps).1, o), sent)
  {
    if dumps != [] {
      hide Tracks, Lawful, LawfulRound, Grown, Get, SeeAll, CountedIf, Remembered, SeeRound, Round;
      var n := |dumps| - 1;
      LawfulBefore(lives, m, dumps);
      RoundTelescopes(lives, m, dumps[..n], o, sent);
      RoundUnfolds(lives, m, dumps);
      if dumps[n].Some? {
        var before := SeeRound(lives, m, dumps[..n]);
        var (memory, totals) := Round(m, dumps[..n]);
        DumpTelescopes(before, memory, n, dumps[n].value, totals, o, sent);
        TracksDump(before, memory, n, dumps[n].value);
      }
    }
  }

  lemma RoundUnfolds(lives: seq<Life>, m: Memory, dumps: seq<Dump>)
    requires dumps != []
    ensures var n := |dumps| - 1;
            var before := SeeRound(lives, m, dumps[..n]);
            var (memory, totals) := Round(m, dumps[..n]);
            if dumps[n].None? then SeeRound(lives, m, dumps) == before && Round(m, dumps) == (memory, totals)
            else
              && SeeRound(lives, m, dumps) == SeeAll(before, dumps[n].value, n in memory.initialized)
              && Round(m, dumps)
                 == (Remembered(memory, n, dumps[n].value),
                     CountedIf(n in memory.initialized, memory.previous, dumps[n].value, totals))
  {
    hide SeeAll, Remembered, CountedIf;
  }

  lemma LawfulBefore(lives: seq<Life>, m: Memory, dumps: seq<Dump>)
    requires LawfulRound(lives, m, dumps) && dumps != []
    ensures LawfulRound(lives, m, dumps[..|dumps| - 1])
    ensures var n := |dumps| - 1;
            dumps[n].Some? ==> Lawful(SeeRound(lives, m, dumps[..n]), Round(m, dumps[..n]).0, n, dumps[n].value)
  {
    hide Lawful, SeeRound, Round;
    assert forall i :: 0 <= i < |dumps| ==> dumps[..|dumps| - 1][..i] == dumps[..i];
  }

  // What is reported of the totals.

  datatype Record = Record(owner: Owner, amount: Amount)

  /** Python's order of strings. */
  predicate Less(a: string, b: string) {
    b != "" && (a == "" || a[0] < b[0] || (a[0] == b[0] && Less(a[1..], b[1..])))
  }

  lemma {:induction false} LessTotal(a: string, b: string)
    ensures !Less(a, a)
    ensures Less(a, b) || a == b || Less(b, a)
  {
    if a != "" { LessTotal(a[1..], a[1..]); }
    if a != "" && b != "" && a[0] == b[0] {
      LessTotal(a[1..], b[1..]);
      assert a == [a[0]] + a[1..] && b == [b[0]] + b[1..];
    }
  }

  lemma {:induction false} LessTransitive(a: string, b: string, c: string)
    requires Less(a, b) && Less(b, c)
    ensures Less(a, c)
  {
    if a != "" && a[0] == b[0] == c[0] { LessTransitive(a[1..], b[1..], c[1..]); }
  }

  function Volume(r: Record): int {
    r.amount.tx + r.amount.rx
  }

  /** The larger volume first, then by name. */
  predicate Precedes(a: Record, b: Record) {
    if Volume(a) != Volume(b) then Volume(a) > Volume(b)
    else if a.owner.user != b.owner.user then Less(a.owner.user, b.owner.user)
    else Less(a.owner.domain, b.owner.domain)
  }

  lemma PrecedesTotal(a: Record, b: Record)
    ensures !Precedes(a, a)
    ensures a.owner != b.owner ==> Precedes(a, b) || Precedes(b, a)
  {
    LessTotal(a.owner.user, b.owner.user);
    LessTotal(a.owner.domain, b.owner.domain);
  }

  lemma PrecedesTransitive(a: Record, b: Record, c: Record)
    requires Precedes(a, b) && Precedes(b, c)
    ensures Precedes(a, c)
  {
    LessTotal(a.owner.user, a.owner.user);
    if Volume(a) == Volume(b) == Volume(c) {
      var u, v, w := a.owner.user, b.owner.user, c.owner.user;
      if u == v == w {
        LessTransitive(a.owner.domain, b.owner.domain, c.owner.domain);
      } else if u != v && v != w {
        LessTransitive(u, v, w);
      }
    }
  }

  ghost predicate Sorted(records: seq<Record>) {
    forall i, j :: 0 <= i < j < |records| ==> Precedes(records[i], records[j])
  }

  function Insert(records: seq<Record>, r: Record): seq<Record> {
    if records == [] || Precedes(r, records[0]) then [r] + records
    else [records[0]] + Insert(records[1..], r)
  }

  lemma {:induction false} InsertHas(records: seq<Record>, r: Record)
    ensures |Insert(records, r)| == |records| + 1
    ensures forall x :: x in Insert(records, r) <==> x == r || x in records
  {
    if records != [] && !Precedes(r, records[0]) {
      InsertHas(records[1..], r);
      assert records == [records[0]] + records[1..];
    }
  }

  lemma {:induction false} InsertSorts(records: seq<Record>, r: Record)
    requires Sorted(records) && forall x :: x in records ==> x.owner != r.owner
    ensures Sorted(Insert(records, r))
  {
    hide Precedes;
    if records != [] {
      var first, rest := records[0], records[1..];
      if Precedes(r, first) {
        forall i | 0 <= i < |records| ensures Precedes(r, records[i]) {
          if i > 0 { PrecedesTransitive(r, first, records[i]); }
        }
      } else {
        InsertSorts(rest, r);
        InsertHas(rest, r);
        PrecedesTotal(first, r);
        var tail := Insert(rest, r);
        forall j | 0 <= j < |tail| ensures Precedes(first, tail[j]) {
          assert tail[j] in tail;
        }
      }
    }
  }

  /** The records that a round reports: the first `maximum` of the totals in order. */
  ghost predicate Ranked(totals: map<Owner, Amount>, maximum: int, records: seq<Record>) {
    && Sorted(records)
    && (forall r :: r in records ==> r.owner in totals && r.amount == totals[r.owner])
    && |records| == (if |totals| <= maximum then |totals| else maximum)
    && (forall o, r :: o in totals && Record(o, totals[o]) !in records && r in records ==> Precedes(r, Record(o, totals[o])))
    && (|totals| <= maximum ==> forall o :: o in totals ==> Record(o, totals[o]) in records)
  }

  method SortTotals(totals: map<Owner, Amount>) returns (records: seq<Record>)
    ensures Sorted(records) && |records| == |totals|
    ensures forall r :: r in records <==> r.owner in totals && r.amount == totals[r.owner]
  {
    hide Precedes;
    records := [];
    var rest := totals.Keys;
    while rest != {}
      invariant rest <= totals.Keys && |records| + |rest| == |totals.Keys|
      invariant Sorted(records)
      invariant forall r :: r in records <==> r.owner in totals.Keys - rest && r.amount == totals[r.owner]
    {
      var o :| o in rest;
      InsertHas(records, Record(o, totals[o]));
      InsertSorts(records, Record(o, totals[o]));
      records := Insert(records, Record(o, totals[o]));
      rest := rest - {o};
    }
    assert |totals| == |totals.Keys|;
  }

  method Report(totals: map<Owner, Amount>, maximum: int) returns (records: seq<Record>)
    requires maximum >= 1
    ensures Ranked(totals, maximum, records)
  {
    var sorted := SortTotals(totals);
    records := if |sorted| <= maximum then sorted else sorted[..maximum];
    forall o, r | o in totals && Record(o, totals[o]) !in records && r in records
      ensures Precedes(r, Record(o, totals[o]))
    {
      assert Record(o, totals[o]) in sorted;
    }
  }

  /** The accumulator. */
  class DomainStreamAccumulator {
    const maximumRecords: Limit
    var previous: map<Key, Amount>
    var initialized: set<int>

    constructor (maximum: int)
      ensures View() == FRESH
      ensures 1 <= maximum <= MAX_DOMAIN_RECORDS ==> maximumRecords == maximum
    {
      maximumRecords := if maximum > MAX_DOMAIN_RECORDS then MAX_DOMAIN_RECORDS else if maximum < 1 then 1 else maximum;
      previous := map[];
      initialized := {};
    }

    ghost function View(): Memory
      reads this
    {
      Memory(previous, initialized)
    }

    /** The streams of one dump. */
    static method CollectDump(
        previous: map<Key, Amount>, initialized: bool, streams: seq<Stream>, totals: map<Owner, Amount>)
      returns (current: map<Key, Amount>, counted: map<Owner, Amount>)
      ensures current == Current(streams) && counted == CountedIf(initialized, previous, streams, totals)
    {
      current := map[];
      counted := totals;
      for i := 0 to |streams|
        invariant current == Current(streams[..i]) && counted == CountedIf(initialized, previous, streams[..i], totals)
      {
        var stream := streams[i];
        assert streams[..i + 1][..i] == streams[..i];
        current := current[stream.key := Counters(stream)];
        if !initialized {
          continue;
        }
        var delta := Delta(previous, stream);
        if delta == ZERO {
          continue;
        }
        if stream.owner.None? {
          continue;
        }
        counted := counted[stream.owner.value := Plus(Get(counted, stream.owner.value), delta)];
      }
      assert streams[..|streams|] == streams;
    }

    method Collect(dumps: seq<Dump>) returns (records: seq<Record>)
      modifies this
      ensures View() == Round(old(View()), dumps).0
      ensures Ranked(Round(old(View()), dumps).1, maximumRecords, records)
    {
      var totals: map<Owner, Amount> := map[];
      for n := 0 to |dumps|
        invariant (View(), totals) == Round(old(View()), dumps[..n])
      {
        assert dumps[..n + 1][..n] == dumps[..n];
        if dumps[n].None? {
          continue;
        }
        var current, counted := CollectDump(previous, n in initialized, dumps[n].value, totals);
        totals := counted;
        previous := Without(previous, n) + current;
        initialized := initialized + {n};
      }
      assert dumps[..|dumps|] == dumps;
      records := Report(totals, maximumRecords);
    }
  }

  // Over a run of any number of rounds.

  function MemoryAfter(rounds: seq<seq<Dump>>): Memory {
    if rounds == [] then FRESH else Round(MemoryAfter(rounds[..|rounds| - 1]), rounds[|rounds| - 1]).0
  }

  function LivesAfter(rounds: seq<seq<Dump>>): seq<Life> {
    if rounds == [] then []
    else
      var before := rounds[..|rounds| - 1];
      SeeRound(LivesAfter(before), MemoryAfter(before), rounds[|rounds| - 1])
  }

  ghost predicate LawfulRun(rounds: seq<seq<Dump>>) {
    rounds != [] ==>
      var before := rounds[..|rounds| - 1];
      LawfulRun(before) && LawfulRound(LivesAfter(before), MemoryAfter(before), rounds[|rounds| - 1])
  }

  /** What the last round counted. */
  function LastTotals(rounds: seq<seq<Dump>>): map<Owner, Amount>
    requires rounds != []
  {
    Round(MemoryAfter(rounds[..|rounds| - 1]), rounds[|rounds| - 1]).1
  }

  ghost predicate Reports(rounds: seq<seq<Dump>>, reports: seq<seq<Record>>, maximum: int) {
    |reports| == |rounds| &&
    (rounds != [] ==>
       var n := |rounds| - 1;
       Reports(rounds[..n], reports[..n], maximum) && Ranked(LastTotals(rounds), maximum, reports[n]))
  }

  predicate NothingDropped(rounds: seq<seq<Dump>>, maximum: int) {
    rounds != [] ==> NothingDropped(rounds[..|rounds| - 1], maximum) && |LastTotals(rounds)| <= maximum
  }

  /** The amount that a report gives for an owner. */
  function Said(records: seq<Record>, o: Owner, sent: bool): int {
    if records == [] then 0
    else (if records[0].owner == o then Part(records[0].amount, sent) else 0) + Said(records[1..], o, sent)
  }

  function Reported(reports: seq<seq<Record>>, o: Owner, sent: bool): int {
    if reports == [] then 0
    else Reported(reports[..|reports| - 1], o, sent) + Said(reports[|reports| - 1], o, sent)
  }

  /** A ranking says each owner's total once, or nothing about the owner. */
  lemma {:induction false} SaidOnce(records: seq<Record>, totals: map<Owner, Amount>, o: Owner, sent: bool)
    requires Sorted(records) && forall r :: r in records ==> r.owner in totals && r.amount == totals[r.owner]
    ensures Said(records, o, sent)
         == if o in totals && Record(o, totals[o]) in records then Part(totals[o], sent) else 0
  {
    if records != [] {
      SaidOnce(records[1..], totals, o, sent);
      assert records == [records[0]] + records[1..];
      if records[0].owner == o && records[0] in records[1..] {
        PrecedesTotal(records[0], records[0]);
        assert false;
      }
    }
  }

  lemma RankedSays(totals: map<Owner, Amount>, maximum: int, records: seq<Record>, o: Owner, sent: bool)
    requires Ranked(totals, maximum, records) && Part(Get(totals, o), sent) >= 0
    ensures Said(records, o, sent) <= Part(Get(totals, o), sent)
    ensures |totals| <= maximum ==> Said(records, o, sent) == Part(Get(totals, o), sent)
  {
    SaidOnce(records, totals, o, sent);
  }

  lemma {:induction false} CountedNotNegative(previous: map<Key, Amount>, streams: seq<Stream>, totals: map<Owner, Amount>, o: Owner, sent: bool)
    requires forall i :: 0 <= i < |streams| ==> streams[i].tx >= 0 && streams[i].rx >= 0
    requires Part(Get(totals, o), sent) >= 0
    ensures Part(Get(Counted(previous, streams, totals), o), sent) >= 0
  {
    if streams != [] {
      hide Get, Credited;
      var n := |streams| - 1;
      CountedNotNegative(previous, streams[..n], totals, o, sent);
      CreditedGet(previous, streams[n], Counted(previous, streams[..n], totals), o, sent);
    }
  }

  lemma {:induction false} RoundNotNegative(lives: seq<Life>, m: Memory, dumps: seq<Dump>, o: Owner, sent: bool)
    requires LawfulRound(lives, m, dumps)
    ensures Part(Get(Round(m, dumps).1, o), sent) >= 0
  {
    if dumps != [] {
      hide Counted, Remembered, Tracks, Continues, SeeRound, LawfulRound, Round, Get;
      var n := |dumps| - 1;
      LawfulBefore(lives, m, dumps);
      RoundNotNegative(lives, m, dumps[..n], o, sent);
      RoundUnfolds(lives, m, dumps);
      if dumps[n].Some? {
        var (memory, totals) := Round(m, dumps[..n]);
        CountedNotNegative(memory.previous, dumps[n].value, totals, o, sent);
      }
    }
  }

  /** Delta telescoping: over any run in which endpoints may fail, the reports never say more for
      a user and domain than the streams have carried since their baselines, and if no report was
      cut short they say exactly that. */
  lemma {:induction false} DeltasTelescope(
      rounds: seq<seq<Dump>>, reports: seq<seq<Record>>, maximum: int, o: Owner, sent: bool)
    requires LawfulRun(rounds) && Reports(rounds, reports, maximum)
    ensures Tracks(LivesAfter(rounds), MemoryAfter(rounds))
    ensures Reported(reports, o, sent) <= Grown(LivesAfter(rounds), o, sent)
    ensures NothingDropped(rounds, maximum) ==> Reported(reports, o, sent) == Grown(LivesAfter(rounds), o, sent)
  {
    if rounds != [] {
      hide Tracks, LawfulRound, Ranked, Said, Grown, Get, Round, SeeRound;
      var n := |rounds| - 1;
      var before := rounds[..n];
      DeltasTelescope(before, reports[..n], maximum, o, sent);
      RoundTelescopes(LivesAfter(before), MemoryAfter(before), rounds[n], o, sent);
      RoundNotNegative(LivesAfter(before), MemoryAfter(before), rounds[n], o, sent);
      RankedSays(LastTotals(rounds), maximum, reports[n], o, sent);
    }
  }
}
