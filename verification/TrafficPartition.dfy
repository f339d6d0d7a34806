/** How a counter map is cut into spool entries, and why the space reserved before counters are
    read is enough for whatever the read returns. Sizes are those of compact JSON in UTF-8. */
module TrafficPartition {
  import opened Decimals
  import opened Traffic
  import opened Wrappers

  const ENTRY_MAX_BYTES: nat := 240 * 1024
  const MAX_USERS: nat := 1000

  /** One item of a counter map, in the map's iteration order. */
  datatype Entry = Entry(name: string, counters: Counters)

  predicate ValidEntry(e: Entry) {
    1 <= |e.name| <= 64 && e.counters.tx <= MAX_COUNTER && e.counters.rx <= MAX_COUNTER
  }

  // JSON sizes.

  /** A character inside a JSON string: escaped if it must be, otherwise plain UTF-8. */
  function CharBytes(c: char): (n: nat)
    ensures 1 <= n <= 6
  {
    var code := c as int;
    if c == '"' || c == '\\' || code in {8, 9, 10, 12, 13} then 2
    else if code < 0x20 then 6
    else if code < 0x80 then 1
    else if code < 0x800 then 2
    else if code < 0x10000 then 3
    else 4
  }

  function TextBytes(text: string): (n: nat)
    ensures |text| <= n <= 6 * |text|
  {
    if text == "" then 0 else CharBytes(text[0]) + TextBytes(text[1..])
  }

  /** "name":{"rx":N,"tx":N} */
  function EntryBytes(e: Entry): (n: nat)
    ensures n >= 16
  {
    2 + TextBytes(e.name) + 1 + 6 + |Decimal(e.counters.rx)| + 6 + |Decimal(e.counters.tx)| + 1
  }

  lemma EntryBounds(e: Entry)
    requires ValidEntry(e)
    ensures 19 <= EntryBytes(e) <= 438
  {
    assert Pow10(10) == 10000000000;
    assert Pow10(19) == 10000000000000000000;
    DecimalBound(e.counters.rx, 19);
    DecimalBound(e.counters.tx, 19);
  }

  /** The entries, each followed by a comma. */
  function Weight(entries: seq<Entry>): nat {
    if entries == [] then 0 else Weight(entries[..|entries| - 1]) + EntryBytes(entries[|entries| - 1]) + 1
  }

  function Braced(entries: seq<Entry>): nat {
    if entries == [] then 2 else 2 + Weight(entries) - 1
  }

  /** {"batchId":"<32 characters>","observedAt":N,"traffic":{...}} and a newline. */
  function EncodedBytes(entries: seq<Entry>, observedAt: nat): nat {
    12 + 32 + 15 + |Decimal(observedAt)| + 11 + Braced(entries) + 1 + 1
  }

  // The partition.

  function Flatten(groups: seq<seq<Entry>>): seq<Entry> {
    if groups == [] then [] else Flatten(groups[..|groups| - 1]) + groups[|groups| - 1]
  }

  predicate Fits(group: seq<Entry>, observedAt: nat) {
    |group| <= MAX_USERS && EncodedBytes(group, observedAt) <= ENTRY_MAX_BYTES
  }

  /** A group that was closed because the entry after it did not fit any more. */
  predicate Closed(group: seq<Entry>, next: Entry, observedAt: nat) {
    !Fits(group + [next], observedAt)
  }

  /** Every group fits, and none could have taken the first entry of the next one. */
  predicate Greedy(groups: seq<seq<Entry>>, observedAt: nat) {
    groups != [] ==>
      var n := |groups| - 1;
      && Greedy(groups[..n], observedAt)
      && Fits(groups[n], observedAt)
      && (n > 0 ==>
            groups[n] != [] && groups[n - 1] != [] && Closed(groups[n - 1], groups[n][0], observedAt))
  }

  lemma SingleFits(e: Entry, observedAt: nat)
    requires ValidEntry(e) && observedAt <= MAX_COUNTER
    ensures Fits([e], observedAt)
  {
    EntryBounds(e);
    TimestampBytes(observedAt);
    assert Weight([e]) == Weight([]) + EntryBytes(e) + 1 by { assert [e][..0] == []; }
  }

  /** The loop of the source. None models its ProtocolErrors: invalid counters are refused, and
      an entry that exceeds the size limit is never met. */
  method Partition(entries: seq<Entry>, observedAt: nat) returns (r: Option<seq<seq<Entry>>>)
    requires observedAt <= MAX_COUNTER
    ensures r.Some? <==> forall e :: e in entries ==> ValidEntry(e)
    ensures r.Some? ==> r.value != [] && Flatten(r.value) == entries && Greedy(r.value, observedAt)
  {
    if exists e :: e in entries && !ValidEntry(e) {
      return None;
    }
    var done: seq<seq<Entry>> := [];
    var current: seq<Entry> := [];
    NothingFits(observedAt);
    assert done + [current] == [[]];
    for i := 0 to |entries|
      invariant Flatten(done + [current]) == entries[..i]
      invariant current == [] ==> done == []
      invariant Greedy(done + [current], observedAt)
    {
      hide EncodedBytes, Greedy, Flatten;
      var e := entries[i];
      var candidate := current + [e];
      assert entries[..i + 1] == entries[..i] + [e];
      if |candidate| <= MAX_USERS && EncodedBytes(candidate, observedAt) <= ENTRY_MAX_BYTES {
        GrowLast(done, current, e, observedAt);
        current := candidate;
      } else {
        SingleFits(e, observedAt);
        assert current == [] ==> candidate == [e];
        if current == [] {
          assert false;
          return None;
        }
        OpenNext(done, current, e, observedAt);
        done := done + [current];
        current := [e];
      }
    }
    LastFits(done, current, observedAt);
    if EncodedBytes(current, observedAt) > ENTRY_MAX_BYTES {
      return None;
    }
    assert entries[..|entries|] == entries;
    return Some(done + [current]);
  }

  lemma NothingFits(observedAt: nat)
    requires observedAt <= MAX_COUNTER
    ensures Greedy([[]], observedAt) && Flatten([[]]) == []
  {
    TimestampBytes(observedAt);
    var none: seq<seq<Entry>> := [[]];
    assert none[..0] == [];
  }

  lemma TimestampBytes(observedAt: nat)
    requires observedAt <= MAX_COUNTER
    ensures |Decimal(observedAt)| <= 19
  {
    assert Pow10(10) == 10000000000;
    assert Pow10(19) == 10000000000000000000;
    DecimalBound(observedAt, 19);
  }

  lemma LastFits(done: seq<seq<Entry>>, current: seq<Entry>, observedAt: nat)
    requires Greedy(done + [current], observedAt)
    ensures Fits(current, observedAt)
  {
  }

  lemma GrowLast(done: seq<seq<Entry>>, current: seq<Entry>, e: Entry, observedAt: nat)
    requires Greedy(done + [current], observedAt) && Fits(current + [e], observedAt)
    requires current == [] ==> done == []
    ensures Greedy(done + [current + [e]], observedAt)
    ensures Flatten(done + [current + [e]]) == Flatten(done + [current]) + [e]
  {
    hide Closed, Fits;
    var before, after := done + [current], done + [current + [e]];
    assert before[..|done|] == done == after[..|done|];
  }

  lemma OpenNext(done: seq<seq<Entry>>, current: seq<Entry>, e: Entry, observedAt: nat)
    requires Greedy(done + [current], observedAt) && current != []
    requires !Fits(current + [e], observedAt) && Fits([e], observedAt)
    ensures Greedy(done + [current] + [[e]], observedAt)
    ensures Flatten(done + [current] + [[e]]) == Flatten(done + [current]) + [e]
  {
    hide EncodedBytes;
    var before, after := done + [current], done + [current] + [[e]];
    assert after[..|before|] == before;
  }

  // The reservation.

  function CeilDiv(n: nat, d: nat): nat
    requires d > 0
  {
    (n + d - 1) / d
  }

  function ReservedEntries(responseBytes: nat): nat {
    1 + CeilDiv(responseBytes, ENTRY_MAX_BYTES) + CeilDiv(responseBytes, 20000)
  }

  function ReservedBytes(responseBytes: nat): nat {
    responseBytes + ReservedEntries(responseBytes) * 4096
  }

  function TotalBytes(groups: seq<seq<Entry>>, observedAt: nat): nat {
    if groups == [] then 0
    else TotalBytes(groups[..|groups| - 1], observedAt) + EncodedBytes(groups[|groups| - 1], observedAt)
  }

  lemma {:induction false} WeightAppend(a: seq<Entry>, b: seq<Entry>)
    ensures Weight(a + b) == Weight(a) + Weight(b)
  {
    if b == [] {
      assert a + b == a;
    } else {
      assert (a + b)[..|a + b| - 1] == a + b[..|b| - 1];
      WeightAppend(a, b[..|b| - 1]);
    }
  }

  lemma {:induction false} WeightAtLeast(entries: seq<Entry>)
    requires forall e :: e in entries ==> ValidEntry(e)
    ensures Weight(entries) >= 20 * |entries|
  {
    if entries != [] {
      assert entries[|entries| - 1] in entries;
      EntryBounds(entries[|entries| - 1]);
      WeightAtLeast(entries[..|entries| - 1]);
    }
  }

  /** Every closed group carries at least 20,000 bytes of the response it came from. */
  lemma ClosedWeight(group: seq<Entry>, next: Entry, observedAt: nat)
    requires (forall e :: e in group ==> ValidEntry(e)) && ValidEntry(next)
    requires group != [] && Closed(group, next, observedAt) && observedAt <= MAX_COUNTER
    ensures Weight(group) >= 20000
  {
    WeightAtLeast(group);
    EntryBounds(next);
    assert (group + [next])[..|group|] == group;
    TimestampBytes(observedAt);
  }

  lemma {:induction false} GroupsWeight(groups: seq<seq<Entry>>, observedAt: nat)
    requires groups != [] && Greedy(groups, observedAt) && observedAt <= MAX_COUNTER
    requires forall e :: e in Flatten(groups) ==> ValidEntry(e)
    ensures 20000 * (|groups| - 1) + Weight(groups[|groups| - 1]) <= Weight(Flatten(groups))
  {
    var n := |groups| - 1;
    WeightAppend(Flatten(groups[..n]), groups[n]);
    if n > 0 {
      hide Closed, Fits, Weight, ValidEntry;
      var before := groups[..n];
      assert forall e :: e in Flatten(before) ==> e in Flatten(groups);
      GroupsWeight(before, observedAt);
      assert Flatten(before) == Flatten(before[..n - 1]) + before[n - 1];
      assert forall e :: e in before[n - 1] ==> e in Flatten(before);
      assert groups[n][0] in groups[n] && groups[n][0] in Flatten(groups);
      ClosedWeight(groups[n - 1], groups[n][0], observedAt);
    }
  }

  lemma {:induction false} GroupsBytes(groups: seq<seq<Entry>>, observedAt: nat)
    requires observedAt <= MAX_COUNTER
    ensures TotalBytes(groups, observedAt) <= Weight(Flatten(groups)) + 100 * |groups|
  {
    if groups != [] {
      var n := |groups| - 1;
      GroupsBytes(groups[..n], observedAt);
      WeightAppend(Flatten(groups[..n]), groups[n]);
      TimestampBytes(observedAt);
    }
  }

  lemma OneResponse(groups: seq<seq<Entry>>, observedAt: nat, bytes: nat)
    requires groups != [] && Greedy(groups, observedAt) && observedAt <= MAX_COUNTER
    requires forall e :: e in Flatten(groups) ==> ValidEntry(e)
    requires Braced(Flatten(groups)) <= bytes
    ensures 20000 * (|groups| - 1) <= bytes
    ensures TotalBytes(groups, observedAt) <= bytes + 100 * |groups|
  {
    GroupsWeight(groups, observedAt);
    GroupsBytes(groups, observedAt);
  }

  /** The partition of one response of at most n bytes stays within the reservation. */
  lemma OneEndpoint(groups: seq<seq<Entry>>, observedAt: nat, n: nat)
    requires observedAt <= MAX_COUNTER
    requires groups != [] && Greedy(groups, observedAt) && Braced(Flatten(groups)) <= n
    requires forall e :: e in Flatten(groups) ==> ValidEntry(e)
    ensures |groups| <= ReservedEntries(n) && TotalBytes(groups, observedAt) <= ReservedBytes(n)
  {
    hide Weight, Greedy, EncodedBytes, CeilDiv;
    OneResponse(groups, observedAt, n);
    ReservedEnough(n, |groups| - 1);
  }

  /** So do the partitions of responses of both endpoints that total at most n bytes. */
  lemma TwoEndpoints(first: seq<seq<Entry>>, second: seq<seq<Entry>>, observedAt: nat,
                     firstBytes: nat, secondBytes: nat, n: nat)
    requires observedAt <= MAX_COUNTER
    requires first != [] && Greedy(first, observedAt) && Braced(Flatten(first)) <= firstBytes
    requires second != [] && Greedy(second, observedAt) && Braced(Flatten(second)) <= secondBytes
    requires forall e :: e in Flatten(first) + Flatten(second) ==> ValidEntry(e)
    requires firstBytes + secondBytes <= n
    ensures |first| + |second| <= ReservedEntries(n)
    ensures TotalBytes(first, observedAt) + TotalBytes(second, observedAt) <= ReservedBytes(n)
  {
    hide Weight, Greedy, EncodedBytes, CeilDiv;
    OneResponse(first, observedAt, firstBytes);
    OneResponse(second, observedAt, secondBytes);
    ReservedEnough(n, |first| + |second| - 2);
  }

  datatype Limits = Limits(maxEntries: int, maxBytes: int, reserve: int)

  /** What the spool holds, and what the disk has free. */
  datatype Usage = Usage(entries: int, bytes: int, free: int)

  /** can_collect for responses of at most n bytes. */
  predicate CanCollect(u: Usage, l: Limits, n: int) {
    var bytes: nat := if n > 1 then n else 1;
    && u.entries + ReservedEntries(bytes) <= l.maxEntries
    && u.bytes + ReservedBytes(bytes) <= l.maxBytes
    && u.free >= ReservedBytes(bytes) + l.reserve
  }

  /** The space checks of persist_collections for this many entries and bytes. */
  predicate Accepts(u: Usage, l: Limits, entries: nat, bytes: nat) {
    && u.entries + entries <= l.maxEntries
    && u.bytes + bytes <= l.maxBytes
    && (entries > 0 ==> u.free >= bytes + l.reserve)
  }

  /** If can_collect(n) held, the spool accepts what is made of any responses that total at most
      n bytes, from one endpoint or from two. */
  lemma ReservationSuffices(u: Usage, l: Limits, first: seq<seq<Entry>>, second: Option<seq<seq<Entry>>>,
                            observedAt: nat, firstBytes: nat, secondBytes: nat, n: int)
    requires CanCollect(u, l, n) && observedAt <= MAX_COUNTER
    requires first != [] && Greedy(first, observedAt) && Braced(Flatten(first)) <= firstBytes
    requires forall e :: e in Flatten(first) ==> ValidEntry(e)
    requires second.Some? ==>
               && second.value != [] && Greedy(second.value, observedAt) && Braced(Flatten(second.value)) <= secondBytes
               && forall e :: e in Flatten(second.value) ==> ValidEntry(e)
    requires firstBytes + (if second.Some? then secondBytes else 0) <= n
    ensures Accepts(u, l, |first| + (if second.Some? then |second.value| else 0),
                    TotalBytes(first, observedAt) + (if second.Some? then TotalBytes(second.value, observedAt) else 0))
  {
    hide Weight, Greedy, EncodedBytes, ReservedEntries, ReservedBytes, TotalBytes, ValidEntry, Flatten;
    if second.Some? {
      TwoEndpoints(first, second.value, observedAt, firstBytes, secondBytes, n);
    } else {
      OneEndpoint(first, observedAt, n);
    }
  }

  lemma ReservedEnough(n: nat, closed: nat)
    requires n >= 1 && 20000 * closed <= n
    ensures closed + 2 <= ReservedEntries(n)
  {
    assert CeilDiv(n, ENTRY_MAX_BYTES) >= 1;
    assert CeilDiv(n, 20000) >= closed;
  }
}
