/** From a counter map to spool batches: the partitioned batches carry exactly the map. */
module Counting {
  import opened Traffic
  import opened Wrappers
  import opened Sampling
  import opened Accounting
  import P = TrafficPartition

  function ToTraffic(entries: seq<P.Entry>): UserTraffic {
    if entries == [] then map[]
    else ToTraffic(entries[..|entries| - 1])[entries[|entries| - 1].name := entries[|entries| - 1].counters]
  }

  predicate DistinctNames(entries: seq<P.Entry>) {
    forall i, j :: 0 <= i < j < |entries| ==> entries[i].name != entries[j].name
  }

  /** What the entries list for an account. */
  function Listed(entries: seq<P.Entry>, who: Account): nat {
    if entries == [] then 0
    else
      var last := entries[|entries| - 1];
      Listed(entries[..|entries| - 1], who)
      + (if last.name != who.user then 0 else if who.direction.Tx? then last.counters.tx else last.counters.rx)
  }

  lemma {:induction false} ToTrafficKeys(entries: seq<P.Entry>)
    ensures ToTraffic(entries).Keys == set e | e in entries :: e.name
  {
    if entries != [] {
      var n := |entries| - 1;
      ToTrafficKeys(entries[..n]);
      assert entries == entries[..n] + [entries[n]];
    }
  }

  lemma {:induction false} ListedAmount(entries: seq<P.Entry>, who: Account)
    requires DistinctNames(entries)
    ensures Listed(entries, who) == Amount(ToTraffic(entries), who)
  {
    if entries != [] {
      var n := |entries| - 1;
      ListedAmount(entries[..n], who);
      ToTrafficKeys(entries[..n]);
      if entries[n].name == who.user {
        assert who.user !in ToTraffic(entries[..n]);
      }
    }
  }

  lemma {:induction false} ListedAppend(a: seq<P.Entry>, b: seq<P.Entry>, who: Account)
    ensures Listed(a + b, who) == Listed(a, who) + Listed(b, who)
  {
    if b == [] {
      assert a + b == a;
    } else {
      assert (a + b)[..|a + b| - 1] == a + b[..|b| - 1];
      ListedAppend(a, b[..|b| - 1], who);
    }
  }

  /** A counter map's items, in some order. */
  method Items(traffic: UserTraffic) returns (entries: seq<P.Entry>)
    ensures DistinctNames(entries) && ToTraffic(entries) == traffic
  {
    entries := [];
    var rest := traffic.Keys;
    while rest != {}
      invariant rest <= traffic.Keys && DistinctNames(entries)
      invariant forall e :: e in entries ==> e.name in traffic && e.name !in rest && e.counters == traffic[e.name]
      invariant ToTraffic(entries) == traffic - rest
    {
      var name :| name in rest;
      var e := P.Entry(name, traffic[name]);
      assert (entries + [e])[..|entries|] == entries;
      entries := entries + [e];
      rest := rest - {name};
    }
  }

  /** A batch whose entries keep the limits on users and bytes of a spool entry. */
  ghost predicate WithinLimits(b: Batch, observedAt: nat) {
    && b.observedAt == observedAt && |b.traffic| <= P.MAX_USERS
    && exists entries :: ToTraffic(entries) == b.traffic && DistinctNames(entries) && P.Fits(entries, observedAt)
  }

  lemma {:induction false} EachFits(groups: seq<seq<P.Entry>>, observedAt: nat, j: nat)
    requires P.Greedy(groups, observedAt) && j < |groups| && DistinctNames(P.Flatten(groups))
    ensures P.Fits(groups[j], observedAt) && DistinctNames(groups[j])
  {
    var n := |groups| - 1;
    var before := P.Flatten(groups[..n]);
    assert P.Flatten(groups) == before + groups[n];
    if j == n {
      assert forall i :: 0 <= i < |groups[n]| ==> groups[n][i] == P.Flatten(groups)[|before| + i];
    } else {
      assert forall i :: 0 <= i < |before| ==> before[i] == P.Flatten(groups)[i];
      EachFits(groups[..n], observedAt, j);
    }
  }

  lemma {:induction false} FewerUsers(entries: seq<P.Entry>)
    ensures |ToTraffic(entries)| <= |entries|
  {
    if entries != [] { FewerUsers(entries[..|entries| - 1]); }
  }

  /** _partition: batches with fresh ids that together carry exactly this counter map. */
  method Partition(traffic: UserTraffic, observedAt: nat, used: set<BatchId>) returns (r: Option<seq<Batch>>)
    requires observedAt <= MAX_COUNTER
    ensures r.Some? <==> ValidTraffic(traffic)
    ensures r.Some? ==> Distinct(r.value) && Ids(r.value) !! used
    ensures r.Some? ==> forall who :: SumAll(r.value, who) == Amount(traffic, who)
    ensures r.Some? ==> r.value != [] && forall b :: b in r.value ==> WithinLimits(b, observedAt)
  {
    var entries := Items(traffic);
    ToTrafficKeys(entries);
    ItemsValid(entries, traffic);
    var split := P.Partition(entries, observedAt);
    if split.None? {
      return None;
    }
    var batches := Identify(split.value, observedAt, used);
    forall who ensures SumAll(batches, who) == Amount(traffic, who) {
      ListedAmount(entries, who);
      GroupsSum(split.value, batches, who);
    }
    forall b | b in batches ensures WithinLimits(b, observedAt) {
      var j :| 0 <= j < |batches| && batches[j] == b;
      EachFits(split.value, observedAt, j);
      FewerUsers(split.value[j]);
    }
    return Some(batches);
  }

  /** One batch for each group, under a fresh id. */
  method Identify(groups: seq<seq<P.Entry>>, observedAt: nat, used: set<BatchId>) returns (batches: seq<Batch>)
    ensures |batches| == |groups| && Distinct(batches) && Ids(batches) !! used
    ensures forall j :: 0 <= j < |groups| ==> batches[j].traffic == ToTraffic(groups[j])
    ensures forall b :: b in batches ==> b.observedAt == observedAt
  {
    batches := [];
    for i := 0 to |groups|
      invariant |batches| == i
      invariant Distinct(batches) && Ids(batches) !! used
      invariant forall j :: 0 <= j < i ==> batches[j].traffic == ToTraffic(groups[j])
      invariant forall b :: b in batches ==> b.observedAt == observedAt
    {
      var id := FreshId(used + Ids(batches));
      forall j | 0 <= j < i ensures batches[j].id != id {
        assert batches[j] in batches;
        assert batches[j].id in Ids(batches);
      }
      batches := batches + [Batch(id, observedAt, ToTraffic(groups[i]))];
    }
  }

  lemma {:induction false} ItemsValid(entries: seq<P.Entry>, traffic: UserTraffic)
    requires DistinctNames(entries) && ToTraffic(entries) == traffic
    ensures (forall e :: e in entries ==> P.ValidEntry(e)) <==> ValidTraffic(traffic)
  {
    if entries != [] {
      var n := |entries| - 1;
      var before := ToTraffic(entries[..n]);
      ToTrafficKeys(entries[..n]);
      assert entries[n].name !in before;
      ItemsValid(entries[..n], before);
      assert traffic == before[entries[n].name := entries[n].counters];
      assert forall e :: e in entries <==> e in entries[..n] || e == entries[n];
      assert ValidTraffic(traffic) <==> ValidTraffic(before) && P.ValidEntry(entries[n]) by {
        if ValidTraffic(traffic) {
          assert forall name :: name in before ==> name in traffic && traffic[name] == before[name];
          assert entries[n].name in traffic;
        }
      }
    }
  }

  lemma {:induction false} GroupsSum(groups: seq<seq<P.Entry>>, batches: seq<Batch>, who: Account)
    requires |groups| == |batches| && DistinctNames(P.Flatten(groups))
    requires forall i :: 0 <= i < |groups| ==> batches[i].traffic == ToTraffic(groups[i])
    ensures SumAll(batches, who) == Listed(P.Flatten(groups), who)
  {
    if groups != [] {
      var n := |groups| - 1;
      var before := P.Flatten(groups[..n]);
      assert P.Flatten(groups) == before + groups[n];
      assert DistinctNames(before) by {
        assert forall i :: 0 <= i < |before| ==> before[i] == P.Flatten(groups)[i];
      }
      assert DistinctNames(groups[n]) by {
        assert forall i :: 0 <= i < |groups[n]| ==> groups[n][i] == P.Flatten(groups)[|before| + i];
      }
      GroupsSum(groups[..n], batches[..n], who);
      ListedAppend(before, groups[n], who);
      ListedAmount(groups[n], who);
    }
  }
}
