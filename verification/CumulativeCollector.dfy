/** CumulativeTrafficCollector of node_agent.py: journal a non-destructive sample together with
    its batches, then hand the batches to the spool. */
module CumulativeCollector {
  import opened Traffic
  import opened Sampling
  import opened Accounting
  import opened ExactlyOnce
  import opened NodeWorld
  import opened TrafficSpool
  import Counting

  function SumTraffic(collections: seq<UserTraffic>, who: Account): nat {
    if collections == [] then 0
    else SumTraffic(collections[..|collections| - 1], who) + Amount(collections[|collections| - 1], who)
  }

  class Collector {
    const world: World
    const spool: Spool
    var document: Journal

    ghost predicate Valid()
      reads this, world
    {
      world.Valid() && spool.world == world && document == world.now.journal
    }

    /** A started process reads the journal that the one before it left. */
    constructor (world: World, spool: Spool)
      requires world.Valid() && spool.world == world
      ensures Valid() && this.world == world && this.spool == spool
    {
      this.world := world;
      this.spool := spool;
      document := world.now.journal;
    }

    /** _save: replace the journal. It can fail before the replacement, or after it. */
    method Save(d: Journal, step: Step) returns (ok: bool)
      requires Valid() && (step.Journalled? || step.Cleared?)
      requires Enabled(world.now, step) && Apply(world.now, step).journal == d
      modifies this`document, world
      ensures Valid() && old(world.log) <= world.log
      ensures world.now == old(world.now) || world.now == Apply(old(world.now), step)
      ensures ok ==> world.now == Apply(old(world.now), step)
    {
      hide Inv, Possible, After;
      var noCapacity: bool := *;
      if noCapacity {
        return false;
      }
      world.Perform(step);
      document := d;
      ok := *;
    }

    method Recover() returns (ok: bool)
      requires Valid()
      modifies this`document, world
      ensures Valid() && old(world.log) <= world.log
      ensures world.now == old(world.now).(journal := world.now.journal, stages := world.now.stages,
                                               entries := world.now.entries, clipped := world.now.clipped)
      ensures world.now.journal.endpoints == old(world.now).journal.endpoints
      ensures ok ==> document.pending == []
      // Also when an error is reported: batches leave the journal only for the spool.
      ensures document.pending == old(document).pending || document.pending == []
      ensures document.pending == [] ==>
                forall b :: b in old(document).pending ==>
                  b.id in world.now.entries && EntryFile(world.now, b.id) == Whole(b)
    {
      if document.pending == [] {
        return true;
      }
      var pending := document.pending;
      var outcome := spool.PersistCollections(pending);
      SpoolingKeeps(old(world.now), world.now, pending);
      if outcome != Persisted {
        return false;
      }
      ok := Save(document.(pending := []), Cleared);
    }

    /** Sample every endpoint, journal what they gained, and move it to the spool. A failing
        endpoint does not advance and does not keep the others from advancing. */
    method Collect(observedAt: nat, readings: seq<Reading>) returns (ok: bool)
      requires Valid() && observedAt <= MAX_COUNTER
      requires Truthful(document.endpoints, world.now.lifetimes, readings)
      modifies this`document, world
      ensures Valid() && old(world.log) <= world.log
      ensures ok ==> document.pending == []
      // While batches are pending nothing is sampled.
      ensures old(document).pending != [] ==>
                document.endpoints == old(document).endpoints && world.now.minted == old(world.now).minted
      ensures old(document).pending == [] ==>
                document.endpoints == old(document).endpoints
                || document.endpoints == Advance(old(document).endpoints, Taken(old(document).endpoints, readings))
      ensures ok && old(document).pending == [] ==>
                |Taken(old(document).endpoints, readings)| == |readings|
                && document.endpoints == Advance(old(document).endpoints, Taken(old(document).endpoints, readings))
      ensures world.now.mail == old(world.now).mail
    {
      hide Inv, Possible, After, Truthful, Taken, AllAcceptable;
      if document.pending != [] {
        ok := Recover();
        return;
      }
      hide Gained, SumAll, SumTraffic, Advance, RecordAll, Enabled, Apply;
      var samples, collections, failed := SampleAll(document.endpoints, world.now.lifetimes, readings);
      var batches := Prepare(collections, observedAt, Ids(world.now.minted));
      if batches == [] {
        return !failed;
      }
      var endpoints := Advance(document.endpoints, samples);
      JournalledEnabled(world.now, samples, collections, batches);
      var saved := Save(Journal(endpoints, batches), Journalled(samples, batches));
      if !saved {
        return false;
      }
      var recovered := Recover();
      ok := recovered && !failed;
    }
  }

  lemma JournalledEnabled(s: State, samples: seq<Sample>, collections: seq<UserTraffic>, batches: seq<Batch>)
    requires s.journal.pending == [] && AllAcceptable(s.journal.endpoints, s.lifetimes, samples)
    requires Distinct(batches) && Ids(batches) !! Ids(s.minted)
    requires forall who :: SumTraffic(collections, who) == Gained(s.journal.endpoints, samples, who)
    requires forall who :: SumAll(batches, who) == SumTraffic(collections, who)
    ensures Enabled(s, Journalled(samples, batches))
    ensures Apply(s, Journalled(samples, batches)).journal == Journal(Advance(s.journal.endpoints, samples), batches)
    ensures Apply(s, Journalled(samples, batches)).mail == s.mail
  {
    forall b | b in batches ensures b.id !in Ids(s.minted) {
      assert b.id in Ids(batches);
    }
  }

  /** The sampling loop: the samples taken, what each gained, and whether any endpoint failed. */
  method SampleAll(endpoints: map<Url, Checkpoint>, ghost lifetimes: seq<Sample>, readings: seq<Reading>)
      returns (samples: seq<Sample>, collections: seq<UserTraffic>, failed: bool)
    requires Truthful(endpoints, lifetimes, readings)
    ensures samples == Taken(endpoints, readings)
    ensures failed <==> |samples| < |readings|
    ensures AllAcceptable(endpoints, lifetimes, samples)
    ensures |collections| == |samples| && forall c :: c in collections ==> ValidTraffic(c)
    ensures forall who :: SumTraffic(collections, who) == Gained(endpoints, samples, who)
  {
    hide Truthful, Taken, Usable, AllAcceptable, Gained, SumTraffic, Advance, Baseline, Continues, Delta, ValidTraffic,
      RecordAll, Acceptable;
    samples, collections, failed := [], [], false;
    SamplingNone(endpoints, lifetimes, readings);
    for i := 0 to |readings|
      invariant samples == Taken(endpoints, readings[..i])
      invariant failed <==> |samples| < i
      invariant |samples| <= i
      invariant AllAcceptable(endpoints, lifetimes, samples)
      invariant |collections| == |samples| && forall c :: c in collections ==> ValidTraffic(c)
      invariant forall who :: SumTraffic(collections, who) == Gained(endpoints, samples, who)
    {
      TakenNext(endpoints, readings, i);
      if !Usable(Advance(endpoints, samples), readings[i]) {
        failed := true;
      } else {
        var sample := ToSample(readings[i]);
        var baseline := Baseline(Advance(endpoints, samples), sample);
        TakenAcceptable(endpoints, lifetimes, readings, i);
        UsableDelta(Advance(endpoints, samples), readings[i]);
        TakeSample(endpoints, lifetimes, samples, collections, sample);
        samples := samples + [sample];
        collections := collections + [Delta(baseline, sample.traffic)];
      }
    }
    assert readings[..|readings|] == readings;
  }

  lemma SamplingNone(endpoints: map<Url, Checkpoint>, lifetimes: seq<Sample>, readings: seq<Reading>)
    ensures Taken(endpoints, readings[..0]) == [] && AllAcceptable(endpoints, lifetimes, [])
    ensures forall who :: SumTraffic([], who) == Gained(endpoints, [], who)
  {
  }

  lemma TakeSample(endpoints: map<Url, Checkpoint>, lifetimes: seq<Sample>, samples: seq<Sample>,
                   collections: seq<UserTraffic>, sample: Sample)
    requires AllAcceptable(endpoints, lifetimes, samples)
    requires Acceptable(Advance(endpoints, samples), RecordAll(lifetimes, samples), sample)
    requires forall who :: SumTraffic(collections, who) == Gained(endpoints, samples, who)
    ensures AllAcceptable(endpoints, lifetimes, samples + [sample])
    ensures Advance(endpoints, samples + [sample])
         == Advance(endpoints, samples)[sample.url := Checkpoint(sample.epoch, sample.traffic)]
    ensures var gain := Delta(Baseline(Advance(endpoints, samples), sample), sample.traffic);
            forall who :: SumTraffic(collections + [gain], who) == Gained(endpoints, samples + [sample], who)
  {
    assert (samples + [sample])[..|samples|] == samples;
    var baseline := Baseline(Advance(endpoints, samples), sample);
    var gain := Delta(baseline, sample.traffic);
    assert (collections + [gain])[..|collections|] == collections;
    forall who ensures SumTraffic(collections + [gain], who) == Gained(endpoints, samples + [sample], who) {
      DeltaAmount(baseline, sample.traffic, who);
    }
  }

  /** prepare_collections: partition every collection, under fresh ids throughout. */
  method Prepare(collections: seq<UserTraffic>, observedAt: nat, used: set<BatchId>) returns (batches: seq<Batch>)
    requires observedAt <= MAX_COUNTER
    requires forall c :: c in collections ==> ValidTraffic(c)
    ensures Distinct(batches) && Ids(batches) !! used
    ensures forall who :: SumAll(batches, who) == SumTraffic(collections, who)
    ensures batches == [] <==> collections == []
  {
    batches := [];
    for i := 0 to |collections|
      invariant Distinct(batches) && Ids(batches) !! used
      invariant forall who :: SumAll(batches, who) == SumTraffic(collections[..i], who)
      invariant batches == [] <==> i == 0
    {
      assert collections[i] in collections;
      var part := Counting.Partition(collections[i], observedAt, used + Ids(batches));
      DistinctAppend(batches, part.value);
      assert collections[..i + 1][..i] == collections[..i];
      forall who ensures SumAll(batches + part.value, who) == SumTraffic(collections[..i + 1], who) {
        SumAllAppend(batches, part.value, who);
      }
      assert Ids(batches + part.value) == Ids(batches) + Ids(part.value);
      batches := batches + part.value;
    }
    assert collections[..|collections|] == collections;
  }
}
