/** LocalCumulativeCollector of hy2panel/accounting.py: the panel's own exactly-once accounting.
    Differently from the node's, one merged batch is pending at a time, it is applied to the
    panel's database directly, and the journal is read again for every operation, because
    another process may have advanced it. */
module PanelAccounting {
  import opened Traffic
  import opened Wrappers
  import opened Sampling

  datatype PanelJournal = PanelJournal(endpoints: map<Url, Checkpoint>, pending: Option<Batch>)

  /** The journal file, the database's applied batches and totals, and the history. */
  datatype Books = Books(
    journal: PanelJournal,
    applied: set<BatchId>,
    total: UserTraffic,
    used: set<BatchId>,
    lifetimes: seq<Sample>)

  const OPENED := Books(PanelJournal(map[], None), {}, map[], {}, [])

  datatype Entry =
    | Sampled(samples: seq<Sample>, pending: Option<Batch>)
    | Applied
    | Settled

  ghost predicate Enabled(b: Books, e: Entry) {
    match e
    case Sampled(samples, pending) =>
      && b.journal.pending.None?
      && AllAcceptable(b.journal.endpoints, b.lifetimes, samples)
      && (pending.Some? ==> pending.value.id !in b.used)
      && forall who :: Carried(pending, who) == Gained(b.journal.endpoints, samples, who)
    case Applied => b.journal.pending.Some?
    case Settled => b.journal.pending.Some? && b.journal.pending.value.id in b.applied
  }

  function Carried(pending: Option<Batch>, who: Account): nat {
    if pending.Some? then Amount(pending.value.traffic, who) else 0
  }

  function Apply(b: Books, e: Entry): Books {
    match e
    case Sampled(samples, pending) =>
      b.(journal := PanelJournal(Advance(b.journal.endpoints, samples), pending),
         used := b.used + (if pending.Some? then {pending.value.id} else {}),
         lifetimes := RecordAll(b.lifetimes, samples))
    case Applied =>
      // The database applies a batch at most once per batch id.
      if b.journal.pending.None? || b.journal.pending.value.id in b.applied then b
      else b.(applied := b.applied + {b.journal.pending.value.id},
              total := Sum(b.total, b.journal.pending.value.traffic))
    case Settled => b.(journal := b.journal.(pending := None))
  }

  ghost predicate Possible(b: Books, entries: seq<Entry>)
    decreases |entries|, 0
  {
    entries != [] ==>
      var before := entries[..|entries| - 1];
      Possible(b, before) && Enabled(After(b, before), entries[|entries| - 1])
  }

  function After(b: Books, entries: seq<Entry>): Books
    decreases |entries|, 1
  {
    if entries == [] then b else Apply(After(b, entries[..|entries| - 1]), entries[|entries| - 1])
  }

  /** The part of the pending batch that the database does not have yet. */
  function Unapplied(b: Books, who: Account): nat {
    if b.journal.pending.Some? && b.journal.pending.value.id !in b.applied
    then Amount(b.journal.pending.value.traffic, who) else 0
  }

  ghost predicate Inv(b: Books) {
    && b.applied <= b.used
    && (b.journal.pending.Some? ==> b.journal.pending.value.id in b.used)
    && Linked(b.journal.endpoints, b.lifetimes)
    && forall who :: Amount(b.total, who) + Unapplied(b, who) == Checkpointed(b.lifetimes, who)
  }

  lemma EntryKeeps(b: Books, e: Entry)
    requires Inv(b) && Enabled(b, e)
    ensures Inv(Apply(b, e))
  {
    match e
    case Sampled(samples, pending) =>
      SamplesBalance(b.journal.endpoints, b.lifetimes, samples);
    case Applied =>
      forall who ensures Amount(Apply(b, e).total, who) + Unapplied(Apply(b, e), who) == Checkpointed(b.lifetimes, who) {
        SumAmount(b.total, b.journal.pending.value.traffic, who);
      }
    case Settled =>
  }

  /** Exactly-once on the panel: whichever process did what, and wherever any of them died, the
      applied totals plus the unapplied pending batch are what was ever checkpointed. */
  lemma {:induction false} PanelExactlyOnce(entries: seq<Entry>)
    requires Possible(OPENED, entries)
    ensures Inv(After(OPENED, entries))
    ensures forall who :: Amount(After(OPENED, entries).total, who) + Unapplied(After(OPENED, entries), who)
                       == Checkpointed(After(OPENED, entries).lifetimes, who)
  {
    if entries != [] {
      PanelExactlyOnce(entries[..|entries| - 1]);
      EntryKeeps(After(OPENED, entries[..|entries| - 1]), entries[|entries| - 1]);
    }
  }

  lemma Longer(log: seq<Entry>, e: Entry)
    requires Possible(OPENED, log) && Enabled(After(OPENED, log), e)
    ensures Possible(OPENED, log + [e]) && After(OPENED, log + [e]) == Apply(After(OPENED, log), e)
  {
    hide Enabled, Apply;
    assert (log + [e])[..|log + [e]| - 1] == log;
  }

  /** What all panel processes share. */
  class Ledger {
    var books: Books
    ghost var log: seq<Entry>

    ghost predicate Valid()
      reads this
    {
      Possible(OPENED, log) && After(OPENED, log) == books && Inv(books)
    }

    constructor ()
      ensures Valid() && books == OPENED
    {
      books := OPENED;
      log := [];
    }

    method Perform(e: Entry)
      requires Valid() && Enabled(books, e)
      modifies this
      ensures Valid() && books == Apply(old(books), e) && log == old(log) + [e]
    {
      hide Inv, Enabled, Apply, Possible, After;
      EntryKeeps(books, e);
      Longer(log, e);
      books := Apply(books, e);
      log := log + [e];
    }

    /** A write that may fail before it happened, or after. */
    method Try(e: Entry) returns (ok: bool)
      requires Valid() && Enabled(books, e)
      modifies this
      ensures Valid() && old(log) <= log
      ensures books == old(books) || books == Apply(old(books), e)
      ensures ok ==> books == Apply(old(books), e)
    {
      var failsBefore: bool := *;
      if failsBefore {
        return false;
      }
      Perform(e);
      ok := *;
    }
  }

  /** One process's collector. Any number of them work on the same ledger, one at a time. */
  class LocalCollector {
    const ledger: Ledger
    var freshBatch: Option<BatchId>

    constructor (ledger: Ledger)
      ensures this.ledger == ledger && freshBatch == None
    {
      this.ledger := ledger;
      freshBatch := None;
    }

    /** Apply what is pending, then clear it from the journal. `own` tells whether the applied
        batch was sampled by this very process. */
    method Recover() returns (ok: bool, own: bool)
      requires ledger.Valid()
      modifies this, ledger
      ensures ledger.Valid() && old(ledger.log) <= ledger.log
      ensures ledger.books.journal.endpoints == old(ledger.books).journal.endpoints
      ensures ledger.books.lifetimes == old(ledger.books).lifetimes
      ensures ok ==> ledger.books.journal.pending.None?
      ensures ok ==> old(ledger.books).journal.pending.Some? ==>
                old(ledger.books).journal.pending.value.id in ledger.books.applied
      ensures own ==>
                && old(ledger.books).journal.pending.Some?
                && Some(old(ledger.books).journal.pending.value.id) == old(freshBatch)
    {
      hide Inv, Possible, After;
      var document := ledger.books.journal;
      if document.pending.None? {
        return true, false;
      }
      own := Some(document.pending.value.id) == freshBatch;
      var applied := ledger.Try(Applied);
      if !applied {
        return false, own;
      }
      var cleared := ledger.Try(Settled);
      if !cleared {
        return false, own;
      }
      freshBatch := None;
      return true, own;
    }

    method Collect(observedAt: int, readings: seq<Reading>) returns (ok: bool)
      requires ledger.Valid()
      requires Truthful(ledger.books.journal.endpoints, ledger.books.lifetimes, readings)
      modifies this, ledger
      ensures ledger.Valid() && old(ledger.log) <= ledger.log
      ensures var before := old(ledger.books).journal.endpoints;
              ledger.books.journal.endpoints == before
              || ledger.books.journal.endpoints == Advance(before, Taken(before, readings))
      ensures var before := old(ledger.books).journal.endpoints;
              ok ==>
                && ledger.books.journal.pending.None?
                && |Taken(before, readings)| == |readings|
                && ledger.books.journal.endpoints == Advance(before, Taken(before, readings))
    {
      hide Inv, Possible, After, Truthful, Taken;
      var recovered, mine := Recover();
      if !recovered {
        return false;
      }
      var document := ledger.books.journal;
      var samples, merged, failed := SampleMerged(document.endpoints, ledger.books.lifetimes, readings);
      if !ValidTraffic(merged) {
        return false;
      }
      var endpoints := Advance(document.endpoints, samples);
      var pending: Option<Batch> := None;
      if merged != map[] {
        var id := FreshId(ledger.books.used);
        pending := Some(Batch(id, observedAt, merged));
        freshBatch := Some(id);
      }
      if pending.Some? || endpoints != document.endpoints {
        var saved := ledger.Try(Sampled(samples, pending));
        if !saved {
          return false;
        }
        var applied, own := Recover();
        if !applied {
          return false;
        }
      }
      ok := !failed;
    }
  }

  /** One endpoint's non-zero differences, added to the merged sample name by name. */
  method MergeDelta(merged: UserTraffic, baseline: UserTraffic, traffic: UserTraffic) returns (sum: UserTraffic)
    requires Continues(baseline, traffic)
    ensures sum == Sum(merged, Delta(baseline, traffic))
  {
    hide Delta, Sum, Continues;
    DeltaNames(baseline, traffic);
    sum := merged;
    var rest := traffic.Keys;
    ghost var delta := Delta(baseline, traffic);
    MergeStart(merged, delta, rest);
    while rest != {}
      invariant rest <= traffic.Keys
      invariant sum == Sum(merged, delta - rest)
    {
      var name :| name in rest;
      var gain := Gain(baseline, traffic, name);
      MergeName(merged, delta, rest, name);
      if gain.tx != 0 || gain.rx != 0 {
        var total := Old(sum, name);
        sum := sum[name := Counters(total.tx + gain.tx, total.rx + gain.rx)];
      }
      rest := rest - {name};
    }
    assert delta - {} == delta;
  }

  lemma MergeStart(merged: UserTraffic, delta: UserTraffic, names: set<string>)
    requires delta.Keys <= names
    ensures merged == Sum(merged, delta - names)
  {
    assert delta - names == map[];
  }

  lemma MergeName(merged: UserTraffic, delta: UserTraffic, rest: set<string>, name: string)
    requires name in rest
    ensures var sum, next := Sum(merged, delta - rest), Sum(merged, delta - (rest - {name}));
            if name in delta
            then next == sum[name := Counters(Old(sum, name).tx + delta[name].tx, Old(sum, name).rx + delta[name].rx)]
            else next == sum
  {
    var before, after := delta - rest, delta - (rest - {name});
    if name in delta {
      assert after == before[name := delta[name]];
    } else {
      assert after == before;
    }
  }

  /** The sampling loop of the panel: as the node's, but merged into one map. */
  method SampleMerged(endpoints: map<Url, Checkpoint>, ghost lifetimes: seq<Sample>, readings: seq<Reading>)
      returns (samples: seq<Sample>, merged: UserTraffic, failed: bool)
    requires Truthful(endpoints, lifetimes, readings)
    ensures samples == Taken(endpoints, readings)
    ensures failed <==> |samples| < |readings|
    ensures AllAcceptable(endpoints, lifetimes, samples)
    ensures forall who :: Amount(merged, who) == Gained(endpoints, samples, who)
  {
    hide Truthful, Taken, Usable, AllAcceptable, Gained, Advance, Baseline, Continues, Delta, ValidTraffic,
      RecordAll, Acceptable, Amount, Sum;
    samples, merged, failed := [], map[], false;
    MergingNone(endpoints, lifetimes, readings);
    for i := 0 to |readings|
      invariant samples == Taken(endpoints, readings[..i])
      invariant failed <==> |samples| < i
      invariant |samples| <= i
      invariant AllAcceptable(endpoints, lifetimes, samples)
      invariant forall who :: Amount(merged, who) == Gained(endpoints, samples, who)
    {
      TakenNext(endpoints, readings, i);
      if !Usable(Advance(endpoints, samples), readings[i]) {
        failed := true;
      } else {
        var sample := ToSample(readings[i]);
        var baseline := Baseline(Advance(endpoints, samples), sample);
        TakenAcceptable(endpoints, lifetimes, readings, i);
        UsableDelta(Advance(endpoints, samples), readings[i]);
        MergeSample(endpoints, lifetimes, samples, merged, sample);
        merged := MergeDelta(merged, baseline, sample.traffic);
        samples := samples + [sample];
      }
    }
    assert readings[..|readings|] == readings;
  }

  lemma MergingNone(endpoints: map<Url, Checkpoint>, lifetimes: seq<Sample>, readings: seq<Reading>)
    ensures Taken(endpoints, readings[..0]) == [] && AllAcceptable(endpoints, lifetimes, [])
    ensures forall who :: Amount(map[], who) == Gained(endpoints, [], who)
  {
  }

  lemma MergeSample(endpoints: map<Url, Checkpoint>, lifetimes: seq<Sample>, samples: seq<Sample>,
                    merged: UserTraffic, sample: Sample)
    requires AllAcceptable(endpoints, lifetimes, samples)
    requires Acceptable(Advance(endpoints, samples), RecordAll(lifetimes, samples), sample)
    requires forall who :: Amount(merged, who) == Gained(endpoints, samples, who)
    ensures AllAcceptable(endpoints, lifetimes, samples + [sample])
    ensures var gain := Delta(Baseline(Advance(endpoints, samples), sample), sample.traffic);
            forall who :: Amount(Sum(merged, gain), who) == Gained(endpoints, samples + [sample], who)
  {
    assert (samples + [sample])[..|samples|] == samples;
    var baseline := Baseline(Advance(endpoints, samples), sample);
    var gain := Delta(baseline, sample.traffic);
    forall who ensures Amount(Sum(merged, gain), who) == Gained(endpoints, samples + [sample], who) {
      SumAmount(merged, gain, who);
      DeltaAmount(baseline, sample.traffic, who);
    }
  }
}
