/** Sampling the statistics endpoints: readings, checkpoints and the history of service
    lifetimes. The node agent and the panel sample in the same way. */
module Sampling {
  import opened Traffic
  import opened Wrappers

  type BatchId = nat
  type Url = string
  type Epoch = string

  datatype Batch = Batch(id: BatchId, observedAt: int, traffic: UserTraffic)

  /** A reading of one statistics endpoint: the service's epoch and its running counters. */
  datatype Sample = Sample(url: Url, epoch: Epoch, traffic: UserTraffic)

  datatype Checkpoint = Checkpoint(epoch: Epoch, traffic: UserTraffic)

  /** uuid4: an id that has not been drawn before. */
  method FreshId(used: set<BatchId>) returns (id: BatchId)
    ensures id !in used
  {
    id := 0;
    var above := used;
    while id in above
      invariant above <= used
      invariant forall k :: k in used && k !in above ==> k < id
      decreases |above|
    {
      above := above - {id};
      id := id + 1;
    }
  }

  /** The checkpointed counters a sample is compared with: empty after a service restart. */
  function Baseline(endpoints: map<Url, Checkpoint>, sample: Sample): UserTraffic {
    if sample.url in endpoints && endpoints[sample.url].epoch == sample.epoch
    then endpoints[sample.url].traffic else map[]
  }

  function Advance(endpoints: map<Url, Checkpoint>, samples: seq<Sample>): map<Url, Checkpoint> {
    if samples == [] then endpoints
    else
      var last := samples[|samples| - 1];
      Advance(endpoints, samples[..|samples| - 1])[last.url := Checkpoint(last.epoch, last.traffic)]
  }

  function Gained(endpoints: map<Url, Checkpoint>, samples: seq<Sample>, who: Account): int {
    if samples == [] then 0
    else
      var last := samples[|samples| - 1];
      var before := samples[..|samples| - 1];
      Gained(endpoints, before, who)
      + Amount(last.traffic, who) - Amount(Baseline(Advance(endpoints, before), last), who)
  }

  /** The last counters recorded for a service lifetime. */
  function Recorded(lifetimes: seq<Sample>, url: Url, epoch: Epoch): Option<UserTraffic> {
    if lifetimes == [] then None
    else
      var last := lifetimes[|lifetimes| - 1];
      if last.url == url && last.epoch == epoch then Some(last.traffic)
      else Recorded(lifetimes[..|lifetimes| - 1], url, epoch)
  }

  function Record(lifetimes: seq<Sample>, sample: Sample): seq<Sample> {
    if lifetimes == [] then [sample]
    else
      var n := |lifetimes| - 1;
      if lifetimes[n].url == sample.url && lifetimes[n].epoch == sample.epoch
      then lifetimes[..n] + [sample]
      else Record(lifetimes[..n], sample) + [lifetimes[n]]
  }

  function RecordAll(lifetimes: seq<Sample>, samples: seq<Sample>): seq<Sample> {
    if samples == [] then lifetimes
    else Record(RecordAll(lifetimes, samples[..|samples| - 1]), samples[|samples| - 1])
  }

  /** A sample continues its checkpoint; or its service was started since, under an epoch that
      this endpoint has never shown before. */
  predicate Acceptable(endpoints: map<Url, Checkpoint>, lifetimes: seq<Sample>, sample: Sample) {
    && Continues(Baseline(endpoints, sample), sample.traffic)
    && ((sample.url in endpoints && endpoints[sample.url].epoch == sample.epoch)
        || Recorded(lifetimes, sample.url, sample.epoch).None?)
  }

  predicate AllAcceptable(endpoints: map<Url, Checkpoint>, lifetimes: seq<Sample>, samples: seq<Sample>) {
    samples != [] ==>
      var before := samples[..|samples| - 1];
      && AllAcceptable(endpoints, lifetimes, before)
      && Acceptable(Advance(endpoints, before), RecordAll(lifetimes, before), samples[|samples| - 1])
  }

  /** Everything ever checkpointed: the last counters of every lifetime of every endpoint. */
  function Checkpointed(lifetimes: seq<Sample>, who: Account): nat {
    if lifetimes == [] then 0
    else Checkpointed(lifetimes[..|lifetimes| - 1], who) + Amount(lifetimes[|lifetimes| - 1].traffic, who)
  }

  /** The journal holds the last counters of the lifetimes it knows. */
  ghost predicate Linked(endpoints: map<Url, Checkpoint>, lifetimes: seq<Sample>) {
    forall url :: url in endpoints ==>
      Recorded(lifetimes, url, endpoints[url].epoch) == Some(endpoints[url].traffic)
  }

  // Checkpointing keeps the books.

  lemma {:induction false} RecordSum(lifetimes: seq<Sample>, sample: Sample, who: Account)
    ensures var prior := Recorded(lifetimes, sample.url, sample.epoch);
            Checkpointed(Record(lifetimes, sample), who) + (if prior.Some? then Amount(prior.value, who) else 0)
            == Checkpointed(lifetimes, who) + Amount(sample.traffic, who)
  {
    if lifetimes != [] {
      var n := |lifetimes| - 1;
      if lifetimes[n].url != sample.url || lifetimes[n].epoch != sample.epoch {
        RecordSum(lifetimes[..n], sample, who);
        assert Record(lifetimes, sample)[..|Record(lifetimes, sample)| - 1] == Record(lifetimes[..n], sample);
      } else {
        assert (lifetimes[..n] + [sample])[..n] == lifetimes[..n];
      }
    }
  }

  lemma {:induction false} RecordedAfter(lifetimes: seq<Sample>, sample: Sample, url: Url, epoch: Epoch)
    ensures Recorded(Record(lifetimes, sample), url, epoch)
         == if url == sample.url && epoch == sample.epoch then Some(sample.traffic)
            else Recorded(lifetimes, url, epoch)
  {
    var after := Record(lifetimes, sample);
    if lifetimes == [] {
    } else {
      var n := |lifetimes| - 1;
      if lifetimes[n].url == sample.url && lifetimes[n].epoch == sample.epoch {
        assert after[..n] == lifetimes[..n];
      } else {
        RecordedAfter(lifetimes[..n], sample, url, epoch);
        assert after[..|after| - 1] == Record(lifetimes[..n], sample);
      }
    }
  }

  lemma BaselineRecorded(endpoints: map<Url, Checkpoint>, lifetimes: seq<Sample>, sample: Sample, who: Account)
    requires Linked(endpoints, lifetimes) && Acceptable(endpoints, lifetimes, sample)
    ensures var prior := Recorded(lifetimes, sample.url, sample.epoch);
            Amount(Baseline(endpoints, sample), who) == if prior.Some? then Amount(prior.value, who) else 0
  {
  }

  /** Checkpointing any number of samples adds exactly what they gained. */
  lemma {:induction false} SamplesBalance(
      endpoints: map<Url, Checkpoint>, lifetimes: seq<Sample>, samples: seq<Sample>)
    requires Linked(endpoints, lifetimes) && AllAcceptable(endpoints, lifetimes, samples)
    ensures Linked(Advance(endpoints, samples), RecordAll(lifetimes, samples))
    ensures forall who :: Checkpointed(RecordAll(lifetimes, samples), who)
                       == Checkpointed(lifetimes, who) + Gained(endpoints, samples, who)
  {
    if samples != [] {
      var before, last := samples[..|samples| - 1], samples[|samples| - 1];
      SamplesBalance(endpoints, lifetimes, before);
      var e, l := Advance(endpoints, before), RecordAll(lifetimes, before);
      forall who ensures Checkpointed(Record(l, last), who)
                      == Checkpointed(lifetimes, who) + Gained(endpoints, samples, who) {
        RecordSum(l, last, who);
        BaselineRecorded(e, l, last, who);
      }
      forall url | url in Advance(endpoints, samples)
        ensures Recorded(Record(l, last), url, Advance(endpoints, samples)[url].epoch)
             == Some(Advance(endpoints, samples)[url].traffic) {
        RecordedAfter(l, last, url, Advance(endpoints, samples)[url].epoch);
      }
    }
  }

  // Readings.

  /** What one statistics endpoint answered: nothing usable, or its counters between two
      readings of its service's epoch. */
  datatype Reading = Unreadable(url: Url) | Answer(url: Url, before: Epoch, traffic: UserTraffic, after: Epoch)

  /** The statistics URLs are distinct, and a service start brings an epoch never seen before. */
  predicate Truthful(endpoints: map<Url, Checkpoint>, lifetimes: seq<Sample>, readings: seq<Reading>) {
    && DistinctUrls(readings)
    && (forall r :: r in readings && r.Answer? && r.before == r.after ==>
          (r.url in endpoints && endpoints[r.url].epoch == r.before)
          || Recorded(lifetimes, r.url, r.before).None?)
  }

  /** A sample of the endpoint at `url` still compares with the checkpoints of before the cycle. */
  lemma {:induction false} OtherUrls(endpoints: map<Url, Checkpoint>, lifetimes: seq<Sample>, samples: seq<Sample>,
                                     url: Url, epoch: Epoch)
    requires forall s :: s in samples ==> s.url != url
    ensures Recorded(RecordAll(lifetimes, samples), url, epoch) == Recorded(lifetimes, url, epoch)
    ensures url in Advance(endpoints, samples) <==> url in endpoints
    ensures url in endpoints ==> Advance(endpoints, samples)[url] == endpoints[url]
  {
    if samples != [] {
      var n := |samples| - 1;
      assert samples[n] in samples;
      OtherUrls(endpoints, lifetimes, samples[..n], url, epoch);
      RecordedAfter(RecordAll(lifetimes, samples[..n]), samples[n], url, epoch);
    }
  }

  function ToSample(r: Reading): Sample
    requires r.Answer?
  {
    Sample(r.url, r.before, r.traffic)
  }

  /** A complete answer from one service lifetime that continues the checkpoint it has. */
  predicate Usable(endpoints: map<Url, Checkpoint>, r: Reading) {
    && r.Answer? && r.before == r.after && ValidTraffic(r.traffic)
    && Continues(Baseline(endpoints, ToSample(r)), r.traffic)
  }

  /** The samples a sequence of readings yields: a failing endpoint is passed over. */
  function Taken(endpoints: map<Url, Checkpoint>, readings: seq<Reading>): (samples: seq<Sample>)
    ensures |samples| <= |readings|
  {
    if readings == [] then []
    else
      var r := readings[|readings| - 1];
      var before := Taken(endpoints, readings[..|readings| - 1]);
      if Usable(Advance(endpoints, before), r) then before + [ToSample(r)] else before
  }

  lemma {:induction false} TakenUrl(endpoints: map<Url, Checkpoint>, readings: seq<Reading>, s: Sample)
    requires s in Taken(endpoints, readings)
    ensures exists i :: 0 <= i < |readings| && readings[i].url == s.url
  {
    var n := |readings| - 1;
    if s in Taken(endpoints, readings[..n]) {
      TakenUrl(endpoints, readings[..n], s);
      var i :| 0 <= i < n && readings[..n][i].url == s.url;
      assert readings[i].url == s.url;
    } else {
      assert readings[n].url == s.url;
    }
  }

  lemma TakenNext(endpoints: map<Url, Checkpoint>, readings: seq<Reading>, i: nat)
    requires i < |readings|
    ensures var before := Taken(endpoints, readings[..i]);
            if Usable(Advance(endpoints, before), readings[i])
            then readings[i].Answer? && Taken(endpoints, readings[..i + 1]) == before + [ToSample(readings[i])]
            else Taken(endpoints, readings[..i + 1]) == before
  {
    assert readings[..i + 1][..i] == readings[..i];
  }

  lemma UsableDelta(endpoints: map<Url, Checkpoint>, r: Reading)
    requires Usable(endpoints, r)
    ensures Continues(Baseline(endpoints, ToSample(r)), r.traffic)
    ensures ValidTraffic(Delta(Baseline(endpoints, ToSample(r)), r.traffic))
  {
    DeltaValid(Baseline(endpoints, ToSample(r)), r.traffic);
  }

  lemma TakenAcceptable(endpoints: map<Url, Checkpoint>, lifetimes: seq<Sample>, readings: seq<Reading>, i: nat)
    requires i < |readings| && Truthful(endpoints, lifetimes, readings)
    requires Usable(Advance(endpoints, Taken(endpoints, readings[..i])), readings[i])
    ensures var samples := Taken(endpoints, readings[..i]);
            Acceptable(Advance(endpoints, samples), RecordAll(lifetimes, samples), ToSample(readings[i]))
  {
    var samples, r := Taken(endpoints, readings[..i]), readings[i];
    assert r in readings;
    forall s | s in samples ensures s.url != r.url {
      TakenUrl(endpoints, readings[..i], s);
    }
    OtherUrls(endpoints, lifetimes, samples, r.url, r.before);
  }

  predicate DistinctUrls(readings: seq<Reading>) {
    forall i, j :: 0 <= i < j < |readings| ==> readings[i].url != readings[j].url
  }

  /** When no endpoint failed, every one of them is checkpointed at what it answered. */
  lemma {:induction false} TakenAll(endpoints: map<Url, Checkpoint>, readings: seq<Reading>, i: nat)
    requires i < |readings| == |Taken(endpoints, readings)| && DistinctUrls(readings)
    ensures var r, after := readings[i], Advance(endpoints, Taken(endpoints, readings));
            r.Answer? && r.url in after && after[r.url] == Checkpoint(r.before, r.traffic)
  {
    hide Taken, Usable, Advance;
    var n := |readings| - 1;
    var before := Taken(endpoints, readings[..n]);
    var r := readings[n];
    TakenNext(endpoints, readings, n);
    assert readings[..n + 1] == readings;
    AdvanceLast(endpoints, before, ToSample(r));
    if i < n {
      TakenAll(endpoints, readings[..n], i);
      assert readings[..n][i].url != r.url;
    }
  }

  lemma AdvanceLast(endpoints: map<Url, Checkpoint>, samples: seq<Sample>, sample: Sample)
    ensures Advance(endpoints, samples + [sample])
         == Advance(endpoints, samples)[sample.url := Checkpoint(sample.epoch, sample.traffic)]
  {
    assert (samples + [sample])[..|samples|] == samples;
  }
}
