/** Losing power, not only the process. A replaced journal is visible at once, but it survives a
    power loss only when its directory has been synced; until then the power loss brings back the
    journal of before. The services that are sampled run on the same host: a power loss ends them,
    and their counters start again under new epochs. */
module PowerLoss {
  import opened Traffic
  import opened Sampling
  import opened Accounting
  import opened ExactlyOnce

  /** The visible state; the journal that a power loss leaves; the lifetimes that the last power
      loss ended; and the batches that power losses have destroyed. */
  datatype Power = Power(now: State, journal: Journal, past: seq<Sample>, gone: set<Batch>)

  datatype Event = Happened(step: Step) | Synced | Lost

  const POWERED := Power(START, START.journal, [], {})

  predicate Staged(s: State, b: Batch) {
    b.id in s.stages && !s.stages[b.id].Torn? && s.stages[b.id].batch == b
  }

  /** The batch is committed, or some file of the spool or the archive holds it. */
  predicate OnFile(s: State, b: Batch) {
    b.id in s.entries || b.id in s.applied || b.id in s.archive
  }

  /** The batches that stand in the visible journal only: it is not synced, no file holds them,
      and they are not committed. */
  function AtRisk(p: Power): set<Batch> {
    set b | b in p.now.journal.pending && b !in p.journal.pending && !OnFile(p.now, b) && !Staged(p.now, b)
  }

  ghost predicate Allowed(p: Power, e: Event) {
    e.Happened? ==>
      && Enabled(p.now, e.step)
      && (e.step.Journalled? ==> forall x :: x in e.step.samples ==> Recorded(p.past, x.url, x.epoch).None?)
  }

  function Next(p: Power, e: Event): Power
    requires Allowed(p, e)
  {
    match e
    case Happened(step) => p.(now := Apply(p.now, step))
    case Synced => p.(journal := p.now.journal)
    case Lost => p.(now := p.now.(journal := p.journal), past := p.now.lifetimes, gone := p.gone + AtRisk(p))
  }

  ghost predicate Runs(events: seq<Event>)
    decreases |events|, 0
  {
    events != [] ==> Runs(events[..|events| - 1]) && Allowed(Reached(events[..|events| - 1]), events[|events| - 1])
  }

  ghost function Reached(events: seq<Event>): Power
    requires Runs(events)
    decreases |events|, 1
  {
    if events == [] then POWERED else Next(Reached(events[..|events| - 1]), events[|events| - 1])
  }

  // Lifetimes that have ended.

  predicate Ended(past: seq<Sample>, url: Url, epoch: Epoch) {
    Recorded(past, url, epoch).Some?
  }

  /** The checkpoints of services that may still be running. */
  function Live(endpoints: map<Url, Checkpoint>, past: seq<Sample>): map<Url, Checkpoint> {
    map url | url in endpoints && !Ended(past, url, endpoints[url].epoch) :: endpoints[url]
  }

  ghost predicate Known(endpoints: map<Url, Checkpoint>, lifetimes: seq<Sample>) {
    forall url :: url in endpoints ==> Recorded(lifetimes, url, endpoints[url].epoch).Some?
  }

  predicate AllNew(past: seq<Sample>, samples: seq<Sample>) {
    forall x :: x in samples ==> !Ended(past, x.url, x.epoch)
  }

  /** To samples of running services, the checkpoints of ended ones make no difference. */
  lemma {:induction false} LiveSamples(endpoints: map<Url, Checkpoint>, lifetimes: seq<Sample>, past: seq<Sample>, samples: seq<Sample>)
    requires AllNew(past, samples) && AllAcceptable(endpoints, lifetimes, samples)
    ensures AllAcceptable(Live(endpoints, past), lifetimes, samples)
    ensures Live(Advance(endpoints, samples), past) == Advance(Live(endpoints, past), samples)
    ensures forall who :: Gained(Live(endpoints, past), samples, who) == Gained(endpoints, samples, who)
  {
    if samples != [] {
      var n := |samples| - 1;
      assert samples[n] in samples;
      LiveSamples(endpoints, lifetimes, past, samples[..n]);
      LiveSample(Advance(endpoints, samples[..n]), RecordAll(lifetimes, samples[..n]), past, samples[n]);
    }
  }

  lemma LiveSample(endpoints: map<Url, Checkpoint>, lifetimes: seq<Sample>, past: seq<Sample>, x: Sample)
    requires !Ended(past, x.url, x.epoch)
    ensures Baseline(Live(endpoints, past), x) == Baseline(endpoints, x)
    ensures Acceptable(endpoints, lifetimes, x) ==> Acceptable(Live(endpoints, past), lifetimes, x)
    ensures Live(endpoints[x.url := Checkpoint(x.epoch, x.traffic)], past)
         == Live(endpoints, past)[x.url := Checkpoint(x.epoch, x.traffic)]
  {
  }

  /** What is recorded stays recorded, and so is what is sampled. */
  lemma {:induction false} KnownAfter(endpoints: map<Url, Checkpoint>, lifetimes: seq<Sample>, samples: seq<Sample>)
    requires Known(endpoints, lifetimes)
    ensures Known(Advance(endpoints, samples), RecordAll(lifetimes, samples))
  {
    if samples != [] {
      var n := |samples| - 1;
      KnownAfter(endpoints, lifetimes, samples[..n]);
      forall url | url in Advance(endpoints, samples)
        ensures Recorded(RecordAll(lifetimes, samples), url, Advance(endpoints, samples)[url].epoch).Some? {
        RecordedAfter(RecordAll(lifetimes, samples[..n]), samples[n], url, Advance(endpoints, samples)[url].epoch);
      }
    }
  }

  lemma {:induction false} StillKnown(endpoints: map<Url, Checkpoint>, lifetimes: seq<Sample>, samples: seq<Sample>)
    requires Known(endpoints, lifetimes)
    ensures Known(endpoints, RecordAll(lifetimes, samples))
  {
    if samples != [] {
      var n := |samples| - 1;
      StillKnown(endpoints, lifetimes, samples[..n]);
      forall url | url in endpoints
        ensures Recorded(RecordAll(lifetimes, samples), url, endpoints[url].epoch).Some? {
        RecordedAfter(RecordAll(lifetimes, samples[..n]), samples[n], url, endpoints[url].epoch);
      }
    }
  }

  // The invariant.

  ghost predicate Books(p: Power) {
    var s := p.now;
    && (forall who :: Amount(s.total, who) == SumIn(s.minted, s.applied, who))
    && (forall who :: SumAll(s.minted, who) == Checkpointed(s.lifetimes, who))
    && Linked(Live(s.journal.endpoints, p.past), s.lifetimes)
    && Known(s.journal.endpoints, s.lifetimes) && Known(p.journal.endpoints, s.lifetimes)
  }

  /** What was ever sent is on file: a request is made of entries. */
  ghost predicate MailOnFile(s: State) {
    forall r, b :: r in s.mail && b in r.batches ==> OnFile(s, b)
  }

  lemma MailStays(s: State, t: State)
    requires MailOnFile(s) && t.mail == s.mail
    requires forall id :: id in s.entries ==> id in t.entries || id in t.applied || id in t.archive
    requires s.applied <= t.applied && s.archive.Keys <= t.archive.Keys
    ensures MailOnFile(t)
  {
    forall r, b | r in t.mail && b in r.batches ensures OnFile(t, b) {
      assert OnFile(s, b);
    }
  }

  ghost predicate Contents(p: Power) {
    && Genuine(p.now)
    && Distinct(p.journal.pending) && (forall b :: b in p.journal.pending ==> b in p.now.minted)
    && MailOnFile(p.now)
  }

  predicate Kept(s: State, b: Batch) {
    b in s.journal.pending || OnFile(s, b) || Staged(s, b)
  }

  /** Every batch that was ever journalled is kept, or has been destroyed for good. */
  ghost predicate Accounted(p: Power) {
    && (forall b :: b in p.now.minted ==> b in p.gone || Kept(p.now, b))
    && (forall b :: b in p.gone ==> b in p.now.minted && !Kept(p.now, b) && b !in p.journal.pending)
  }

  ghost predicate Safe(p: Power) {
    Books(p) && Contents(p) && Accounted(p)
  }

  // Each event keeps it.

  lemma SampledSafe(p: Power, step: Step)
    requires Safe(p) && step.Journalled? && Allowed(p, Happened(step))
    ensures Books(Next(p, Happened(step))) && Contents(Next(p, Happened(step))) && Accounted(Next(p, Happened(step)))
  {
    SampledBooks(p, step);
    SampledContents(p, step);
    SampledAccounted(p, step);
  }

  lemma SampledBooks(p: Power, step: Step)
    requires Books(p) && Contents(p) && step.Journalled? && Allowed(p, Happened(step))
    ensures Books(Next(p, Happened(step)))
  {
    var s, t := p.now, Apply(p.now, step);
    LiveSamples(s.journal.endpoints, s.lifetimes, p.past, step.samples);
    SamplesBalance(Live(s.journal.endpoints, p.past), s.lifetimes, step.samples);
    KnownAfter(s.journal.endpoints, s.lifetimes, step.samples);
    StillKnown(p.journal.endpoints, s.lifetimes, step.samples);
    hide AllAcceptable, Advance, RecordAll, Gained, Linked, Known, Live, Recorded;
    forall who ensures SumAll(t.minted, who) == Checkpointed(t.lifetimes, who) {
      SumAllAppend(s.minted, step.batches, who);
    }
    forall who ensures Amount(t.total, who) == SumIn(t.minted, t.applied, who) {
      SumFresh(s.minted, step.batches, s.applied, who);
    }
  }

  lemma SampledContents(p: Power, step: Step)
    requires Contents(p) && step.Journalled? && Allowed(p, Happened(step))
    ensures Contents(Next(p, Happened(step)))
  {
    hide AllAcceptable, Advance, RecordAll, Gained, MailOnFile;
    DistinctAppend(p.now.minted, step.batches);
    MailStays(p.now, Apply(p.now, step));
  }

  lemma SampledAccounted(p: Power, step: Step)
    requires Contents(p) && Accounted(p) && step.Journalled? && Allowed(p, Happened(step))
    ensures Accounted(Next(p, Happened(step)))
  {
    hide AllAcceptable, Advance, RecordAll, Gained;
    var s, q := p.now, Next(p, Happened(step));
    assert s.journal.pending == [];
    forall b | b in p.gone ensures b !in step.batches {
      assert b.id in Ids(s.minted);
    }
  }

  lemma FileBooks(p: Power, step: Step)
    requires Books(p) && FileStep(step) && Enabled(p.now, step)
    ensures Books(p.(now := Apply(p.now, step)))
  {
  }

  lemma FileContents(p: Power, step: Step)
    requires Contents(p) && FileStep(step) && Enabled(p.now, step)
    ensures Contents(p.(now := Apply(p.now, step)))
  {
    hide Genuine, MailOnFile;
    FilesGenuine(p.now, step);
    MailStays(p.now, Apply(p.now, step));
  }

  lemma FileAccounted(p: Power, step: Step)
    requires Contents(p) && Accounted(p) && FileStep(step) && Enabled(p.now, step)
    ensures Accounted(p.(now := Apply(p.now, step)))
  {
    forall b | b in p.now.minted ensures Kept(Apply(p.now, step), b) == Kept(p.now, b) {
      KeptAlike(p.now, step, b);
    }
  }

  /** Moving files neither destroys a batch nor brings one back. */
  lemma KeptAlike(s: State, step: Step, b: Batch)
    requires Genuine(s) && FileStep(step) && Enabled(s, step) && b in s.minted
    ensures Kept(Apply(s, step), b) == Kept(s, b)
  {
    match step
    case StageCreated(c) => if c.id == b.id { SameId(s.minted, c, b); }
    case StageFilled(c) => if c.id == b.id { SameId(s.minted, c, b); }
    case Promoted(id) => if id == b.id { SameId(s.minted, s.stages[id].batch, b); }
    case _ =>
  }

  lemma SentSafe(p: Power, step: Step)
    requires Safe(p) && step.Sent? && Enabled(p.now, step)
    ensures Safe(p.(now := Apply(p.now, step)))
  {
    hide Recorded, Linked, Known;
    var s, t := p.now, Apply(p.now, step);
    forall b | b in step.request.batches ensures b in s.minted {
      assert s.entries[b.id] == b;
    }
    forall r, b | r in t.mail && b in r.batches ensures OnFile(t, b) {
      assert r in s.mail ==> OnFile(s, b);
    }
    forall b | b in s.minted ensures Kept(t, b) == Kept(s, b) {}
  }

  lemma CommitSafe(p: Power, b: Batch)
    requires Safe(p) && b in p.now.minted && OnFile(p.now, b)
    ensures Safe(p.(now := Commit(p.now, b)))
    ensures forall c :: OnFile(p.now, c) ==> OnFile(Commit(p.now, b), c)
    ensures Commit(p.now, b).minted == p.now.minted && Commit(p.now, b).mail == p.now.mail
  {
    hide Recorded, Linked, Known, Live;
    var s, t := p.now, Commit(p.now, b);
    if b.id !in s.applied {
      forall who ensures Amount(t.total, who) == SumIn(t.minted, t.applied, who) {
        SumAmount(s.total, b.traffic, who);
        SumUnion(s.minted, s.applied, {b.id}, who);
        SumOne(s.minted, b, who);
      }
      forall c | c in s.minted ensures Kept(t, c) == Kept(s, c) {
        if c.id == b.id { SameId(s.minted, c, b); }
      }
      MailStays(s, t);
    }
  }

  lemma {:induction false} CommitAllSafe(p: Power, batches: seq<Batch>)
    requires Safe(p) && forall b :: b in batches ==> b in p.now.minted && OnFile(p.now, b)
    ensures Safe(p.(now := CommitAll(p.now, batches)))
    ensures forall c :: OnFile(p.now, c) ==> OnFile(CommitAll(p.now, batches), c)
    ensures CommitAll(p.now, batches).minted == p.now.minted && CommitAll(p.now, batches).mail == p.now.mail
  {
    if batches != [] {
      hide Safe, OnFile, Commit;
      var n := |batches| - 1;
      assert batches[n] in batches && forall b :: b in batches[..n] ==> b in batches;
      CommitAllSafe(p, batches[..n]);
      CommitSafe(p.(now := CommitAll(p.now, batches[..n])), batches[n]);
    }
  }

  lemma DeliveredSafe(p: Power, step: Step)
    requires Safe(p) && step.Delivered? && Enabled(p.now, step)
    ensures Safe(p.(now := Apply(p.now, step)))
  {
    var batches := step.request.batches[..step.count];
    assert forall b :: b in batches ==> b in step.request.batches;
    CommitAllSafe(p, batches);
    if step.accept { AcceptedSafe(p.(now := CommitAll(p.now, batches)), step.request.snapshot.value); }
  }

  lemma AcceptedSafe(p: Power, snapshot: Snapshot)
    requires Safe(p)
    ensures Safe(p.(now := p.now.(accepted := p.now.accepted + [snapshot])))
  {
    hide Recorded, Linked, Known, Live, MailOnFile;
    var t := p.now.(accepted := p.now.accepted + [snapshot]);
    MailStays(p.now, t);
    forall b | b in p.now.minted ensures Kept(t, b) == Kept(p.now, b) {}
  }

  lemma SyncedSafe(p: Power)
    requires Safe(p)
    ensures Safe(p.(journal := p.now.journal))
  {
    hide Recorded, Linked, Known, Live;
  }

  /** A power loss destroys exactly the batches at risk. */
  lemma LostSafe(p: Power)
    requires Safe(p)
    ensures Safe(Next(p, Lost))
  {
    var q := Next(p, Lost);
    assert Live(q.now.journal.endpoints, q.past) == map[];
    MailStays(p.now, q.now);
    forall b | b in q.now.minted ensures b in q.gone || Kept(q.now, b) {
      assert b in p.gone || Kept(p.now, b);
    }
  }

  lemma EventKeeps(p: Power, e: Event)
    requires Safe(p) && Allowed(p, e)
    ensures Safe(Next(p, e))
  {
    if e.Lost? {
      LostSafe(p);
    } else if e.Synced? {
      SyncedSafe(p);
    } else if e.step.Journalled? {
      SampledSafe(p, e.step);
    } else if e.step.Sent? {
      SentSafe(p, e.step);
    } else if e.step.Delivered? {
      DeliveredSafe(p, e.step);
    } else {
      hide Books, Contents, Accounted;
      FileBooks(p, e.step);
      FileContents(p, e.step);
      FileAccounted(p, e.step);
    }
  }

  lemma {:induction false} AlwaysSafe(events: seq<Event>)
    requires Runs(events)
    ensures Safe(Reached(events))
  {
    if events == [] {
      StartSafe();
    } else {
      hide Safe, Next, Allowed;
      var n := |events| - 1;
      AlwaysSafe(events[..n]);
      EventKeeps(Reached(events[..n]), events[n]);
    }
  }

  lemma StartSafe()
    ensures Safe(POWERED)
  {
  }

  // What a power loss costs.

  /** The uncommitted batches in journal, spool, archive and complete stages. */
  function OnDisk(s: State): set<Batch> {
    Waiting(s) + set id | id in s.stages && !s.stages[id].Torn? && id !in s.applied :: s.stages[id].batch
  }

  lemma OnDiskMeans(p: Power)
    requires Contents(p) && Accounted(p)
    ensures forall b :: b in OnDisk(p.now) ==> b in p.now.minted && b.id !in p.now.applied && b !in p.gone
    ensures forall b :: b in p.now.minted && b.id !in p.now.applied && b !in p.gone ==> b in OnDisk(p.now)
    ensures forall b :: b in p.gone ==> b in p.now.minted && b.id !in p.now.applied
  {
    var s := p.now;
    WaitingGenuine(s);
    forall b | b in OnDisk(s) ensures b in s.minted && b.id !in s.applied && Kept(s, b) {
      if b in Waiting(s) { WaitingKept(s, b); }
    }
    forall b | b in s.minted && b.id !in s.applied && b !in p.gone ensures b in OnDisk(s) {
      assert Kept(s, b);
      if Staged(s, b) {
        assert s.stages[b.id].batch == b;
      } else {
        assert Held(s, b.id);
        WaitingHeld(s, b);
      }
    }
  }

  lemma WaitingKept(s: State, b: Batch)
    requires Genuine(s) && b in Waiting(s)
    ensures Kept(s, b)
  {
    if b in s.entries.Values {
      var id :| id in s.entries && s.entries[id] == b;
    } else if b in s.archive.Values {
      var id :| id in s.archive && s.archive[id] == b;
    }
  }

  /** The three kinds of batches: committed, on disk, destroyed. */
  lemma Split(p: Power, waiting: seq<Batch>, lost: seq<Batch>, who: Account)
    requires Safe(p) && Lists(waiting, OnDisk(p.now)) && Lists(lost, p.gone)
    ensures Amount(p.now.total, who) + SumAll(waiting, who) + SumAll(lost, who) == Checkpointed(p.now.lifetimes, who)
  {
    hide OnDisk, Contents, Linked, Known, Live, Kept;
    var s := p.now;
    OnDiskMeans(p);
    DistinctMinted(p);
    SumListed(s.minted, waiting, who);
    SumListed(s.minted, lost, who);
    ApartIds(s.minted, s.applied, waiting, lost);
    SumUnion(s.minted, s.applied, Ids(waiting), who);
    SumUnion(s.minted, s.applied + Ids(waiting), Ids(lost), who);
    forall b | b in s.minted ensures b.id in s.applied + Ids(waiting) + Ids(lost) {
      if b.id !in s.applied && b !in p.gone { assert b in waiting; }
    }
    SumEvery(s.minted, s.applied + Ids(waiting) + Ids(lost), who);
  }

  lemma DistinctMinted(p: Power)
    requires Contents(p)
    ensures Distinct(p.now.minted)
  {
  }

  lemma ApartIds(minted: seq<Batch>, applied: set<BatchId>, a: seq<Batch>, b: seq<Batch>)
    requires Distinct(minted) && forall x :: x in a || x in b ==> x in minted && x.id !in applied
    requires forall x :: x in a ==> x !in b
    ensures applied !! Ids(a) && (applied + Ids(a)) !! Ids(b)
  {
    forall id | id in Ids(a) ensures id !in Ids(b) {
      var x :| x in a && x.id == id;
      forall y | y in b ensures y.id != id {
        if y.id == id { SameId(minted, x, y); }
      }
    }
  }

  /** After any run with power losses anywhere: what the centre has counted plus what waits on disk
      falls short of what was ever checkpointed by exactly the batches that stood, when some power
      was lost, in the unsynced journal only. Nothing is ever counted twice. */
  lemma PowerLossCosts(events: seq<Event>, waiting: seq<Batch>, lost: seq<Batch>, who: Account)
    requires Runs(events)
    requires Lists(waiting, OnDisk(Reached(events).now)) && Lists(lost, Reached(events).gone)
    ensures var s := Reached(events).now;
            Amount(s.total, who) + SumAll(waiting, who) + SumAll(lost, who) == Checkpointed(s.lifetimes, who)
  {
    hide Safe, Lists, OnDisk, Reached;
    AlwaysSafe(events);
    Split(Reached(events), waiting, lost, who);
  }

  /** Both lists always exist: no two files hold different batches under one id. */
  lemma DisksAgree(events: seq<Event>) returns (waiting: seq<Batch>, lost: seq<Batch>)
    requires Runs(events)
    ensures Lists(waiting, OnDisk(Reached(events).now)) && Lists(lost, Reached(events).gone)
  {
    hide Books, Lists, OnDisk, Reached, Contents, Accounted;
    AlwaysSafe(events);
    var p := Reached(events);
    OnDiskMeans(p);
    DistinctMinted(p);
    waiting := Listing(p.now.minted, OnDisk(p.now));
    lost := Listing(p.now.minted, p.gone);
  }

  predicate CarriesNothing(b: Batch) {
    forall name :: name in b.traffic ==> b.traffic[name] == Counters(0, 0)
  }

  lemma NothingCarried(b: Batch)
    ensures CarriesNothing(b) <==> forall who :: Amount(b.traffic, who) == 0
  {
    if forall who :: Amount(b.traffic, who) == 0 {
      forall name | name in b.traffic ensures b.traffic[name] == Counters(0, 0) {
        assert Amount(b.traffic, Account(name, Tx)) == 0 && Amount(b.traffic, Account(name, Rx)) == 0;
      }
    }
  }

  lemma {:induction false} SumZero(batches: seq<Batch>, who: Account)
    ensures SumAll(batches, who) == 0 <==> forall b :: b in batches ==> Amount(b.traffic, who) == 0
  {
    if batches != [] {
      var n := |batches| - 1;
      SumZero(batches[..n], who);
      assert batches == batches[..n] + [batches[n]];
    }
  }

  /** Exactly-once accounting holds after a run with power losses if and only if no batch that
      stood in the unsynced journal only, when power was lost, carried any traffic. */
  lemma ExactlyOnceDespitePowerLoss(events: seq<Event>, waiting: seq<Batch>)
    requires Runs(events) && Lists(waiting, OnDisk(Reached(events).now))
    ensures var s := Reached(events).now;
            (forall who :: Amount(s.total, who) + SumAll(waiting, who) == Checkpointed(s.lifetimes, who))
            <==> forall b :: b in Reached(events).gone ==> CarriesNothing(b)
  {
    hide OnDisk, Reached, CarriesNothing, Runs;
    var s, gone := Reached(events).now, Reached(events).gone;
    var others, lost := DisksAgree(events);
    forall who ensures SumAll(lost, who) + Amount(s.total, who) + SumAll(waiting, who) == Checkpointed(s.lifetimes, who) {
      PowerLossCosts(events, waiting, lost, who);
    }
    AllCarryNothing(lost);
  }

  lemma AllCarryNothing(batches: seq<Batch>)
    ensures (forall who :: SumAll(batches, who) == 0) ==> forall b :: b in batches ==> CarriesNothing(b)
    ensures (forall b :: b in batches ==> CarriesNothing(b)) ==> forall who :: SumAll(batches, who) == 0
  {
    hide CarriesNothing;
    forall who: Account ensures (forall b :: b in batches ==> CarriesNothing(b)) ==> SumAll(batches, who) == 0 {
      SumZero(batches, who);
      forall b | b in batches && CarriesNothing(b) ensures Amount(b.traffic, who) == 0 { NothingCarried(b); }
    }
    forall b | b in batches ensures (forall who :: SumAll(batches, who) == 0) ==> CarriesNothing(b) {
      NothingCarried(b);
      forall who | SumAll(batches, who) == 0 ensures Amount(b.traffic, who) == 0 { SumZero(batches, who); }
    }
  }

  /** The k-th event is a power loss, and the batch is at risk just before it. */
  ghost predicate Destroyed(events: seq<Event>, k: int, b: Batch) {
    0 <= k < |events| && events[k].Lost? && Runs(events[..k]) && b in AtRisk(Reached(events[..k]))
  }

  lemma GoneNext(p: Power, e: Event, b: Batch)
    requires Allowed(p, e)
    ensures b in Next(p, e).gone <==> b in p.gone || (e.Lost? && b in AtRisk(p))
  {
    hide Allowed, AtRisk;
  }

  lemma DestroyedBefore(events: seq<Event>, n: nat, k: int, b: Batch)
    requires n <= |events| && k < n
    ensures Destroyed(events, k, b) <==> Destroyed(events[..n], k, b)
  {
    hide Runs, AtRisk;
    if 0 <= k { assert events[..n][..k] == events[..k] && events[..n][k] == events[k]; }
  }

  /** What is destroyed are exactly the batches that were at risk just before some power loss. */
  lemma {:induction false} GoneMeans(events: seq<Event>, b: Batch)
    requires Runs(events)
    ensures b in Reached(events).gone <==> exists k :: Destroyed(events, k, b)
  {
    if events != [] {
      hide Allowed, AtRisk, Next, Destroyed;
      var n := |events| - 1;
      GoneMeans(events[..n], b);
      GoneNext(Reached(events[..n]), events[n], b);
      LastDestroys(events, b);
      forall k | Destroyed(events, k, b) ensures k == n || Destroyed(events[..n], k, b) {
        WithinRun(events, k, b);
        if k < n { DestroyedBefore(events, n, k, b); }
      }
      forall k | Destroyed(events[..n], k, b) ensures Destroyed(events, k, b) {
        WithinRun(events[..n], k, b);
        DestroyedBefore(events, n, k, b);
      }
    }
  }

  lemma WithinRun(events: seq<Event>, k: int, b: Batch)
    requires Destroyed(events, k, b)
    ensures 0 <= k < |events|
  {
  }

  lemma LastDestroys(events: seq<Event>, b: Batch)
    requires events != [] && Runs(events[..|events| - 1])
    ensures var n := |events| - 1;
            Destroyed(events, n, b) <==> events[n].Lost? && b in AtRisk(Reached(events[..n]))
  {
    hide Reached, Runs, AtRisk;
  }

  // The loss is real.

  const ALICE: Account := Account("a", Tx)

  /** One byte is sampled; power is lost before the journal's directory is synced. */
  const UNSYNCED: seq<Event> := [Happened(Journalled([ONE_BYTE], [ONE_BATCH])), Lost]

  lemma Longer(events: seq<Event>, e: Event)
    requires Runs(events) && Allowed(Reached(events), e)
    ensures Runs(events + [e]) && Reached(events + [e]) == Next(Reached(events), e)
  {
    hide Allowed, Next;
    assert (events + [e])[..|events|] == events;
  }

  /** A power loss can cost a byte: it was checkpointed, and is neither counted nor anywhere on
      disk. */
  lemma ByteLost()
    ensures Runs(UNSYNCED) && OnDisk(Reached(UNSYNCED).now) == {} && Reached(UNSYNCED).gone == {ONE_BATCH}
    ensures var s := Reached(UNSYNCED).now; Checkpointed(s.lifetimes, ALICE) == 1 && Amount(s.total, ALICE) == 0
  {
    OneByteSampled();
    Longer([], UNSYNCED[0]);
    assert [] + [UNSYNCED[0]] == UNSYNCED[..1];
    Longer(UNSYNCED[..1], Lost);
    assert UNSYNCED[..1] + [Lost] == UNSYNCED;
    assert [ONE_BYTE][..0] == [];
    var s := Reached(UNSYNCED).now;
    assert s.entries.Values == {} && s.archive.Values == {};
  }
}
