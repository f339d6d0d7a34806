/** The exactly-once theorem and the snapshot barrier: what every run of the node's accounting
    keeps, whatever crashes, is repeated or arrives late. */
module ExactlyOnce {
  import opened Traffic
  import opened Wrappers
  import opened Sampling
  import opened Accounting

  // Sums over sets of batches.

  lemma {:induction false} SumUnion(batches: seq<Batch>, a: set<BatchId>, b: set<BatchId>, who: Account)
    requires a !! b
    ensures SumIn(batches, a + b, who) == SumIn(batches, a, who) + SumIn(batches, b, who)
  {
    if batches != [] { SumUnion(batches[..|batches| - 1], a, b, who); }
  }

  lemma {:induction false} SumSame(batches: seq<Batch>, a: set<BatchId>, b: set<BatchId>, who: Account)
    requires forall x :: x in batches ==> (x.id in a <==> x.id in b)
    ensures SumIn(batches, a, who) == SumIn(batches, b, who)
  {
    if batches != [] {
      assert batches[|batches| - 1] in batches;
      SumSame(batches[..|batches| - 1], a, b, who);
    }
  }

  lemma {:induction false} SumEvery(batches: seq<Batch>, ids: set<BatchId>, who: Account)
    requires forall x :: x in batches ==> x.id in ids
    ensures SumIn(batches, ids, who) == SumAll(batches, who)
  {
    if batches != [] {
      assert batches[|batches| - 1] in batches;
      SumEvery(batches[..|batches| - 1], ids, who);
    }
  }

  lemma {:induction false} SumAllAppend(a: seq<Batch>, b: seq<Batch>, who: Account)
    ensures SumAll(a + b, who) == SumAll(a, who) + SumAll(b, who)
  {
    if b == [] {
      assert a + b == a;
    } else {
      assert (a + b)[..|a + b| - 1] == a + b[..|b| - 1];
      SumAllAppend(a, b[..|b| - 1], who);
    }
  }

  /** Batches that are not in the set add nothing. */
  lemma {:induction false} SumFresh(a: seq<Batch>, b: seq<Batch>, ids: set<BatchId>, who: Account)
    requires forall x :: x in b ==> x.id !in ids
    ensures SumIn(a + b, ids, who) == SumIn(a, ids, who)
  {
    if b == [] {
      assert a + b == a;
    } else {
      assert (a + b)[..|a + b| - 1] == a + b[..|b| - 1];
      assert b[|b| - 1] in b;
      SumFresh(a, b[..|b| - 1], ids, who);
    }
  }

  lemma {:induction false} SumOne(batches: seq<Batch>, b: Batch, who: Account)
    requires Distinct(batches) && b in batches
    ensures SumIn(batches, {b.id}, who) == Amount(b.traffic, who)
  {
    var n := |batches| - 1;
    var i :| 0 <= i <= n && batches[i] == b;
    if i == n {
      SumSame(batches[..n], {b.id}, {}, who);
      SumNone(batches[..n], who);
    } else {
      assert batches[i] in batches[..n];
      SumOne(batches[..n], b, who);
    }
  }

  lemma {:induction false} SumNone(batches: seq<Batch>, who: Account)
    ensures SumIn(batches, {}, who) == 0
  {
    if batches != [] { SumNone(batches[..|batches| - 1], who); }
  }

  // Each kind of step keeps the invariant.

  lemma JournalledKeeps(s: State, step: Step)
    requires Inv(s) && step.Journalled? && Enabled(s, step)
    ensures Inv(Apply(s, step))
  {
    JournalledBooks(s, step);
    JournalledFiles(s, step);
    BarrierExtends(s, Apply(s, step));
  }

  lemma JournalledBooks(s: State, step: Step)
    requires Balanced(s) && s.applied <= Ids(s.minted) && step.Journalled? && Enabled(s, step)
    ensures Balanced(Apply(s, step))
  {
    var t := Apply(s, step);
    SamplesBalance(s.journal.endpoints, s.lifetimes, step.samples);
    hide AllAcceptable, Advance, RecordAll, Gained, Linked;
    forall who ensures SumAll(t.minted, who) == Checkpointed(t.lifetimes, who) {
      SumAllAppend(s.minted, step.batches, who);
    }
    forall who ensures Amount(t.total, who) == SumIn(t.minted, t.applied, who) {
      SumFresh(s.minted, step.batches, s.applied, who);
    }
  }

  lemma JournalledFiles(s: State, step: Step)
    requires Genuine(s) && NoneLost(s) && step.Journalled? && Enabled(s, step)
    ensures Genuine(Apply(s, step)) && NoneLost(Apply(s, step))
  {
    hide AllAcceptable, Advance, RecordAll, Gained;
    var t := Apply(s, step);
    DistinctAppend(s.minted, step.batches);
    forall b | b in t.minted ensures Held(t, b.id) {
      if b in s.minted { assert Held(s, b.id); } else { assert b in t.journal.pending; }
    }
  }

  lemma DistinctAppend(a: seq<Batch>, b: seq<Batch>)
    requires Distinct(a) && Distinct(b) && forall x :: x in b ==> x.id !in Ids(a)
    ensures Distinct(a + b)
  {
    forall i, j | 0 <= i < j < |a + b| ensures (a + b)[i].id != (a + b)[j].id {
      if i < |a| && j >= |a| {
        assert a[i] in a && b[j - |a|] in b;
        assert a[i].id in Ids(a);
      }
    }
  }

  /** Committed and archived batches and the journal's history only grow. */
  predicate Extends(s: State, t: State) {
    && s.minted <= t.minted
    && s.applied <= t.applied
    && s.archive.Keys <= t.archive.Keys
  }

  lemma CoveredExtends(s: State, t: State, basis: nat, others: set<BatchId>)
    requires Extends(s, t) && Covered(s, basis, others)
    ensures Covered(t, basis, others)
  {
    assert t.minted[..basis] == s.minted[..basis];
  }

  lemma BarrierExtends(s: State, t: State)
    requires Extends(s, t) && Barrier(s) && t.mail == s.mail && t.accepted == s.accepted
    ensures Barrier(t)
  {
    forall r | r in t.mail && r.snapshot.Some?
      ensures Covered(t, r.snapshot.value.basis, Ids(r.batches)) {
      CoveredExtends(s, t, r.snapshot.value.basis, Ids(r.batches));
    }
    forall p | p in t.accepted ensures Covered(t, p.basis, {}) {
      CoveredExtends(s, t, p.basis, {});
    }
  }

  /** Steps that only move files. */
  predicate FileStep(step: Step) {
    !step.Journalled? && !step.Sent? && !step.Delivered?
  }

  lemma FilesGenuine(s: State, step: Step)
    requires Genuine(s) && FileStep(step) && Enabled(s, step)
    ensures Genuine(Apply(s, step)) && Extends(s, Apply(s, step))
  {
  }

  lemma FilesNoneLost(s: State, step: Step)
    requires NoneLost(s) && FileStep(step) && Enabled(s, step)
    ensures NoneLost(Apply(s, step))
  {
    var t := Apply(s, step);
    forall b | b in t.minted ensures Held(t, b.id) {
      assert Held(s, b.id);
      if step.Cleared? && b.id in Ids(s.journal.pending) {
        var p :| p in s.journal.pending && p.id == b.id;
        assert p.id in s.entries;
      }
    }
  }

  /** The books and the network do not concern files. */
  lemma FilesOnly(s: State, step: Step)
    requires Balanced(s) && Barrier(s) && Sequenced(s) && FileStep(step) && Enabled(s, step)
    requires Extends(s, Apply(s, step))
    ensures var t := Apply(s, step); Balanced(t) && Barrier(t) && Sequenced(t)
  {
    BarrierExtends(s, Apply(s, step));
  }

  lemma FilesKeep(s: State, step: Step)
    requires Inv(s) && FileStep(step) && Enabled(s, step)
    ensures Inv(Apply(s, step))
  {
    hide Genuine, NoneLost, Balanced, Barrier, Sequenced, Enabled, Apply, Extends;
    FilesGenuine(s, step);
    FilesNoneLost(s, step);
    FilesOnly(s, step);
  }

  /** A request may join the network if it holds journalled batches, and its snapshot, under a new
      sequence number, only together with all that is still uncommitted. */
  lemma MailKeeps(s: State, r: Request)
    requires Inv(s) && forall b :: b in r.batches ==> b in s.minted
    requires r.snapshot.Some? ==>
               && Covered(s, r.snapshot.value.basis, Ids(r.batches))
               && r.snapshot.value.sequence <= s.sequence
               && forall q :: q in s.mail && q.snapshot.Some? ==> q.snapshot.value.sequence < r.snapshot.value.sequence
    ensures Inv(s.(mail := s.mail + {r}))
  {
    var t := s.(mail := s.mail + {r});
    forall q | q in t.mail && q.snapshot.Some? ensures Covered(t, q.snapshot.value.basis, Ids(q.batches)) {
      CoveredExtends(s, t, q.snapshot.value.basis, Ids(q.batches));
    }
    forall p | p in t.accepted ensures Covered(t, p.basis, {}) {
      CoveredExtends(s, t, p.basis, {});
    }
    forall b | b in t.minted ensures Held(t, b.id) { assert Held(s, b.id); }
  }

  lemma SentCovers(s: State, step: Step)
    requires Genuine(s) && NoneLost(s) && step.Sent? && Enabled(s, step)
    ensures forall b :: b in step.request.batches ==> b in s.minted
    ensures step.request.snapshot.Some? ==> Covered(s, |s.minted|, Ids(step.request.batches))
  {
    var r := step.request;
    if r.snapshot.Some? {
      forall b | b in s.minted[..|s.minted|]
        ensures b.id in s.applied || b.id in s.archive || b.id in Ids(r.batches) {
        assert Held(s, b.id);
        if b.id in s.entries {
          assert s.entries[b.id] in r.batches;
        }
      }
    }
  }

  lemma SentKeeps(s: State, step: Step)
    requires Inv(s) && step.Sent? && Enabled(s, step)
    ensures Inv(Apply(s, step))
    ensures step.request.snapshot.Some? ==> Covered(s, |s.minted|, Ids(step.request.batches))
  {
    hide Genuine, NoneLost, Balanced, Barrier, Sequenced, Covered;
    SentCovers(s, step);
    MailKeeps(s, step.request);
  }

  lemma CommitKeeps(s: State, b: Batch)
    requires Inv(s) && b in s.minted
    ensures Inv(Commit(s, b)) && Extends(s, Commit(s, b)) && b.id in Commit(s, b).applied
  {
    var t := Commit(s, b);
    if b.id !in s.applied {
      forall who ensures Amount(t.total, who) == SumIn(t.minted, t.applied, who) {
        SumAmount(s.total, b.traffic, who);
        SumUnion(s.minted, s.applied, {b.id}, who);
        SumOne(s.minted, b, who);
      }
    }
    forall x | x in t.minted ensures Held(t, x.id) { assert Held(s, x.id); }
    BarrierExtends(s, t);
  }

  lemma {:induction false} CommitAllKeeps(s: State, batches: seq<Batch>)
    requires Inv(s) && forall b :: b in batches ==> b in s.minted
    ensures Inv(CommitAll(s, batches)) && Extends(s, CommitAll(s, batches))
    ensures Ids(batches) <= CommitAll(s, batches).applied
    ensures CommitAll(s, batches).mail == s.mail && CommitAll(s, batches).accepted == s.accepted
    ensures CommitAll(s, batches).minted == s.minted
    ensures CommitAll(s, batches) == s.(applied := CommitAll(s, batches).applied, total := CommitAll(s, batches).total)
  {
    if batches != [] {
      var n := |batches| - 1;
      CommitAllKeeps(s, batches[..n]);
      assert batches[n] in batches;
      CommitKeeps(CommitAll(s, batches[..n]), batches[n]);
      forall id | id in Ids(batches) ensures id in CommitAll(s, batches).applied {
        var b :| b in batches && b.id == id;
        if b != batches[n] { assert b in batches[..n]; assert id in Ids(batches[..n]); }
      }
    }
  }

  lemma DeliveredKeeps(s: State, step: Step)
    requires Inv(s) && step.Delivered? && Enabled(s, step)
    ensures Inv(Apply(s, step)) && Extends(s, Apply(s, step))
    ensures Ids(step.request.batches[..step.count]) <= Apply(s, step).applied
    ensures step.accept ==> Ids(step.request.batches) <= Apply(s, step).applied
  {
    var r, batches := step.request, step.request.batches[..step.count];
    forall b | b in batches ensures b in s.minted {
      assert b in r.batches;
    }
    CommitAllKeeps(s, batches);
    var c, t := CommitAll(s, batches), Apply(s, step);
    if step.accept {
      assert batches == r.batches;
      assert Covered(c, r.snapshot.value.basis, Ids(r.batches));
      AcceptKeeps(c, t, r.snapshot.value);
    }
  }

  lemma AcceptKeeps(c: State, t: State, p: Snapshot)
    requires Inv(c) && t == c.(accepted := c.accepted + [p])
    requires Covered(c, p.basis, {})
    requires exists r :: r in c.mail && r.snapshot == Some(p)
    ensures Inv(t)
  {
    forall q | q in t.accepted ensures Covered(t, q.basis, {}) {
      if q in c.accepted { CoveredExtends(c, t, q.basis, {}); } else { CoveredExtends(c, t, p.basis, {}); }
    }
    forall r | r in t.mail && r.snapshot.Some?
      ensures Covered(t, r.snapshot.value.basis, Ids(r.batches)) {
      CoveredExtends(c, t, r.snapshot.value.basis, Ids(r.batches));
    }
    forall x | x in t.minted ensures Held(t, x.id) { assert Held(c, x.id); }
  }

  lemma StepKeeps(s: State, step: Step)
    requires Inv(s) && Enabled(s, step)
    ensures Inv(Apply(s, step)) && Extends(s, Apply(s, step))
  {
    if step.Journalled? {
      JournalledKeeps(s, step);
    } else if step.Sent? {
      SentKeeps(s, step);
    } else if step.Delivered? {
      DeliveredKeeps(s, step);
    } else {
      FilesKeep(s, step);
    }
  }

  lemma {:induction false} RunKeeps(s: State, steps: seq<Step>)
    requires Inv(s) && Possible(s, steps)
    ensures Inv(After(s, steps)) && Extends(s, After(s, steps))
  {
    if steps != [] {
      var before := steps[..|steps| - 1];
      RunKeeps(s, before);
      StepKeeps(After(s, before), steps[|steps| - 1]);
    }
  }

  lemma FromStart(steps: seq<Step>)
    requires Possible(START, steps)
    ensures Inv(After(START, steps))
  {
    assert Inv(START);
    hide Inv;
    RunKeeps(START, steps);
  }

  // The theorems.

  /** The batches that lie in the journal, the spool or the archive and are not committed, as
      these files hold them. */
  function Waiting(s: State): set<Batch> {
    set b | b in (set p | p in s.journal.pending) + s.entries.Values + s.archive.Values && b.id !in s.applied
  }

  /** The batches that were set aside by hand and are not committed. */
  function SetAside(s: State): set<Batch> {
    set b | b in s.archive.Values && b.id !in s.applied
  }

  /** A list of batches without repetition, no two under one id. */
  ghost predicate Lists(batches: seq<Batch>, files: set<Batch>) {
    Distinct(batches) && forall b :: b in batches <==> b in files
  }

  /** What is counted by batch id is what the listed files contain. */
  lemma {:induction false} SumListed(minted: seq<Batch>, batches: seq<Batch>, who: Account)
    requires Distinct(minted) && Distinct(batches) && forall b :: b in batches ==> b in minted
    ensures SumIn(minted, Ids(batches), who) == SumAll(batches, who)
  {
    if batches == [] {
      assert Ids(batches) == {};
      SumNone(minted, who);
    } else {
      var n := |batches| - 1;
      SumListed(minted, batches[..n], who);
      assert batches == batches[..n] + [batches[n]];
      assert Ids(batches) == Ids(batches[..n]) + {batches[n].id};
      SumUnion(minted, Ids(batches[..n]), {batches[n].id}, who);
      SumOne(minted, batches[n], who);
    }
  }

  lemma WaitingGenuine(s: State)
    requires Genuine(s)
    ensures forall b :: b in Waiting(s) ==> b in s.minted
    ensures SetAside(s) <= Waiting(s)
  {
    forall b | b in s.entries.Values ensures b in s.minted {
      var id :| id in s.entries && s.entries[id] == b;
    }
    forall b | b in s.archive.Values ensures b in s.minted {
      var id :| id in s.archive && s.archive[id] == b;
    }
  }

  lemma WaitingHeld(s: State, b: Batch)
    requires Genuine(s) && b in s.minted && Held(s, b.id) && b.id !in s.applied
    ensures b in Waiting(s)
  {
    if b.id in Ids(s.journal.pending) {
      var p :| p in s.journal.pending && p.id == b.id;
      SameId(s.minted, p, b);
    } else if b.id in s.entries {
      SameId(s.minted, s.entries[b.id], b);
      assert s.entries[b.id] in s.entries.Values;
    } else {
      SameId(s.minted, s.archive[b.id], b);
      assert s.archive[b.id] in s.archive.Values;
    }
  }

  lemma SameId(minted: seq<Batch>, a: Batch, b: Batch)
    requires Distinct(minted) && a in minted && b in minted && a.id == b.id
    ensures a == b
  {
  }

  /** However often a batch lies in journal, spool and archive, it is listed once, because all
      of its copies are the same. */
  lemma {:induction false} Listing(minted: seq<Batch>, files: set<Batch>) returns (batches: seq<Batch>)
    requires Distinct(minted) && forall b :: b in files ==> b in minted
    ensures Lists(batches, files)
  {
    if minted == [] {
      batches := [];
    } else {
      var n := |minted| - 1;
      assert minted == minted[..n] + [minted[n]];
      var others := files - {minted[n]};
      batches := Listing(minted[..n], others);
      if minted[n] in files {
        forall b | b in batches ensures b.id != minted[n].id { assert b in minted[..n]; }
        batches := batches + [minted[n]];
      }
    }
  }

  /** Exactly-once accounting: after any run, interrupted anywhere, what the centre has counted
      plus the distinct batches still waiting in files is what was ever checkpointed. */
  lemma ExactlyOnce(steps: seq<Step>, waiting: seq<Batch>, who: Account)
    requires Possible(START, steps) && Lists(waiting, Waiting(After(START, steps)))
    ensures var s := After(START, steps);
            Amount(s.total, who) + SumAll(waiting, who) == Checkpointed(s.lifetimes, who)
  {
    hide Inv, Lists, Waiting;
    FromStart(steps);
    Conserved(After(START, steps), waiting, who);
  }

  /** After any run there is such a list: no two files hold different batches under one id. */
  lemma FilesAgree(steps: seq<Step>) returns (waiting: seq<Batch>)
    requires Possible(START, steps)
    ensures Lists(waiting, Waiting(After(START, steps)))
  {
    hide NoneLost, Balanced, Barrier, Sequenced, Waiting, Lists;
    FromStart(steps);
    WaitingGenuine(After(START, steps));
    waiting := Listing(After(START, steps).minted, Waiting(After(START, steps)));
  }

  lemma Conserved(s: State, waiting: seq<Batch>, who: Account)
    requires Inv(s) && Lists(waiting, Waiting(s))
    ensures Amount(s.total, who) + SumAll(waiting, who) == Checkpointed(s.lifetimes, who)
  {
    hide Barrier, Sequenced, Waiting;
    WaitingGenuine(s);
    SumListed(s.minted, waiting, who);
    forall b | b in s.minted ensures b.id in s.applied + Ids(waiting) {
      assert Held(s, b.id);
      if b.id !in s.applied { WaitingHeld(s, b); }
    }
    Unapplied(s, waiting);
    SumUnion(s.minted, s.applied, Ids(waiting), who);
    SumEvery(s.minted, s.applied + Ids(waiting), who);
  }

  lemma Unapplied(s: State, waiting: seq<Batch>)
    requires forall b :: b in waiting ==> b in Waiting(s)
    ensures s.applied !! Ids(waiting)
  {
  }

  /** A run continued is a run. */
  lemma {:induction false} Continued(s: State, first: seq<Step>, second: seq<Step>)
    requires Possible(s, first + second)
    ensures Possible(s, first)
    ensures Possible(After(s, first), second)
    ensures After(s, first + second) == After(After(s, first), second)
  {
    if second == [] {
      assert first + second == first;
    } else {
      var before := second[..|second| - 1];
      assert (first + second)[..|first + second| - 1] == first + before;
      Continued(s, first, before);
    }
  }

  /** The snapshot barrier: once the centre has accepted a snapshot, every byte that was
      checkpointed when the node built it is in the central total, or was set aside by hand. */
  lemma SnapshotBarrier(first: seq<Step>, r: Request, now: int, second: seq<Step>, aside: seq<Batch>, who: Account)
    requires Possible(START, first + second)
    requires r.snapshot.Some? && Possible(START, first) && Enabled(After(START, first), Sent(r, now))
    requires r.snapshot.value in After(START, first + second).accepted
    requires Lists(aside, SetAside(After(START, first + second)))
    ensures var t := After(START, first + second);
            Checkpointed(After(START, first).lifetimes, who) <= Amount(t.total, who) + SumAll(aside, who)
  {
    hide Lists, SetAside, Genuine, NoneLost, Sequenced;
    Continued(START, first, second);
    FromStart(first);
    var s := After(START, first);
    RunKeeps(s, second);
    var t := After(s, second);
    CoveredSum(s, t, aside, who);
  }

  lemma CoveredSum(s: State, t: State, aside: seq<Batch>, who: Account)
    requires Balanced(s) && Genuine(t) && Balanced(t) && Extends(s, t) && Covered(t, |s.minted|, {})
    requires Lists(aside, SetAside(t))
    ensures Checkpointed(s.lifetimes, who) <= Amount(t.total, who) + SumAll(aside, who)
  {
    var later := t.minted[|s.minted|..];
    assert t.minted == s.minted + later && t.minted[..|s.minted|] == s.minted;
    WaitingGenuine(t);
    SumListed(t.minted, aside, who);
    forall b | b in s.minted ensures b.id in t.applied + Ids(aside) {
      if b.id !in t.applied {
        assert b in t.minted && t.archive[b.id] in t.archive.Values;
        SameId(t.minted, t.archive[b.id], b);
      }
    }
    PrefixCovered(s.minted, later, t.applied + Ids(aside), who);
    SumUnion(t.minted, t.applied, Ids(aside), who);
  }

  lemma {:induction false} PrefixCovered(a: seq<Batch>, b: seq<Batch>, ids: set<BatchId>, who: Account)
    requires forall x :: x in a ==> x.id in ids
    ensures SumAll(a, who) <= SumIn(a + b, ids, who)
  {
    if b == [] {
      assert a + b == a;
      SumEvery(a, ids, who);
    } else {
      assert (a + b)[..|a + b| - 1] == a + b[..|b| - 1];
      PrefixCovered(a, b[..|b| - 1], ids, who);
    }
  }

  /** With nothing left to upload and nothing set aside, the two ledgers are equal. */
  lemma Drained(steps: seq<Step>, who: Account)
    requires Possible(START, steps)
    requires var s := After(START, steps); s.journal.pending == [] && s.entries == map[] && s.archive == map[]
    ensures var s := After(START, steps); Amount(s.total, who) == Checkpointed(s.lifetimes, who)
  {
    var s := After(START, steps);
    assert s.entries.Values == {} && s.archive.Values == {};
    assert Waiting(s) == {};
    ExactlyOnce(steps, [], who);
  }

  lemma Longer(log: seq<Step>, step: Step)
    requires Possible(START, log) && Enabled(After(START, log), step)
    ensures Possible(START, log + [step]) && After(START, log + [step]) == Apply(After(START, log), step)
  {
    hide Enabled, Apply;
    assert (log + [step])[..|log + [step]| - 1] == log;
  }

  // The smallest run that counts something.

  const ONE_BYTE: Sample := Sample("u", "e", map["a" := Counters(1, 0)])
  const ONE_BATCH: Batch := Batch(0, 0, map["a" := Counters(1, 0)])

  lemma OneByteSampled()
    ensures Enabled(START, Journalled([ONE_BYTE], [ONE_BATCH]))
    ensures Apply(START, Journalled([ONE_BYTE], [ONE_BATCH])) == START.(
            journal := Journal(map["u" := Checkpoint("e", map["a" := Counters(1, 0)])], [ONE_BATCH]),
            minted := [ONE_BATCH], lifetimes := [ONE_BYTE])
  {
    var samples, batches := [ONE_BYTE], [ONE_BATCH];
    assert samples[..0] == [] && batches[..0] == [];
    assert Advance(map[], []) == map[] && RecordAll([], []) == [];
    assert [] + batches == batches;
    assert AllAcceptable(map[], [], samples);
    forall who ensures SumAll(batches, who) == Gained(map[], samples, who) {
      assert SumAll([], who) == 0 && Gained(map[], [], who) == 0;
    }
  }
}
