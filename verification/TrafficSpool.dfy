/** The durable traffic spool of node_agent.py. A result of `false` (or Failed) stands for an
    exception the source lets through; where one may be raised, an arbitrary choice says so. */
module TrafficSpool {
  import opened Wrappers
  import opened Sampling
  import opened Accounting
  import opened NodeWorld

  /** What promoting and discarding staged files may do: an entry is never altered or removed,
      and a complete stage is never discarded unless its entry is there. */
  ghost predicate Settling(s: State, t: State) {
    && t == s.(stages := t.stages, entries := t.entries, clipped := t.clipped)
    && (forall id :: id in s.entries ==> id in t.entries && EntryFile(t, id) == EntryFile(s, id))
    && (forall id :: id in t.entries && id !in s.entries ==> id in s.stages && s.stages[id] == EntryFile(t, id))
    && (forall id :: id in t.stages ==> id in s.stages && t.stages[id] == s.stages[id])
    && (forall id :: id in s.stages && !s.stages[id].Torn? && id !in t.stages ==>
          id in t.entries && s.stages[id] == EntryFile(t, id))
  }

  lemma SettleNone(s: State)
    ensures Settling(s, s)
  {
  }

  lemma SettleOne(s: State, t: State, step: Step)
    requires Settling(s, t) && (step.Promoted? || step.StageDropped?) && Enabled(t, step)
    ensures Settling(s, Apply(t, step))
  {
  }

  /** What persisting a prepared list may add to that: entries and stages of its own batches. */
  ghost predicate Spooling(s: State, t: State, batches: seq<Batch>) {
    && t == s.(stages := t.stages, entries := t.entries, clipped := t.clipped)
    && (forall id :: id in s.entries ==> id in t.entries && EntryFile(t, id) == EntryFile(s, id))
    && (forall id :: id in t.entries && id !in s.entries ==>
          (id in s.stages && s.stages[id] == EntryFile(t, id))
          || (t.entries[id] in batches && t.entries[id].id == id))
  }

  predicate SpoolStep(step: Step) {
    step.StageCreated? || step.StageFilled? || step.StageClipped? || step.Promoted? || step.StageDropped?
  }

  lemma SpoolOne(s: State, t: State, batches: seq<Batch>, step: Step)
    requires Spooling(s, t, batches) && Enabled(t, step) && SpoolStep(step)
    requires forall b :: b in t.journal.pending ==> b in batches
    requires StagesFrom(s, t, batches)
    ensures Spooling(s, Apply(t, step), batches) && StagesFrom(s, Apply(t, step), batches)
  {
  }

  /** A complete stage was complete before, or holds a batch of the prepared list. */
  ghost predicate StagesFrom(s: State, t: State, batches: seq<Batch>) {
    forall id :: id in t.stages && !t.stages[id].Torn? ==>
      (id in s.stages && s.stages[id] == t.stages[id])
      || (t.stages[id].batch in batches && t.stages[id].batch.id == id)
  }

  /** Spool crash safety: however often persisting a journalled list is interrupted, recovered
      and retried, no entry changes or disappears, and a new one is a batch of the list, or was
      complete under its staging name before. */
  lemma {:induction false} SpoolRun(s: State, steps: seq<Step>)
    requires Possible(s, steps) && forall step :: step in steps ==> SpoolStep(step)
    ensures Spooling(s, After(s, steps), s.journal.pending) && StagesFrom(s, After(s, steps), s.journal.pending)
  {
    if steps != [] {
      var n := |steps| - 1;
      assert steps[n] in steps;
      SpoolRun(s, steps[..n]);
      SpoolOne(s, After(s, steps[..n]), s.journal.pending, steps[n]);
    }
  }

  lemma SettledSpools(s: State, t: State, batches: seq<Batch>)
    requires Settling(s, t)
    ensures Spooling(s, t, batches) && StagesFrom(s, t, batches)
  {
  }

  datatype Outcome = Persisted | Full | Failed

  class Spool {
    const world: World
    const maxEntries: nat

    /** Opening the spool: the first thing a restarted process does with it. */
    constructor (world: World, maxEntries: nat)
      requires world.Valid()
      ensures this.world == world && this.maxEntries == maxEntries
    {
      this.world := world;
      this.maxEntries := maxEntries;
    }

    method RecoverStagedEntries() returns (ok: bool)
      requires world.Valid()
      modifies world
      ensures world.Valid() && old(world.log) <= world.log
      ensures Settling(old(world.now), world.now)
      ensures ok ==> world.now.stages == map[]
    {
      hide Settling, Inv, Possible, After;
      assert Settling(world.now, world.now) by { SettleNone(world.now); }
      var names := world.now.stages.Keys;
      while names != {}
        invariant world.Valid() && old(world.log) <= world.log
        invariant Settling(old(world.now), world.now)
        invariant world.now.stages.Keys == names
      {
        var failure: bool := *;
        if failure {
          return false;
        }
        var id :| id in names;
        if world.now.stages[id] == Torn {
          SettleOne(old(world.now), world.now, StageDropped(id));
          world.Perform(StageDropped(id));
        } else if id in world.now.entries {
          if world.now.stages[id] != EntryFile(world.now, id) {
            return false;
          }
          SettleOne(old(world.now), world.now, StageDropped(id));
          world.Perform(StageDropped(id));
        } else {
          SettleOne(old(world.now), world.now, Promoted(id));
          world.Perform(Promoted(id));
        }
        names := names - {id};
      }
      ok := *;
    }

    method PersistCollections(batches: seq<Batch>) returns (outcome: Outcome)
      requires world.Valid() && Distinct(batches)
      requires forall b :: b in batches ==> b in world.now.journal.pending
      modifies world
      ensures world.Valid() && old(world.log) <= world.log
      ensures Spooling(old(world.now), world.now, batches)
      ensures StagesFrom(old(world.now), world.now, batches)
      ensures outcome.Persisted? ==> world.now.stages == map[]
      ensures outcome.Persisted? ==>
                forall b :: b in batches ==> b.id in world.now.entries && EntryFile(world.now, b.id) == Whole(b)
    {
      hide Settling, Spooling, StagesFrom, Inv, Possible, After;
      var recovered := RecoverStagedEntries();
      SettledSpools(old(world.now), world.now, batches);
      assert world.now.journal == old(world.now).journal by { SpoolingKeeps(old(world.now), world.now, batches); }
      if !recovered {
        return Failed;
      }
      var missing: seq<Batch> := [];
      for i := 0 to |batches|
        invariant Distinct(missing)
        invariant forall b :: b in missing ==> b in batches[..i] && b.id !in world.now.entries
        invariant forall b :: b in batches[..i] && b !in missing ==>
                    b.id in world.now.entries && EntryFile(world.now, b.id) == Whole(b)
      {
        if batches[i].id in world.now.entries {
          if EntryFile(world.now, batches[i].id) != Whole(batches[i]) {
            return Failed;
          }
        } else {
          assert forall b :: b in missing ==> b.id != batches[i].id;
          missing := missing + [batches[i]];
        }
      }
      assert batches[..|batches|] == batches;
      var bytesFit: bool := *;
      if |world.now.entries| + |missing| > maxEntries || !bytesFit {
        return Full;
      }
      ghost var settled := world.now;
      var staged := StageAll(batches, missing);
      assert Adding(settled, world.now, missing);
      SpoolingMore(old(world.now), settled, world.now, missing, batches);
      StagesMore(old(world.now), settled, world.now, missing, batches);
      if !staged {
        return Failed;
      }
      ghost var before := world.now;
      var renamed := PromoteAll(missing);
      SpoolingMore(old(world.now), before, world.now, missing, batches);
      StagesLess(old(world.now), before, world.now, missing, batches);
      return if renamed then Persisted else Failed;
    }

    /** Create and fill one staged file for each missing batch. */
    method StageAll(ghost batches: seq<Batch>, missing: seq<Batch>) returns (ok: bool)
      requires world.Valid() && world.now.stages == map[] && Distinct(missing)
      requires forall b :: b in missing ==> b in batches && b.id !in world.now.entries
      requires forall b :: b in batches ==> b in world.now.journal.pending
      modifies world
      ensures world.Valid() && old(world.log) <= world.log
      ensures world.now == old(world.now).(stages := world.now.stages)
      ensures StagesFrom(old(world.now), world.now, missing)
      ensures ok ==> world.now.stages.Keys == Ids(missing)
      ensures ok ==> forall b :: b in missing ==> world.now.stages[b.id] == Whole(b)
    {
      hide Inv, Possible, After, Filling, StagesFrom;
      FillingNone(world.now, missing);
      for i := 0 to |missing|
        invariant world.Valid() && old(world.log) <= world.log
        invariant Filling(old(world.now), world.now, missing, i)
      {
        FillOne(old(world.now), world.now, missing, i);
        FillPart(old(world.now), world.now, missing, i);
        var creationFails: bool, writeFails: bool, syncFails: bool := *, *, *;
        if creationFails {
          return false;
        }
        world.Perform(StageCreated(missing[i]));
        if writeFails {
          var almost: bool := *;
          if almost { world.Perform(StageClipped(missing[i])); }
          return false;
        }
        world.Perform(StageFilled(missing[i]));
        FillingFrom(old(world.now), world.now, missing, i + 1);
        if syncFails {
          return false;
        }
      }
      FillingDone(old(world.now), world.now, missing);
      ok := *;
    }

    /** Rename the staged files into place. */
    method PromoteAll(missing: seq<Batch>) returns (ok: bool)
      requires world.Valid() && world.now.stages.Keys == Ids(missing) && Distinct(missing)
      requires forall b :: b in missing ==> world.now.stages[b.id] == Whole(b)
      requires forall b :: b in missing ==> b.id !in world.now.entries
      modifies world
      ensures world.Valid() && old(world.log) <= world.log
      ensures Adding(old(world.now), world.now, missing)
      // Also after a failure: each batch is still staged, or is an entry.
      ensures world.now.stages.Keys <= old(world.now).stages.Keys
      ensures forall b :: b in missing ==> StagedOrEntry(world.now, b)
      ensures ok ==> world.now.stages == map[]
      ensures ok ==> forall b :: b in missing ==> b.id in world.now.entries && EntryFile(world.now, b.id) == Whole(b)
    {
      hide Inv, Possible, After, Promoting, Adding, StagedOrEntry, Distinct;
      PromotingNone(world.now, missing);
      for i := 0 to |missing|
        invariant world.Valid() && old(world.log) <= world.log
        invariant Promoting(old(world.now), world.now, missing, i)
      {
        PromotingAdds(old(world.now), world.now, missing, i);
        PromotingEach(old(world.now), world.now, missing, i);
        PromoteOne(old(world.now), world.now, missing, i);
        var renameFails: bool := *;
        if renameFails {
          return false;
        }
        world.Perform(Promoted(missing[i].id));
      }
      PromotingAdds(old(world.now), world.now, missing, |missing|);
      PromotingEach(old(world.now), world.now, missing, |missing|);
      ok := *;
    }

    /** The entries, oldest observation first; `mtime` are the files' modification times. */
    method Pending(mtime: BatchId -> int) returns (r: Option<seq<Batch>>)
      requires world.Valid()
      modifies world
      ensures world.Valid() && old(world.log) <= world.log
      ensures Settling(old(world.now), world.now)
      ensures r.Some? ==> world.now.stages == map[] && Distinct(r.value)
      ensures r.Some? ==> forall b :: b in r.value <==> b.id in world.now.entries && world.now.entries[b.id] == b
      ensures r.Some? ==> Ids(r.value) == world.now.entries.Keys
      ensures r.Some? ==> forall i, j :: 0 <= i < j < |r.value| ==> Precedes(r.value[i], r.value[j], mtime)
    {
      hide Settling, Possible, After, Precedes;
      var recovered := RecoverStagedEntries();
      var unreadable: bool := *;
      if !recovered || unreadable || |world.now.entries| > maxEntries {
        return None;
      }
      assert Filed(world.now.minted, world.now.entries);
      var batches := Sorted(world.now.entries, mtime);
      return Some(batches);
    }

    /** Remove a batch whose central ACK has arrived. */
    method Ack(id: BatchId) returns (ok: bool)
      requires world.Valid() && (id in world.now.entries ==> id in world.now.applied)
      modifies world
      ensures world.Valid() && old(world.log) <= world.log
      ensures world.now == old(world.now)
           || world.now == old(world.now).(entries := old(world.now).entries - {id}, clipped := old(world.now).clipped - {id})
      ensures ok ==> id !in world.now.entries
    {
      hide Inv, Possible, After;
      if id !in world.now.entries {
        return true;
      }
      var unlinkFails: bool := *;
      if unlinkFails {
        return false;
      }
      world.Perform(Acknowledged(id));
      ok := *;
    }

    /** Archive an expired batch that was verified and accounted for by hand, then remove it. */
    method Reconcile(id: BatchId, digestMatches: bool, clock: int) returns (ok: bool)
      requires world.Valid()
      modifies world
      ensures world.Valid() && old(world.log) <= world.log
      ensures ok ==> id in world.now.archive && id !in world.now.entries
      ensures ok ==> !Unexpired(world.now.archive[id], clock)
      ensures Kept(old(world.now), world.now, id, clock)
      ensures world.now.archive.Keys <= old(world.now).archive.Keys + {id}
    {
      hide Inv, Possible, After, Settling;
      var mtime: BatchId -> int := *;
      var pending := Pending(mtime);
      SettlingKept(old(world.now), world.now);
      if pending.None? || id !in world.now.entries || Unexpired(world.now.entries[id], clock)
         || id in world.now.clipped || !digestMatches {
        return false;
      }
      var archiveFails: bool := *;
      if archiveFails {
        return false;
      }
      world.Perform(Archived(id, clock));
      var unlinkFails: bool := *;
      if unlinkFails {
        return false;
      }
      world.Perform(Retired(id));
      ok := *;
    }
  }

  /** Every entry is still there, except that an expired one with this id may have moved to the
      archive. */
  predicate Kept(s: State, t: State, id: BatchId, clock: int) {
    forall k :: k in s.entries ==>
      || (k in t.entries && t.entries[k] == s.entries[k])
      || (k == id && !Unexpired(s.entries[k], clock) && k in t.archive && t.archive[k] == s.entries[k])
  }

  lemma SettlingKept(s: State, t: State)
    requires Settling(s, t)
    ensures t.archive == s.archive && forall id :: id in s.entries ==> id in t.entries && t.entries[id] == s.entries[id]
  {
  }

  /** The files of the directory as a list: by observation time, then modification time, then
      name. A batch id stands for its file name. */
  method Sorted(files: map<BatchId, Batch>, mtime: BatchId -> int) returns (batches: seq<Batch>)
    requires forall id :: id in files ==> files[id].id == id
    ensures Distinct(batches) && Ids(batches) == files.Keys
    ensures forall b :: b in batches <==> b.id in files && files[b.id] == b
    ensures forall i, j :: 0 <= i < j < |batches| ==> Precedes(batches[i], batches[j], mtime)
  {
    hide Precedes;
    batches := [];
    var rest := files.Keys;
    while rest != {}
      invariant rest <= files.Keys
      invariant forall b :: b in batches <==> b.id in files && b.id !in rest && files[b.id] == b
      invariant Distinct(batches)
      invariant forall i, j :: 0 <= i < j < |batches| ==> Precedes(batches[i], batches[j], mtime)
      invariant forall b, id :: b in batches && id in rest ==> Precedes(b, files[id], mtime)
    {
      EarliestExists(files, rest, mtime);
      var id :| id in rest && Earliest(files, rest, id, mtime);
      batches := batches + [files[id]];
      rest := rest - {id};
    }
    forall id | id in files.Keys ensures id in Ids(batches) {
      assert files[id] in batches;
    }
  }

  predicate Precedes(a: Batch, b: Batch, mtime: BatchId -> int) {
    if a.observedAt != b.observedAt then a.observedAt < b.observedAt
    else if mtime(a.id) != mtime(b.id) then mtime(a.id) < mtime(b.id)
    else a.id < b.id
  }

  predicate Earliest(files: map<BatchId, Batch>, rest: set<BatchId>, id: BatchId, mtime: BatchId -> int)
    requires rest <= files.Keys && id in rest
  {
    forall k :: k in rest && k != id ==> Precedes(files[id], files[k], mtime)
  }

  lemma {:induction false} EarliestExists(files: map<BatchId, Batch>, rest: set<BatchId>, mtime: BatchId -> int)
    requires rest != {} && rest <= files.Keys
    requires forall id :: id in files ==> files[id].id == id
    ensures exists id :: id in rest && Earliest(files, rest, id, mtime)
  {
    var id :| id in rest;
    if rest - {id} != {} {
      EarliestExists(files, rest - {id}, mtime);
      var k :| k in rest - {id} && Earliest(files, rest - {id}, k, mtime);
      if Precedes(files[id], files[k], mtime) {
        assert Earliest(files, rest, id, mtime) by { assert forall j :: j in rest ==> j == id || j in rest - {id}; }
      } else {
        assert Earliest(files, rest, k, mtime) by { assert forall j :: j in rest ==> j == id || j in rest - {id}; }
      }
    } else {
      assert rest == {id};
      assert Earliest(files, rest, id, mtime);
    }
  }

  /** The first i batches are staged completely, and nothing else is. */
  ghost predicate Filling(s: State, t: State, missing: seq<Batch>, i: nat)
    requires i <= |missing|
  {
    && t == s.(stages := t.stages)
    && t.stages.Keys == Ids(missing[..i])
    && forall k :: 0 <= k < i ==> missing[k].id in t.stages && t.stages[missing[k].id] == Whole(missing[k])
  }

  lemma FillingNone(s: State, missing: seq<Batch>)
    requires s.stages == map[]
    ensures Filling(s, s, missing, 0)
  {
  }

  lemma FillOne(s: State, t: State, missing: seq<Batch>, i: nat)
    requires i < |missing| && Filling(s, t, missing, i) && Distinct(missing)
    requires forall b :: b in missing ==> b in s.journal.pending && b.id !in s.entries
    ensures t == s.(stages := t.stages)
    ensures Enabled(t, StageCreated(missing[i]))
    ensures var u := Apply(t, StageCreated(missing[i]));
            u == s.(stages := u.stages) && Enabled(u, StageFilled(missing[i]))
    ensures Filling(s, Apply(Apply(t, StageCreated(missing[i])), StageFilled(missing[i])), missing, i + 1)
  {
    assert missing[i] in missing && missing[i].id !in Ids(missing[..i]);
    assert missing[..i + 1] == missing[..i] + [missing[i]];
  }

  /** If filling a file is interrupted, it stays as it is. */
  lemma FillPart(s: State, t: State, missing: seq<Batch>, i: nat)
    requires i < |missing| && Filling(s, t, missing, i) && Enabled(t, StageCreated(missing[i]))
    ensures StagesFrom(s, t, missing) && StagesFrom(s, Apply(t, StageCreated(missing[i])), missing)
    ensures var u := Apply(t, StageCreated(missing[i]));
            Enabled(u, StageClipped(missing[i])) && StagesFrom(s, Apply(u, StageClipped(missing[i])), missing)
  {
    FillingFrom(s, t, missing, i);
  }

  lemma FillingFrom(s: State, t: State, missing: seq<Batch>, i: nat)
    requires i <= |missing| && Filling(s, t, missing, i)
    ensures StagesFrom(s, t, missing)
  {
    forall id | id in t.stages ensures t.stages[id].Whole? && t.stages[id].batch in missing && t.stages[id].batch.id == id {
      assert id in Ids(missing[..i]);
    }
  }

  lemma FillingDone(s: State, t: State, missing: seq<Batch>)
    requires Filling(s, t, missing, |missing|)
    ensures t == s.(stages := t.stages) && t.stages.Keys == Ids(missing)
    ensures forall b :: b in missing ==> t.stages[b.id] == Whole(b)
    ensures StagesFrom(s, t, missing)
  {
    FillingFrom(s, t, missing, |missing|);
    assert missing[..|missing|] == missing;
  }

  /** The first i batches are renamed, the others still staged. */
  ghost predicate Promoting(s: State, t: State, missing: seq<Batch>, i: nat)
    requires i <= |missing|
  {
    && t == s.(stages := t.stages, entries := t.entries, clipped := t.clipped)
    && t.stages.Keys == Ids(missing[i..])
    && t.entries.Keys == s.entries.Keys + Ids(missing[..i])
    && (forall k :: i <= k < |missing| ==> missing[k].id in t.stages && t.stages[missing[k].id] == Whole(missing[k]))
    && (forall k :: 0 <= k < i ==> missing[k].id in t.entries && EntryFile(t, missing[k].id) == Whole(missing[k]))
    && (forall id :: id in s.entries ==> id in t.entries && EntryFile(t, id) == EntryFile(s, id))
  }

  lemma PromotingNone(s: State, missing: seq<Batch>)
    requires s.stages.Keys == Ids(missing) && forall b :: b in missing ==> s.stages[b.id] == Whole(b)
    ensures Promoting(s, s, missing, 0)
  {
    assert missing[0..] == missing;
  }

  lemma PromoteOne(s: State, t: State, missing: seq<Batch>, i: nat)
    requires i < |missing| && Promoting(s, t, missing, i) && Distinct(missing)
    requires forall b :: b in missing ==> b.id !in s.entries
    ensures Enabled(t, Promoted(missing[i].id))
    ensures Promoting(s, Apply(t, Promoted(missing[i].id)), missing, i + 1)
  {
    hide Ids;
    NextId(missing, i);
    assert missing[i] in missing;
  }

  lemma NextId(batches: seq<Batch>, i: nat)
    requires i < |batches| && Distinct(batches)
    ensures Ids(batches[i..]) - {batches[i].id} == Ids(batches[i + 1..])
    ensures Ids(batches[..i + 1]) == Ids(batches[..i]) + {batches[i].id}
    ensures batches[i].id !in Ids(batches[..i])
  {
    assert batches[..i + 1] == batches[..i] + [batches[i]];
    assert batches[i..] == [batches[i]] + batches[i + 1..];
  }

  lemma PromotingAdds(s: State, t: State, missing: seq<Batch>, i: nat)
    requires i <= |missing| && Promoting(s, t, missing, i)
    ensures Adding(s, t, missing) && t.stages.Keys <= Ids(missing)
    ensures i == |missing| ==> t.stages == map[]
    ensures i == |missing| ==> forall b :: b in missing ==> b.id in t.entries && EntryFile(t, b.id) == Whole(b)
  {
    forall id | id in t.stages ensures id in Ids(missing) {
      var b :| b in missing[i..] && b.id == id;
      assert b in missing;
    }
    forall id | id in t.entries && id !in s.entries ensures t.entries[id] in missing && t.entries[id].id == id {
      assert id in Ids(missing[..i]);
    }
  }

  /** Completely staged and no entry yet, or a complete entry and no longer staged. */
  predicate StagedOrEntry(s: State, b: Batch) {
    if b.id in s.stages then s.stages[b.id] == Whole(b) && b.id !in s.entries
    else b.id in s.entries && EntryFile(s, b.id) == Whole(b)
  }

  lemma PromotingEach(s: State, t: State, missing: seq<Batch>, i: nat)
    requires i <= |missing| && Promoting(s, t, missing, i) && Distinct(missing)
    requires forall b :: b in missing ==> b.id !in s.entries
    ensures forall b :: b in missing ==> StagedOrEntry(t, b)
  {
    hide StagedOrEntry, EntryFile, Ids;
    forall b | b in missing ensures StagedOrEntry(t, b) {
      var k :| 0 <= k < |missing| && missing[k] == b;
      PromotingAt(s, t, missing, i, k);
    }
  }

  lemma PromotingAt(s: State, t: State, missing: seq<Batch>, i: nat, k: nat)
    requires i <= |missing| && k < |missing| && Promoting(s, t, missing, i) && Distinct(missing)
    requires missing[k].id !in s.entries
    ensures StagedOrEntry(t, missing[k])
  {
    if k < i {
      assert missing[k].id !in Ids(missing[i..]);
    } else {
      assert missing[k].id !in Ids(missing[..i]);
    }
  }

  /** Entries kept, and new ones only for these batches. */
  ghost predicate Adding(s: State, t: State, batches: seq<Batch>) {
    && t == s.(stages := t.stages, entries := t.entries, clipped := t.clipped)
    && (forall id :: id in s.entries ==> id in t.entries && EntryFile(t, id) == EntryFile(s, id))
    && (forall id :: id in t.entries && id !in s.entries ==> t.entries[id] in batches && t.entries[id].id == id)
  }

  lemma SpoolingMore(s: State, t: State, u: State, missing: seq<Batch>, batches: seq<Batch>)
    requires Spooling(s, t, batches) && Adding(t, u, missing) && forall b :: b in missing ==> b in batches
    ensures Spooling(s, u, batches)
  {
  }

  lemma StagesMore(s: State, t: State, u: State, missing: seq<Batch>, batches: seq<Batch>)
    requires t.stages == map[] && StagesFrom(t, u, missing) && forall b :: b in missing ==> b in batches
    ensures StagesFrom(s, u, batches)
  {
  }

  lemma StagesLess(s: State, t: State, u: State, missing: seq<Batch>, batches: seq<Batch>)
    requires StagesFrom(s, t, batches) && u.stages.Keys <= t.stages.Keys
    requires t.stages.Keys <= Ids(missing) && forall b :: b in missing ==> StagedOrEntry(u, b)
    requires forall b :: b in missing ==> b in batches
    ensures StagesFrom(s, u, batches)
  {
  }

  lemma SpoolingKeeps(s: State, t: State, batches: seq<Batch>)
    requires Spooling(s, t, batches)
    ensures t == s.(stages := t.stages, entries := t.entries, clipped := t.clipped)
  {
  }
}
