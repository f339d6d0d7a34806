/** NodeControlCycle of node_agent.py: collect, upload, snapshot. Each method returns whether it
    went through; `false` is the exception of the source, after which the next cycle (or the
    next process) starts over from whatever the disk holds. */
module ControlCycle {
  import opened Traffic
  import opened Wrappers
  import opened Sampling
  import opened Accounting
  import opened NodeWorld
  import opened TrafficSpool
  import opened CumulativeCollector

  const MAX_BATCHES_PER_CYCLE: nat := 8
  const PAYLOAD_BUDGET: nat := 480 * 1024

  /** The encoded size of batches, and of batches with a snapshot. */
  type Size = (seq<Batch>, Option<Snapshot>) -> nat

  /** The centre holds an accepted snapshot that covers everything journalled so far. */
  ghost predicate SnapshotAccepted(s: State) {
    exists p :: p in s.accepted && p.basis == |s.minted|
  }

  /** Unless batches were still pending, every endpoint's checkpoint is at what it answered. */
  predicate Advanced(before: Journal, after: Journal, readings: seq<Reading>) {
    before.pending == [] ==>
      && |Taken(before.endpoints, readings)| == |readings|
      && after.endpoints == Advance(before.endpoints, Taken(before.endpoints, readings))
  }

  class Cycle {
    const world: World
    const spool: Spool
    const collector: Collector

    ghost predicate Valid()
      reads this, world, collector
    {
      collector.world == world && collector.spool == spool && collector.Valid()
    }

    constructor (world: World, spool: Spool, collector: Collector)
      requires collector.Valid() && collector.world == world && collector.spool == spool
      ensures Valid() && this.world == world && this.spool == spool && this.collector == collector
    {
      this.world := world;
      this.spool := spool;
      this.collector := collector;
    }

    /** The spooled batches that are young enough to upload, and whether any is not. */
    method UploadablePending(clock: int) returns (r: Option<seq<Batch>>, expired: bool)
      requires Valid()
      modifies world
      ensures Valid() && old(world.log) <= world.log
      ensures Quiet(old(world.now), world.now)
      ensures old(world.now).entries.Keys <= world.now.entries.Keys
      ensures r.Some? ==> world.now.stages == map[] && Distinct(r.value)
      ensures r.Some? ==> forall b :: b in r.value <==>
                b.id in world.now.entries && world.now.entries[b.id] == b && Unexpired(b, clock)
      ensures r.Some? ==>
                (expired <==> exists id :: id in world.now.entries && !Unexpired(world.now.entries[id], clock))
      ensures r.Some? && !expired ==> Ids(r.value) == world.now.entries.Keys
      ensures r.Some? && !expired ==> forall id :: id in world.now.entries ==> world.now.entries[id] in r.value
    {
      hide Inv, Possible, After, Settling, Distinct;
      var mtime: BatchId -> int := *;
      var pending := spool.Pending(mtime);
      SettlingQuiet(old(world.now), world.now);
      if pending.None? {
        return None, false;
      }
      var young, overdue := Young(pending.value, clock);
      if overdue {
        var b :| b in pending.value && !Unexpired(b, clock);
        assert world.now.entries[b.id] == b;
      } else {
        forall id | id in world.now.entries ensures world.now.entries[id] in young {
          assert id in Ids(pending.value);
        }
      }
      return Some(young), overdue;
    }

    method Young(pending: seq<Batch>, clock: int) returns (young: seq<Batch>, expired: bool)
      requires Distinct(pending)
      ensures Distinct(young) && forall b :: b in young <==> b in pending && Unexpired(b, clock)
      ensures expired <==> exists b :: b in pending && !Unexpired(b, clock)
      ensures !expired ==> young == pending
    {
      young, expired := [], false;
      for i := 0 to |pending|
        invariant forall b :: b in young <==> b in pending[..i] && Unexpired(b, clock)
        invariant Distinct(young)
        invariant expired <==> exists b :: b in pending[..i] && !Unexpired(b, clock)
        invariant !expired ==> young == pending[..i]
      {
        assert pending[..i + 1] == pending[..i] + [pending[i]];
        if Unexpired(pending[i], clock) {
          DistinctAdd(pending, young, i);
          young := young + [pending[i]];
        } else {
          expired := true;
        }
      }
      assert pending[..|pending|] == pending;
    }

    method UploadPending(clock: int) returns (ok: bool)
      requires Valid()
      modifies world
      ensures Valid() && old(world.log) <= world.log
      ensures world.now.journal == old(world.now).journal && world.now.minted == old(world.now).minted
      ensures forall id :: id in old(world.now).entries ==> id in world.now.entries || id in world.now.applied
      ensures ok ==> world.now.entries == map[] && world.now.stages == map[]
    {
      hide Inv, Possible, After;
      var pending, expired := UploadablePending(clock);
      if pending.None? {
        return false;
      }
      for i := 0 to |pending.value|
        invariant Valid() && old(world.log) <= world.log
        invariant world.now.journal == old(world.now).journal && world.now.minted == old(world.now).minted
        invariant world.now.stages == map[]
        invariant forall id :: id in old(world.now).entries ==> id in world.now.entries || id in world.now.applied
        invariant forall k :: i <= k < |pending.value| ==>
                    pending.value[k].id in world.now.entries && world.now.entries[pending.value[k].id] == pending.value[k]
        invariant !expired ==> world.now.entries.Keys == Ids(pending.value[i..])
      {
        var b := pending.value[i];
        assert b in pending.value;
        NextId(pending.value, i);
        var reply := world.Post(Request([b], None), clock);
        if !reply {
          return false;
        }
        assert b.id in Ids([b]) by { assert b in [b]; }
        var removed := spool.Ack(b.id);
        if !removed {
          return false;
        }
      }
      ok := !expired;
    }

    method CollectToSpool(observedAt: nat, readings: seq<Reading>, clock: int) returns (ok: bool)
      requires Valid() && observedAt <= MAX_COUNTER
      requires Truthful(collector.document.endpoints, world.now.lifetimes, readings)
      modifies world, collector
      ensures Valid() && old(world.log) <= world.log
      ensures ok ==> world.now.journal.pending == []
      ensures ok ==> Advanced(old(collector.document), collector.document, readings)
    {
      hide Inv, Possible, After, Truthful, Taken, Advance;
      ok := collector.Collect(observedAt, readings);
      if !ok {
        var drained := UploadPending(clock);
      }
    }

    method FlushTraffic(observedAt: nat, readings: seq<Reading>, clock: int) returns (ok: bool)
      requires Valid() && observedAt <= MAX_COUNTER
      requires Truthful(collector.document.endpoints, world.now.lifetimes, readings)
      modifies world, collector
      ensures Valid() && old(world.log) <= world.log
      ensures ok ==> world.now.journal.pending == [] && world.now.entries == map[] && world.now.stages == map[]
      ensures ok ==> Advanced(old(collector.document), collector.document, readings)
    {
      hide Inv, Possible, After, Truthful, Advanced;
      ok := CollectToSpool(observedAt, readings, clock);
      if ok {
        ok := UploadPending(clock);
      }
    }

    /** An online snapshot on its own: only when nothing is pending anywhere on the node. */
    method RefreshSnapshot(clock: int) returns (ok: bool)
      requires Valid()
      modifies world
      ensures Valid() && old(world.log) <= world.log
      ensures world.now.journal == old(world.now).journal && world.now.minted == old(world.now).minted
      ensures ok ==> SnapshotAccepted(world.now)
      ensures ok ==> world.now.journal.pending == [] && world.now.entries == map[]
    {
      hide Inv, Possible, After;
      if collector.document.pending != [] {
        return false;
      }
      var pending, expired := UploadablePending(clock);
      var stale: bool := *;
      if pending.None? || expired || pending.value != [] || stale {
        return false;
      }
      SequenceBound(world.now);
      world.Perform(Numbered);
      var snapshot := Snapshot(world.now.sequence, |world.now.minted|);
      assert world.now.entries.Keys == Ids([]) == {};
      ok := world.Post(Request([], Some(snapshot)), clock);
    }

    /** The combined cycle. The result tells whether the request was answered, and whether the
        accounting went through without an error. */
    method RunCombined(stopped: bool, observedAt: nat, readings: seq<Reading>, clock: int, size: Size)
        returns (answered: bool, clean: bool)
      requires Valid() && observedAt <= MAX_COUNTER
      requires Truthful(collector.document.endpoints, world.now.lifetimes, readings)
      modifies world, collector
      ensures Valid() && old(world.log) <= world.log
      ensures clean ==> answered
      ensures clean && !stopped ==> SnapshotAccepted(world.now) || world.now.entries != map[]
      ensures clean && !stopped ==> world.now.journal.pending == []
      ensures answered && !stopped ==> Advanced(old(collector.document), collector.document, readings)
    {
      hide Inv, Possible, After, Truthful, Advanced, Enabled, Apply, Central;
      var selected: seq<Batch> := [];
      var snapshot: Option<Snapshot> := None;
      var deferred, expired := false, false;
      ghost var left: set<BatchId> := {};
      if !stopped {
        var collected := CollectToSpool(observedAt, readings, clock);
        if !collected {
          return false, false;
        }
        var pending, overdue := UploadablePending(clock);
        expired := overdue;
        if pending.None? {
          return false, false;
        }
        selected := Select(pending.value, size);
        SelectedPart(pending.value, selected);
        left := if |selected| < |pending.value| then {pending.value[|selected|].id} else {};
        snapshot, deferred := Attach(selected, |selected| == |pending.value| && !expired, clock, size);
      } else {
        NothingSent(world.now, clock);
      }
      ghost var sent := world.now;
      var reply := world.Post(Request(selected, snapshot), clock);
      CentralOnly(sent.(mail := world.now.mail), world.now);
      if !reply {
        return false, false;
      }
      var removed := AckAll(selected);
      if !removed || (!stopped && expired) {
        return true, false;
      }
      if deferred {
        var refreshed := RefreshSnapshot(clock);
        return true, refreshed;
      }
      assert left <= world.now.entries.Keys;
      return true, true;
    }

    /** The snapshot that goes with the selected batches, if these are all there are; `deferred`
        if it does not fit beside them. */
    method Attach(selected: seq<Batch>, complete: bool, clock: int, size: Size)
        returns (snapshot: Option<Snapshot>, deferred: bool)
      requires Valid() && world.now.journal.pending == [] && world.now.stages == map[]
      requires forall b :: b in selected ==> b.id in world.now.entries && world.now.entries[b.id] == b && Unexpired(b, clock)
      requires complete ==> forall id :: id in world.now.entries ==> world.now.entries[id] in selected
      modifies world
      ensures Valid() && old(world.log) <= world.log
      ensures world.now == old(world.now).(sequence := world.now.sequence)
      ensures Enabled(world.now, Sent(Request(selected, snapshot), clock))
      ensures snapshot.Some? ==> snapshot.value.basis == |world.now.minted|
      ensures complete <==> snapshot.Some? || deferred
    {
      hide Inv, Possible, After;
      snapshot, deferred := None, false;
      if complete {
        SequenceBound(world.now);
        world.Perform(Numbered);
        snapshot := Some(Snapshot(world.now.sequence, |world.now.minted|));
        if size(selected, snapshot) > PAYLOAD_BUDGET {
          snapshot, deferred := None, true;
        }
      }
    }

    /** Up to eight batches, as many as the payload budget takes. */
    method Select(pending: seq<Batch>, size: Size) returns (selected: seq<Batch>)
      ensures selected <= pending && |selected| <= MAX_BATCHES_PER_CYCLE
      ensures forall k :: 0 < k <= |selected| ==> size(pending[..k], None) <= PAYLOAD_BUDGET
      ensures |selected| < |pending| && |selected| < MAX_BATCHES_PER_CYCLE ==>
                size(pending[..|selected| + 1], None) > PAYLOAD_BUDGET
    {
      selected := [];
      while |selected| < |pending| && |selected| < MAX_BATCHES_PER_CYCLE
        invariant selected <= pending && |selected| <= MAX_BATCHES_PER_CYCLE
        invariant forall k :: 0 < k <= |selected| ==> size(pending[..k], None) <= PAYLOAD_BUDGET
      {
        var candidate := selected + [pending[|selected|]];
        assert candidate == pending[..|selected| + 1];
        if size(candidate, None) > PAYLOAD_BUDGET {
          return;
        }
        selected := candidate;
      }
    }

    method AckAll(selected: seq<Batch>) returns (ok: bool)
      requires Valid() && Ids(selected) <= world.now.applied
      modifies world
      ensures Valid() && old(world.log) <= world.log
      ensures world.now == old(world.now).(entries := world.now.entries, clipped := world.now.clipped)
      ensures ok ==> world.now.entries.Keys == old(world.now).entries.Keys - Ids(selected)
    {
      hide Inv, Possible, After;
      for i := 0 to |selected|
        invariant Valid() && old(world.log) <= world.log
        invariant world.now == old(world.now).(entries := world.now.entries, clipped := world.now.clipped)
        invariant world.now.entries.Keys == old(world.now).entries.Keys - Ids(selected[..i])
      {
        assert selected[i] in selected && selected[i].id in Ids(selected);
        assert selected[..i + 1] == selected[..i] + [selected[i]];
        var removed := spool.Ack(selected[i].id);
        if !removed {
          return false;
        }
      }
      assert selected[..|selected|] == selected;
      ok := true;
    }

    /** The separate requests of an older panel. */
    method LegacyControl(stopped: bool, collect: bool, observedAt: nat, readings: seq<Reading>, clock: int)
        returns (clean: bool)
      requires Valid() && observedAt <= MAX_COUNTER
      requires Truthful(collector.document.endpoints, world.now.lifetimes, readings)
      modifies world, collector
      ensures Valid() && old(world.log) <= world.log
      ensures clean && !stopped ==> SnapshotAccepted(world.now) && world.now.entries == map[]
      ensures clean && !stopped && collect ==> Advanced(old(collector.document), collector.document, readings)
    {
      hide Inv, Possible, After, Truthful, Advanced;
      clean := true;
      if !stopped {
        if collect {
          clean := FlushTraffic(observedAt, readings, clock);
        } else {
          clean := UploadPending(clock);
        }
        if clean {
          clean := RefreshSnapshot(clock);
        }
      }
    }
  }

  /** Only the spool's files have been settled. */
  predicate Quiet(s: State, t: State) {
    t == s.(stages := t.stages, entries := t.entries, clipped := t.clipped)
  }

  lemma SettlingQuiet(s: State, t: State)
    requires Settling(s, t)
    ensures Quiet(s, t) && s.entries.Keys <= t.entries.Keys
  {
  }

  lemma SequenceBound(s: State)
    requires Inv(s)
    ensures forall r :: r in s.mail && r.snapshot.Some? ==> r.snapshot.value.sequence <= s.sequence
  {
  }

  lemma CentralOnly(s: State, t: State)
    requires Central(s, t)
    ensures t.journal == s.journal && t.minted == s.minted && t.entries == s.entries && t.stages == s.stages
  {
  }

  lemma NothingSent(s: State, clock: int)
    ensures Enabled(s, Sent(Request([], None), clock))
  {
  }

  /** A selection that is not all of the list leaves a batch of it. */
  lemma SelectedPart(pending: seq<Batch>, selected: seq<Batch>)
    requires selected <= pending && Distinct(pending)
    ensures |selected| == |pending| ==> selected == pending
    ensures |selected| < |pending| ==> pending[|selected|] in pending && pending[|selected|].id !in Ids(selected)
    ensures forall b :: b in selected ==> b in pending
  {
    assert forall i :: 0 <= i < |selected| ==> selected[i] == pending[i];
  }

  lemma DistinctAdd(all: seq<Batch>, some: seq<Batch>, i: nat)
    requires i < |all| && Distinct(all) && Distinct(some)
    requires forall b :: b in some ==> b in all[..i]
    ensures Distinct(some + [all[i]])
  {
    forall k | 0 <= k < |some| ensures some[k].id != all[i].id {
      assert some[k] in all[..i];
    }
  }
}
