/** What the node agent's methods act on. Every durable effect of theirs is one `Perform` of a
    step, so a method over a World performs nothing but a possible run of Accounting. */
module NodeWorld {
  import opened Sampling
  import opened Accounting
  import opened ExactlyOnce

  /** The disk of the node, the network and the centre, with the log of everything that happened. */
  class World {
    var now: State
    ghost var log: seq<Step>

    ghost predicate Valid()
      reads this
    {
      Possible(START, log) && After(START, log) == now && Inv(now)
    }

    constructor ()
      ensures Valid() && now == START && log == []
    {
      now := START;
      log := [];
    }

    method Perform(step: Step)
      requires Valid() && Enabled(now, step)
      modifies this
      ensures Valid() && now == Apply(old(now), step)
      ensures log == old(log) + [step]
    {
      hide Inv, Enabled, Apply, Possible, After;
      StepKeeps(now, step);
      Longer(log, step);
      now := Apply(now, step);
      log := log + [step];
    }

    /** Requests that were sent earlier reach the centre now: late, again, or only half-way. */
    method Interfere()
      requires Valid()
      modifies this
      ensures Valid() && old(log) <= log && Central(old(now), now)
    {
      var rounds: nat := *;
      while rounds > 0
        invariant Valid() && old(log) <= log && Central(old(now), now)
      {
        var count: nat, accept: bool, clock: int := *, *, *;
        if now.mail != {} {
          var r :| r in now.mail;
          var delivery := Delivered(r, count, accept, clock);
          if count <= |r.batches| && (forall i :: 0 <= i < count ==> Timely(r.batches[i], clock))
             && (accept ==> count == |r.batches| && r.snapshot.Some?) {
            DeliveredOnly(now, delivery);
            Perform(delivery);
          }
        }
        rounds := rounds - 1;
      }
    }

    /** One request and its reply. Without a reply the request may have been lost, rejected
        midway, or processed completely. */
    method Post(request: Request, clock: int) returns (reply: bool)
      requires Valid() && Enabled(now, Sent(request, clock))
      modifies this
      ensures Valid() && old(log) <= log
      ensures Central(old(now).(mail := now.mail), now)
      ensures now.mail == old(now).mail + {request}
      ensures reply ==> Ids(request.batches) <= now.applied
      ensures reply && request.snapshot.Some? ==> request.snapshot.value in now.accepted
    {
      hide Inv, Possible, After;
      Perform(Sent(request, clock));
      Interfere();
      var count: nat, arrival: int := *, *;
      if count <= |request.batches| && forall i :: 0 <= i < count ==> Timely(request.batches[i], arrival) {
        var accept: bool := *;
        accept := accept && count == |request.batches| && request.snapshot.Some?;
        var delivery := Delivered(request, count, accept, arrival);
        DeliveredOnly(now, delivery);
        Perform(delivery);
        reply := *;
        reply := reply && count == |request.batches| && (request.snapshot.Some? ==> accept);
      } else {
        reply := false;
      }
    }
  }

  /** Only the centre has changed, and only by committing and accepting more. */
  ghost predicate Central(s: State, t: State) {
    && t == s.(applied := t.applied, total := t.total, accepted := t.accepted)
    && s.applied <= t.applied
  }

  lemma {:induction false} CommitAllOnly(s: State, batches: seq<Batch>)
    ensures Central(s, CommitAll(s, batches))
    ensures CommitAll(s, batches).accepted == s.accepted
  {
    if batches != [] { CommitAllOnly(s, batches[..|batches| - 1]); }
  }

  lemma DeliveredOnly(s: State, step: Step)
    requires Inv(s) && step.Delivered? && Enabled(s, step)
    ensures Central(s, Apply(s, step))
    ensures step.count == |step.request.batches| ==> Ids(step.request.batches) <= Apply(s, step).applied
    ensures step.accept ==> step.request.snapshot.value in Apply(s, step).accepted
  {
    var batches := step.request.batches[..step.count];
    assert forall b :: b in batches ==> b in step.request.batches;
    CommitAllKeeps(s, batches);
    CommitAllOnly(s, batches);
    if step.count == |step.request.batches| { assert batches == step.request.batches; }
  }
}
