/** EgressPolicyManager of hy2panel/operations.py: every write of its methods is one step of
    EgressSwitch, so whatever they do, and wherever it ends, is a run of that system. */
module EgressTransaction {
  import opened Wrappers
  import opened EgressText
  import opened EgressSwitch

  datatype Recovered = NothingToDo | Committed | RolledBack | Interrupted

  datatype Result = Switched | Refused | Restored | Broken

  class Manager {
    var disk: Disk
    ghost var phase: Phase
    ghost const origin: Machine
    ghost var log: seq<Step>

    ghost function View(): Machine
      reads this
    {
      Machine(disk, phase)
    }

    ghost predicate Valid()
      reads this
    {
      Possible(origin, log) && After(origin, log) == View() && Meaning(View())
    }

    /** A started process, on the disk that the one before it left. */
    constructor (disk: Disk)
      requires Meaning(Machine(disk, Resting))
      ensures Valid() && View() == Machine(disk, Resting) && log == []
    {
      this.disk := disk;
      phase := Resting;
      origin := Machine(disk, Resting);
      log := [];
    }

    /** The step that this write is, or that the control flow takes without a write. */
    ghost method Note(step: Step)
      requires Possible(origin, log) && Meaning(After(origin, log)) && Enabled(After(origin, log), step)
      requires disk == Apply(After(origin, log), step).disk
      modifies this`phase, this`log
      ensures Valid() && log == old(log) + [step]
      ensures View() == Apply(After(origin, old(log)), step)
    {
      hide Enabled, Apply, Meaning;
      StepMeans(After(origin, log), step);
      var longer := log + [step];
      assert longer[..|longer| - 1] == log;
      phase := Apply(After(origin, log), step).phase;
      log := longer;
    }

    /** A write that may fail before it happened, or after. */
    method Write(next: Disk, ghost step: Step) returns (ok: bool)
      requires Valid() && Enabled(View(), step) && next == Apply(View(), step).disk
      modifies this
      ensures Valid() && old(log) <= log
      ensures View() == old(View()) || View() == Apply(old(View()), step)
      ensures ok ==> View() == Apply(old(View()), step)
    {
      hide Enabled, Apply, Meaning, Possible, After;
      var failsBefore: bool := *;
      if failsBefore {
        return false;
      }
      disk := next;
      Note(step);
      ok := *;
    }

    /** Put the contents of a course in place, one file after the other. */
    method Install(course: Course) returns (ok: bool)
      requires Valid() && disk.record.Some? && phase == Replacing(course, 0)
      modifies this
      ensures Valid() && old(log) <= log
      ensures disk.record == old(disk).record && disk.state == old(disk).state
      ensures SameElsewhere(old(disk), disk, disk.record.value.originals)
      ensures phase.Replacing? && phase.course == course
      ensures ok ==> phase.done == |Order(course, Contents(course, disk.record.value))|
    {
      hide Possible, After, Meaning, Order, Contents;
      var r := disk.record.value;
      var files := Contents(course, r);
      var order := Order(course, files);
      for i := 0 to |order|
        invariant Valid() && old(log) <= log
        invariant disk.record == Some(r) && disk.state == old(disk).state
        invariant SameElsewhere(old(disk), disk, r.originals)
        invariant phase == Replacing(course, i)
      {
        assert order[i] in order;
        StepMeans(View(), Replace);
        var replaced := Write(disk.(files := disk.files[order[i] := files[order[i]]]), Replace);
        if !replaced {
          return false;
        }
      }
      ok := true;
    }

    /** The whole of a course: files, a restart of the services where there is one, the state
        file that describes the files, and then no record. */
    method Complete(course: Course) returns (ok: bool)
      requires Valid() && disk.record.Some? && phase == Replacing(course, 0)
      modifies this
      ensures Valid() && old(log) <= log
      ensures SameElsewhere(old(disk), disk, old(disk).record.value.originals)
      ensures !ok ==> disk.record == old(disk).record && !phase.Resting? && !phase.Committing? && phase.course == course
      ensures ok ==> disk.record.None? && phase.Resting?
      ensures ok ==> Settled(disk, Named(course, old(disk).record.value), Contents(course, old(disk).record.value))
    {
      hide Possible, After, Order, Mixed, Placed;
      ok := Install(course);
      if !ok {
        return;
      }
      var restartFails: bool := *;
      if course != Recovery && restartFails {
        return false;
      }
      Note(Proceed);
      var r := disk.record.value;
      ok := Write(disk.(state := Some(Manifest(Named(course, r), Contents(course, r)))), Describe);
      if !ok {
        return;
      }
      ok := Clear();
    }

    /** The removal of the record: one step, or none. */
    method Clear() returns (ok: bool)
      requires Valid() && Enabled(View(), Unlink)
      modifies this
      ensures Valid() && old(log) <= log
      ensures View() == if ok then Apply(old(View()), Unlink) else old(View())
    {
      hide Possible, After, Meaning;
      ok := *;
      if ok {
        disk := disk.(record := None);
        Note(Unlink);
      }
    }

    method Recover() returns (result: Recovered)
      requires Valid() && phase.Resting?
      modifies this
      ensures Valid() && old(log) <= log && phase.Resting?
      ensures result.NothingToDo? ==> disk == old(disk)
      ensures result.NothingToDo? <==> old(disk).record.None?
      ensures old(disk).record.Some? ==> SameElsewhere(old(disk), disk, old(disk).record.value.originals)
      ensures result.Interrupted? ==> disk.record == old(disk).record
      ensures result.Committed? ==>
                && disk == old(disk).(record := None)
                && Settled(disk, old(disk).record.value.target, old(disk).record.value.targets)
      ensures result.RolledBack? ==>
                && disk.record.None?
                && Settled(disk, old(disk).record.value.original, old(disk).record.value.originals)
    {
      hide Possible, After, Order, Mixed, Placed;
      if disk.record.None? {
        return NothingToDo;
      }
      var unreadable: bool, stateReadable: bool := *, *;
      if unreadable {
        return Interrupted;
      }
      var r := disk.record.value;
      Note(EgressSwitch.Recover(stateReadable));
      if stateReadable && Settled(disk, r.target, r.targets) {
        var cleared := Clear();
        if cleared {
          return Committed;
        }
        Note(Fail);
        return Interrupted;
      }
      var restored := Complete(Recovery);
      if restored {
        return RolledBack;
      }
      Note(Fail);
      return Interrupted;
    }

    /** Switch all files to the policy; on any error put everything back. */
    method Switch(policy: Policy, port: int) returns (result: Result)
      requires Valid() && phase.Resting?
      modifies this
      ensures Valid() && old(log) <= log && phase.Resting?
      ensures result.Switched? ==> disk.record.None? && InForce(disk, policy, port)
      ensures result.Restored? ==> disk.record.None? && Consistent(disk)
      ensures result.Restored? && old(disk).record.None? ==> disk.files == old(disk).files
      ensures result.Broken? ==> disk.record.Some?
      ensures result.Refused? && old(disk).record.None? ==> disk.files == old(disk).files && disk.state == old(disk).state
      ensures result.Refused? && old(disk).record.Some? ==>
                && SameElsewhere(old(disk), disk, old(disk).record.value.originals)
                && (disk.record == old(disk).record || Outcome(disk, old(disk).record.value))
    {
      hide Possible, After, Meaning, Enabled, Apply, Settled, Outcome, SameElsewhere, Consistent, InForce, Rewritten,
        PolicyFromEnv, PolicyFromConfig;
      var recovered := Recover();
      ghost var ready := disk;
      SettledOutcome(disk);
      if recovered.Interrupted? {
        return Refused;
      }
      var originals := disk.files;
      var targets := Rewritten(originals, policy, port);
      if targets.None? {
        return Refused;
      }
      var r := Record(PolicyFromEnv(originals[Env]).value, policy, originals, targets.value);
      var statesUnknown: bool := *;
      if statesUnknown {
        return Refused;
      }
      BeginEnabled(View(), r);
      var recorded := Write(disk.(record := Some(r)), Begin(r));
      if old(disk).record.Some? { SameFiles(old(disk), ready, disk, old(disk).record.value); }
      if !recorded {
        CrashEnabled(View());
        Note(Crash);
        return Refused;
      }
      result := Attempt(r);
      SettledOutcome(disk);
      if result.Switched? {
        RewrittenInForce(originals, targets.value, policy, port);
      }
    }

    /** The switch itself, once its record is written: forward, or all the way back. */
    method Attempt(r: Record) returns (result: Result)
      requires Valid() && disk.record == Some(r) && r.originals == disk.files && phase == Replacing(Forth, 0)
      modifies this
      ensures Valid() && old(log) <= log && phase.Resting?
      ensures !result.Refused?
      ensures result.Switched? ==> disk.record.None? && Settled(disk, r.target, r.targets)
      ensures result.Restored? ==> disk.record.None? && Settled(disk, r.original, r.originals) && disk.files == r.originals
      ensures result.Broken? ==> disk.record == Some(r)
    {
      hide Possible, After, Meaning, Order;
      var done := Complete(Forth);
      if done {
        return Switched;
      }
      Note(Fail);
      var undone := Complete(Back);
      if undone {
        assert disk.files == r.originals;
        return Restored;
      }
      Note(Fail);
      return Broken;
    }
  }

  lemma SettledOutcome(d: Disk)
    ensures forall r: Record :: Settled(d, r.original, r.originals) || Settled(d, r.target, r.targets) ==> Outcome(d, r)
    ensures forall policy, files :: Settled(d, policy, files) ==> Consistent(d)
  {
  }

  /** A record concerns no file. */
  lemma SameFiles(c: Disk, d: Disk, e: Disk, r: Record)
    requires e.files == d.files && e.state == d.state
    ensures Outcome(d, r) ==> Outcome(e, r)
    ensures SameElsewhere(c, d, r.originals) ==> SameElsewhere(c, e, r.originals)
  {
  }

  lemma BeginEnabled(m: Machine, r: Record)
    requires m.phase.Resting? && m.disk.record.None? && r.originals == m.disk.files && r.targets.Keys == r.originals.Keys
    ensures Enabled(m, Begin(r)) && Apply(m, Begin(r)) == Machine(m.disk.(record := Some(r)), Replacing(Forth, 0))
  {
  }

  lemma CrashEnabled(m: Machine)
    ensures Enabled(m, Crash) && Apply(m, Crash) == m.(phase := Resting)
  {
  }

  /** The rewritten content of one file. */
  function RewrittenFile(p: Path, source: string, policy: Policy, port: int): Option<string> {
    if p == Env then ReplacePolicy(source, policy) else ReplaceAcl(source, policy, port)
  }

  /** The target contents; None when a file is missing or cannot be rewritten. */
  function Rewritten(files: Files, policy: Policy, port: int): (targets: Option<Files>)
    ensures targets.Some? ==> targets.value.Keys == files.Keys
    ensures targets.Some? ==> Env in files && PolicyFromEnv(files[Env]).Some?
  {
    if Env !in files || Primary !in files then None
    else if exists p :: p in files && RewrittenFile(p, files[p], policy, port).None? then None
    else
      assert RewrittenFile(Env, files[Env], policy, port).Some?;
      EnvNeeds(files[Env], policy);
      Some(map p | p in files :: RewrittenFile(p, files[p], policy, port).value)
  }

  /** Every file says the policy, and the state file describes exactly these files. */
  ghost predicate InForce(d: Disk, policy: Policy, port: int) {
    && d.state.Some? && Settled(d, policy, d.state.value.files)
    && Env in d.state.value.files && PolicyFromEnv(d.files[Env]) == Some(policy)
    && Primary in d.state.value.files
    && forall p :: p in d.state.value.files && p != Env ==> PolicyFromConfig(d.files[p], port) == Some(Some(policy))
  }

  ghost predicate Says(files: Files, policy: Policy, port: int) {
    && Env in files && PolicyFromEnv(files[Env]) == Some(policy)
    && Primary in files
    && forall p :: p in files && p != Env ==> PolicyFromConfig(files[p], port) == Some(Some(policy))
  }

  lemma RewrittenInForce(originals: Files, targets: Files, policy: Policy, port: int)
    requires Rewritten(originals, policy, port) == Some(targets)
    ensures Says(targets, policy, port)
    ensures forall d :: Settled(d, policy, targets) ==> InForce(d, policy, port)
  {
    hide PolicyFromConfig, AclBlock, ReplaceAcl, FindPolicy, ReplacePolicy;
    assert RewrittenFile(Env, originals[Env], policy, port).Some?;
    EnvNeeds(originals[Env], policy);
    PolicyReadsBack(originals[Env], policy);
    forall p | p in targets && p != Env ensures PolicyFromConfig(targets[p], port) == Some(Some(policy)) {
      assert RewrittenFile(p, originals[p], policy, port).Some?;
      RewriteNeeds(originals[p], policy, port);
      ReadsBack(originals[p], policy, port);
    }
  }

  lemma EnvNeeds(source: string, policy: Policy)
    requires ReplacePolicy(source, policy).Some?
    ensures FindPolicy(source).Some?
  {
  }
}
