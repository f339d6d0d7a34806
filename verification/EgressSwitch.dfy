/** The multi-file switch of EgressPolicyManager (hy2panel/operations.py) as a transition system:
    the disk, and how far the running process has got with its switch, its rollback or its
    recovery. Which write comes next is determined by that alone; whether all the writes add up
    to all-or-nothing is proved, not demanded.

    A file is replaced atomically. The digests kept in the state file and in the record are taken
    as injective, so a digest is represented by the content it stands for. */
module EgressSwitch {
  import opened Wrappers
  import opened EgressText

  datatype Path = Env | Primary | Secondary

  type Files = map<Path, string>

  /** The state file: the policy in force and the digests of its files. */
  datatype Manifest = Manifest(policy: Policy, files: Files)

  /** The write-ahead record of one switch. */
  datatype Record = Record(original: Policy, target: Policy, originals: Files, targets: Files)

  datatype Disk = Disk(files: Files, state: Option<Manifest>, record: Option<Record>)

  /** A switch, its rollback after an exception, and the recovery of what a process left behind. */
  datatype Course = Forth | Back | Recovery

  /** Files replaced so far; then the services are restarted, the state file is written, and the
      record is removed. `Committing` is a recovery that found the switch complete. */
  datatype Phase =
    | Resting
    | Replacing(course: Course, done: nat)
    | Describing(course: Course)
    | Unlinking(course: Course)
    | Committing

  datatype Machine = Machine(disk: Disk, phase: Phase)

  /** `Fail` is an exception after whatever was written last, `Crash` the death of the process. */
  datatype Step = Begin(record: Record) | Replace | Proceed | Describe | Unlink | Fail | Crash | Recover(readable: bool)

  function Present(p: Path, files: Files): (order: seq<Path>)
    ensures forall q :: q in order <==> q == p && q in files
  {
    if p in files then [p] else []
  }

  lemma Everywhere(files: Files, order: seq<Path>)
    requires forall q :: q in order <==> q in Present(Primary, files) || q in Present(Secondary, files) || q in Present(Env, files)
    ensures forall p :: p in order <==> p in files
  {
    assert forall p :: p in files ==> p == Env || p == Primary || p == Secondary;
  }

  /** A switch and its rollback take the environment last; a recovery follows the record, where
      it comes first. */
  function Order(course: Course, files: Files): (order: seq<Path>)
    ensures forall p :: p in order <==> p in files
  {
    var order :=
      if course == Recovery then Present(Env, files) + Present(Primary, files) + Present(Secondary, files)
      else Present(Primary, files) + Present(Secondary, files) + Present(Env, files);
    Everywhere(files, order);
    order
  }

  function Contents(course: Course, r: Record): Files {
    if course == Forth then r.targets else r.originals
  }

  function Named(course: Course, r: Record): Policy {
    if course == Forth then r.target else r.original
  }

  /** _state_matches: the state file is exactly this, and its files have these contents. */
  predicate Settled(d: Disk, policy: Policy, files: Files) {
    d.state == Some(Manifest(policy, files)) && forall p :: p in files ==> p in d.files && d.files[p] == files[p]
  }

  predicate Enabled(m: Machine, step: Step) {
    match step
    case Begin(r) =>
      && m.phase.Resting? && m.disk.record.None? && r.originals.Keys == r.targets.Keys
      && forall p :: p in r.originals ==> p in m.disk.files && m.disk.files[p] == r.originals[p]
    case Replace =>
      && m.phase.Replacing? && m.disk.record.Some?
      && m.phase.done < |Order(m.phase.course, Contents(m.phase.course, m.disk.record.value))|
    case Proceed =>
      && m.phase.Replacing? && m.disk.record.Some?
      && m.phase.done == |Order(m.phase.course, Contents(m.phase.course, m.disk.record.value))|
    case Describe => m.phase.Describing? && m.disk.record.Some?
    case Unlink => m.phase.Unlinking? || m.phase.Committing?
    case Fail => !m.phase.Resting?
    case Crash => true
    case Recover(readable) => m.phase.Resting? && m.disk.record.Some?
  }

  function Apply(m: Machine, step: Step): Machine
    requires Enabled(m, step)
  {
    match step
    case Begin(r) => Machine(m.disk.(record := Some(r)), Replacing(Forth, 0))
    case Replace =>
      var files := Contents(m.phase.course, m.disk.record.value);
      var p := Order(m.phase.course, files)[m.phase.done];
      Machine(m.disk.(files := m.disk.files[p := files[p]]), Replacing(m.phase.course, m.phase.done + 1))
    case Proceed => m.(phase := Describing(m.phase.course))
    case Describe =>
      var r := m.disk.record.value;
      Machine(m.disk.(state := Some(Manifest(Named(m.phase.course, r), Contents(m.phase.course, r)))), Unlinking(m.phase.course))
    case Unlink => Machine(m.disk.(record := None), Resting)
    case Fail => m.(phase := if !m.phase.Committing? && m.phase.course == Forth then Replacing(Back, 0) else Resting)
    case Crash => m.(phase := Resting)
    case Recover(readable) =>
      var r := m.disk.record.value;
      m.(phase := if readable && Settled(m.disk, r.target, r.targets) then Committing else Replacing(Recovery, 0))
  }

  predicate Possible(m: Machine, steps: seq<Step>)
    decreases |steps|, 0
  {
    steps != [] ==>
      var before := steps[..|steps| - 1];
      Possible(m, before) && Enabled(After(m, before), steps[|steps| - 1])
  }

  function After(m: Machine, steps: seq<Step>): Machine
    requires Possible(m, steps)
    decreases |steps|, 1
  {
    if steps == [] then m else Apply(After(m, steps[..|steps| - 1]), steps[|steps| - 1])
  }

  // What each phase says of the files.

  /** Every file of the record has its original or its target content. */
  predicate Mixed(d: Disk, r: Record) {
    && r.originals.Keys == r.targets.Keys
    && forall p :: p in r.originals ==>
         p in d.files && (d.files[p] == r.originals[p] || d.files[p] == r.targets[p])
  }

  /** The first files of a course are in place. */
  predicate Placed(d: Disk, r: Record, course: Course, n: nat) {
    var order := Order(course, Contents(course, r));
    && n <= |order|
    && forall k :: 0 <= k < n ==> order[k] in d.files && d.files[order[k]] == Contents(course, r)[order[k]]
  }

  predicate Meaning(m: Machine) {
    if m.disk.record.None? then m.phase.Resting?
    else
      var r := m.disk.record.value;
      && Mixed(m.disk, r)
      && match m.phase
         case Resting => true
         case Replacing(course, n) => Placed(m.disk, r, course, n)
         case Describing(course) => Placed(m.disk, r, course, |Order(course, Contents(course, r))|)
         case Unlinking(course) => Settled(m.disk, Named(course, r), Contents(course, r))
         case Committing => Settled(m.disk, r.target, r.targets)
  }

  predicate Outcome(d: Disk, r: Record) {
    Settled(d, r.original, r.originals) || Settled(d, r.target, r.targets)
  }

  /** Outside the record's files the two disks agree, and they have the same files. */
  predicate SameElsewhere(d: Disk, e: Disk, files: Files) {
    d.files.Keys == e.files.Keys && forall p :: p in d.files && p !in files ==> e.files[p] == d.files[p]
  }

  lemma ReplaceMeans(m: Machine)
    requires Meaning(m) && Enabled(m, Replace)
    ensures Meaning(Apply(m, Replace)) && SameElsewhere(m.disk, Apply(m, Replace).disk, m.disk.record.value.originals)
  {
    hide Order, Settled, Contents;
    var r, course, n := m.disk.record.value, m.phase.course, m.phase.done;
    var files := Contents(course, r);
    var order := Order(course, files);
    assert order[n] in order && files == if course == Forth then r.targets else r.originals by { WhichContents(course, r); }
    PlacedNext(m.disk, r, course, n);
  }

  lemma WhichContents(course: Course, r: Record)
    ensures Contents(course, r) == if course == Forth then r.targets else r.originals
  {
  }

  lemma PlacedNext(d: Disk, r: Record, course: Course, n: nat)
    requires Placed(d, r, course, n) && n < |Order(course, Contents(course, r))|
    ensures var files := Contents(course, r);
            var p := Order(course, files)[n];
            p in files && Placed(d.(files := d.files[p := files[p]]), r, course, n + 1)
  {
    hide Order, Contents;
    var order := Order(course, Contents(course, r));
    assert order[n] in order;
  }

  lemma DescribeMeans(m: Machine)
    requires Meaning(m) && Enabled(m, Describe)
    ensures Meaning(Apply(m, Describe))
  {
    var files := Contents(m.phase.course, m.disk.record.value);
    var order := Order(m.phase.course, files);
    hide Order;
    forall p | p in files ensures p in m.disk.files && m.disk.files[p] == files[p] {
      assert p in order;
    }
  }

  /** Each step keeps what its phase says; the record is removed only when all files are the
      originals or all are the targets, and the state file describes exactly them. */
  lemma StepMeans(m: Machine, step: Step)
    requires Meaning(m) && Enabled(m, step)
    ensures Meaning(Apply(m, step))
    ensures m.disk.record.Some? ==> SameElsewhere(m.disk, Apply(m, step).disk, m.disk.record.value.originals)
    ensures step.Unlink? ==> m.disk.record.Some? && Outcome(Apply(m, step).disk, m.disk.record.value)
    ensures !step.Begin? && !step.Unlink? ==> Apply(m, step).disk.record == m.disk.record
  {
    hide Order;
    match step
    case Replace => ReplaceMeans(m);
    case Describe => DescribeMeans(m);
    case _ =>
  }

  /** All or nothing: from the moment the record is written, through any number of failures and
      crashes of the switch, of its rollback and of recoveries: while the record is there, every
      file is an original or a target; once it is gone, the files are all originals or all
      targets and the state file describes exactly them. No other file is ever touched. */
  lemma {:induction false} AllOrNothing(m: Machine, r: Record, steps: seq<Step>)
    requires Enabled(m, Begin(r)) && Possible(Apply(m, Begin(r)), steps)
    requires forall step :: step in steps ==> !step.Begin?
    ensures var now := After(Apply(m, Begin(r)), steps);
            && Meaning(now) && SameElsewhere(m.disk, now.disk, r.originals)
            && if now.disk.record.None? then Outcome(now.disk, r) else now.disk.record == Some(r)
  {
    if steps != [] {
      var n := |steps| - 1;
      assert steps[n] in steps;
      AllOrNothing(m, r, steps[..n]);
      var before := After(Apply(m, Begin(r)), steps[..n]);
      hide Meaning, Settled, Mixed;
      StepMeans(before, steps[n]);
      if before.disk.record.None? { WithoutRecord(before, steps[n]); }
    } else {
      BeginMeans(m, r);
    }
  }

  lemma BeginMeans(m: Machine, r: Record)
    requires Enabled(m, Begin(r))
    ensures Meaning(Apply(m, Begin(r)))
  {
  }

  lemma WithoutRecord(m: Machine, step: Step)
    requires Meaning(m) && Enabled(m, step) && m.disk.record.None? && !step.Begin?
    ensures Apply(m, step).disk == m.disk
  {
  }

  // Completed recoveries.

  predicate Undisturbed(step: Step) {
    step.Replace? || step.Proceed? || step.Describe? || step.Unlink?
  }

  predicate UnderRecovery(phase: Phase) {
    phase.Committing? || (!phase.Resting? && phase.course == Recovery)
  }

  /** A recovery that found the switch complete only removes the record; any other one ends with
      all originals. */
  lemma {:induction false} RecoveryEnds(m: Machine, r: Record, steps: seq<Step>)
    requires Meaning(m) && m.disk.record == Some(r) && UnderRecovery(m.phase)
    requires Possible(m, steps) && forall step :: step in steps ==> Undisturbed(step)
    ensures var now := After(m, steps);
            && Meaning(now)
            && if now.phase.Resting?
               then
                 && now.disk.record.None?
                 && if m.phase.Committing? then now.disk == m.disk.(record := None) else Settled(now.disk, r.original, r.originals)
               else
                 && now.disk.record == Some(r) && UnderRecovery(now.phase)
                 && (m.phase.Committing? <==> now.phase.Committing?) && (m.phase.Committing? ==> now == m)
  {
    if steps != [] {
      hide Placed, Mixed, Order;
      var n := |steps| - 1;
      assert steps[n] in steps;
      RecoveryEnds(m, r, steps[..n]);
      StepMeans(After(m, steps[..n]), steps[n]);
    }
  }

  /** Egress transaction atomicity: whatever happened to the switch of record r, to its rollback
      and to earlier recoveries, a recovery that completes leaves all originals or all targets,
      the state file describing exactly them, every other file as it was, and no record. It keeps
      the targets only if it found them complete. */
  lemma CompletedRecovery(m: Machine, r: Record, before: seq<Step>, readable: bool, steps: seq<Step>)
    requires Enabled(m, Begin(r)) && Possible(Apply(m, Begin(r)), before)
    requires forall step :: step in before ==> !step.Begin?
    requires var found := After(Apply(m, Begin(r)), before);
             && Enabled(found, Recover(readable))
             && Possible(Apply(found, Recover(readable)), steps)
             && After(Apply(found, Recover(readable)), steps).phase.Resting?
    requires forall step :: step in steps ==> Undisturbed(step)
    ensures var found := After(Apply(m, Begin(r)), before);
            var now := After(Apply(found, Recover(readable)), steps);
            && now.disk.record.None? && SameElsewhere(m.disk, now.disk, r.originals)
            && if readable && Settled(found.disk, r.target, r.targets)
               then now.disk == found.disk.(record := None) && Settled(now.disk, r.target, r.targets)
               else Settled(now.disk, r.original, r.originals)
  {
    hide Order, Mixed, Placed;
    AllOrNothing(m, r, before);
    var found := After(Apply(m, Begin(r)), before);
    StepMeans(found, Recover(readable));
    var started := Apply(found, Recover(readable));
    RecoveryEnds(started, r, steps);
    ElsewhereKept(started, r, steps);
  }

  lemma {:induction false} ElsewhereKept(m: Machine, r: Record, steps: seq<Step>)
    requires Meaning(m) && m.disk.record == Some(r) && Possible(m, steps) && forall step :: step in steps ==> !step.Begin?
    ensures Meaning(After(m, steps)) && SameElsewhere(m.disk, After(m, steps).disk, r.originals)
    ensures After(m, steps).disk.record.None? || After(m, steps).disk.record == Some(r)
  {
    if steps != [] {
      hide Meaning;
      var n := |steps| - 1;
      assert steps[n] in steps;
      ElsewhereKept(m, r, steps[..n]);
      var before := After(m, steps[..n]);
      StepMeans(before, steps[n]);
      if before.disk.record.None? { WithoutRecord(before, steps[n]); }
    }
  }

  /** A recovery that nothing disturbs does complete. */
  lemma RecoveryCompletes(m: Machine, r: Record) returns (steps: seq<Step>)
    requires Meaning(m) && m.disk.record == Some(r) && UnderRecovery(m.phase)
    ensures forall step :: step in steps ==> Undisturbed(step)
    ensures Possible(m, steps) && After(m, steps).phase.Resting?
    decreases match m.phase
              case Replacing(_, done) => 3 + |Order(Recovery, r.originals)| - done
              case Describing(_) => 2
              case _ => 1
  {
    hide Placed, Mixed, Settled, Order;
    var step :=
      if m.phase.Replacing? then (if m.phase.done < |Order(Recovery, r.originals)| then Replace else Proceed)
      else if m.phase.Describing? then Describe else Unlink;
    DoneBound(m, r);
    StepMeans(m, step);
    var next := Apply(m, step);
    if step.Unlink? {
      steps := [Unlink];
      OneStep(m, Unlink);
    } else {
      var rest := RecoveryCompletes(next, r);
      steps := [step] + rest;
      FirstStep(m, step, rest);
    }
  }

  lemma DoneBound(m: Machine, r: Record)
    requires Meaning(m) && m.disk.record == Some(r) && UnderRecovery(m.phase)
    ensures m.phase.Replacing? ==> m.phase.done <= |Order(Recovery, r.originals)| && Contents(m.phase.course, r) == r.originals
  {
  }

  lemma OneStep(m: Machine, step: Step)
    requires Enabled(m, step)
    ensures Possible(m, [step]) && After(m, [step]) == Apply(m, step)
  {
    hide Enabled, Apply;
    assert [step][..0] == [];
  }

  lemma {:induction false} FirstStep(m: Machine, step: Step, rest: seq<Step>)
    requires Enabled(m, step) && Possible(Apply(m, step), rest)
    ensures Possible(m, [step] + rest) && After(m, [step] + rest) == After(Apply(m, step), rest)
  {
    hide Enabled, Apply;
    if rest == [] {
      OneStep(m, step);
      assert [step] + rest == [step];
    } else {
      var n := |rest| - 1;
      FirstStep(m, step, rest[..n]);
      assert ([step] + rest)[..|rest|] == [step] + rest[..n];
    }
  }

  // Over many switches.

  /** The state file describes files that are in place. */
  predicate Consistent(d: Disk) {
    d.state.Some? && Settled(d, d.state.value.policy, d.state.value.files)
  }

  /** Over any number of switches: whenever no record is left, no process is at work and the state
      file describes exactly the files that are in place. */
  lemma {:induction false} AlwaysConsistent(m: Machine, steps: seq<Step>)
    requires Meaning(m) && (m.disk.record.None? ==> Consistent(m.disk)) && Possible(m, steps)
    ensures var now := After(m, steps);
            Meaning(now) && (now.disk.record.None? ==> now.phase.Resting? && Consistent(now.disk))
  {
    if steps != [] {
      var n := |steps| - 1;
      var before := After(m, steps[..n]);
      AlwaysConsistent(m, steps[..n]);
      hide Mixed, Placed, Order;
      StepMeans(before, steps[n]);
    }
  }
}
