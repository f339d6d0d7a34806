/** What a node can still get done, wherever it was interrupted: which errors of its spool can
    occur, and when everything it holds reaches the centre. */
module NodeProgress {
  import opened Traffic
  import opened Wrappers
  import opened Sampling
  import opened Accounting
  import opened ExactlyOnce

  // The two conflict errors of the spool.

  predicate Apart(s: State) {
    s.stages.Keys !! s.entries.Keys
  }

  lemma ApartKept(s: State, step: Step)
    requires Apart(s) && Enabled(s, step)
    ensures Apart(Apply(s, step))
  {
    if step.Delivered? { CommitsKeepFiles(s, step.request.batches[..step.count]); }
  }

  lemma {:induction false} CommitsKeepFiles(s: State, batches: seq<Batch>)
    ensures CommitAll(s, batches) == s.(applied := CommitAll(s, batches).applied, total := CommitAll(s, batches).total)
  {
    if batches != [] { CommitsKeepFiles(s, batches[..|batches| - 1]); }
  }

  /** A staged file never meets an entry of its name, so it never conflicts with one. */
  lemma {:induction false} StagesNeverConflict(steps: seq<Step>)
    requires Possible(START, steps)
    ensures Apart(After(START, steps))
  {
    if steps != [] {
      hide Apart, Enabled, Apply;
      var n := |steps| - 1;
      StagesNeverConflict(steps[..n]);
      ApartKept(After(START, steps[..n]), steps[n]);
    } else {
      assert Apart(START);
    }
  }

  /** A batch to be persisted finds its own content under its name, and conflicts with it exactly
      if that file lacks its final newline. */
  lemma EntriesConflict(steps: seq<Step>, b: Batch)
    requires Possible(START, steps)
    requires b in After(START, steps).journal.pending && b.id in After(START, steps).entries
    ensures var s := After(START, steps);
            s.entries[b.id] == b && (EntryFile(s, b.id) != Whole(b) <==> b.id in s.clipped)
  {
    FromStart(steps);
    var s := After(START, steps);
    SameId(s.minted, s.entries[b.id], b);
  }

  // Undisturbed runs at one time.

  /** The node has sent a request with this batch in the run, and was told that all of it is
      committed. */
  ghost predicate Replied(steps: seq<Step>, id: BatchId, now: int) {
    exists x :: x in steps && x.Delivered? && x.count == |x.request.batches| && id in Ids(x.request.batches)
                && Sent(x.request, now) in steps
  }

  /** What may follow these steps: no new traffic, no interrupted write; an entry is removed after a
      reply, or, if the operator helps, together with archiving it. */
  ghost predicate Follows(steps: seq<Step>, step: Step, now: int, byHand: bool) {
    match step
    case Journalled(_, _) => false
    case StageClipped(_) => false
    case Sent(_, clock) => clock == now
    case Delivered(_, _, _, clock) => clock == now
    case Acknowledged(id) => Replied(steps, id, now)
    case Archived(_, clock) => byHand && clock == now
    case Retired(id) => byHand && Archived(id, now) in steps
    case _ => true
  }

  ghost predicate Undisturbed(steps: seq<Step>, now: int, byHand: bool) {
    steps != [] ==>
      var before := steps[..|steps| - 1];
      Undisturbed(before, now, byHand) && Follows(before, steps[|steps| - 1], now, byHand)
  }

  /** Nothing is left on the node, and the centre has accepted a snapshot that covers everything. */
  ghost predicate AtRest(s: State) {
    && s.journal.pending == [] && s.stages == map[] && s.entries == map[]
    && exists p :: p in s.accepted && p.basis == |s.minted|
  }

  ghost predicate Drains(s: State, steps: seq<Step>, now: int, byHand: bool) {
    Possible(s, steps) && Undisturbed(steps, now, byHand) && AtRest(After(s, steps))
  }

  // What keeps a batch on the node.

  predicate OnNode(s: State, b: Batch) {
    || b in s.journal.pending
    || (b.id in s.entries && s.entries[b.id] == b)
    || (b.id in s.stages && !s.stages[b.id].Torn? && s.stages[b.id].batch == b)
  }

  /** Its file lacks the final newline. */
  predicate Cut(s: State, b: Batch) {
    || (b.id in s.entries && EntryFile(s, b.id) == Clipped(b))
    || (b.id in s.stages && s.stages[b.id] == Clipped(b))
  }

  /** The centre takes a timely batch; the operator may archive an expired one, unless its file is
      not what it should be. */
  predicate Movable(s: State, b: Batch, now: int, byHand: bool) {
    Timely(b, now) || (byHand && !Unexpired(b, now) && !Cut(s, b))
  }

  ghost predicate Drainable(s: State, now: int, byHand: bool) {
    forall b :: OnNode(s, b) ==> Movable(s, b, now, byHand)
  }

  // A batch that cannot be moved stays.

  ghost predicate RepliesTimely(s: State, steps: seq<Step>, now: int) {
    forall x, b :: x in steps && x.Delivered? && x.count == |x.request.batches| && b in x.request.batches ==>
      Timely(b, now) && b in s.minted
  }

  lemma OneReply(s: State, steps: seq<Step>, step: Step, now: int, byHand: bool)
    requires Inv(s) && Enabled(s, step) && Follows(steps, step, now, byHand) && RepliesTimely(s, steps, now)
    ensures RepliesTimely(Apply(s, step), steps + [step], now)
  {
    MintedSame(s, step);
    forall x, b | x in steps + [step] && x.Delivered? && x.count == |x.request.batches| && b in x.request.batches
      ensures Timely(b, now) && b in Apply(s, step).minted {
      if x !in steps {
        var i :| 0 <= i < |x.request.batches| && x.request.batches[i] == b;
      }
    }
  }

  /** Without new traffic the journal's history stays as it is. */
  lemma MintedSame(s: State, step: Step)
    requires Enabled(s, step) && !step.Journalled?
    ensures Apply(s, step).minted == s.minted && Apply(s, step).lifetimes == s.lifetimes
  {
    if step.Delivered? { CommitsKeepFiles(s, step.request.batches[..step.count]); }
  }

  lemma Stays(s: State, steps: seq<Step>, step: Step, b: Batch, now: int, byHand: bool)
    requires Inv(s) && Apart(s) && Enabled(s, step) && Follows(steps, step, now, byHand)
    requires RepliesTimely(s, steps, now) && Archived(b.id, now) !in steps
    requires OnNode(s, b) && !Movable(s, b, now, byHand)
    ensures OnNode(Apply(s, step), b) && !Movable(Apply(s, step), b, now, byHand)
    ensures step != Archived(b.id, now)
  {
    hide NoneLost, Balanced, Barrier, Sequenced, OnNode, Cut, Apply, Unexpired;
    OnNodeMinted(s, b);
    NotTaken(s, steps, step, b, now, byHand);
    Untouched(s, step, b);
  }

  lemma NotTaken(s: State, steps: seq<Step>, step: Step, b: Batch, now: int, byHand: bool)
    requires Genuine(s) && Apart(s) && Enabled(s, step) && Follows(steps, step, now, byHand) && b in s.minted
    requires RepliesTimely(s, steps, now) && Archived(b.id, now) !in steps && !Movable(s, b, now, byHand)
    ensures step != Acknowledged(b.id) && step != Archived(b.id, now) && step != Retired(b.id)
  {
    EntryIs(s, b);
    if !Timely(b, now) { NoReply(s, steps, b, now); }
  }

  lemma EntryIs(s: State, b: Batch)
    requires Genuine(s) && b in s.minted
    ensures b.id in s.entries ==> s.entries[b.id] == b
  {
    if b.id in s.entries { SameId(s.minted, s.entries[b.id], b); }
  }

  lemma Untouched(s: State, step: Step, b: Batch)
    requires Genuine(s) && Enabled(s, step) && b in s.minted && OnNode(s, b)
    requires !step.Journalled? && !step.StageClipped? && step != Acknowledged(b.id) && step != Retired(b.id)
    ensures OnNode(Apply(s, step), b) && (Cut(s, b) ==> Cut(Apply(s, step), b))
  {
    if step.StageCreated? || step.StageFilled? {
      StagedUntouched(s, step, b);
    } else if step.Promoted? {
      if step.id == b.id { SameId(s.minted, s.stages[b.id].batch, b); }
    } else if step.Cleared? {
      EntryIs(s, b);
    } else if step.Delivered? {
      CommitsKeepFiles(s, step.request.batches[..step.count]);
    }
  }

  lemma StagedUntouched(s: State, step: Step, b: Batch)
    requires Genuine(s) && Enabled(s, step) && b in s.minted && OnNode(s, b)
    requires step.StageCreated? || step.StageFilled?
    ensures OnNode(Apply(s, step), b) && (Cut(s, b) ==> Cut(Apply(s, step), b))
  {
    if step.batch.id == b.id { SameId(s.minted, step.batch, b); }
  }

  lemma NoReply(s: State, steps: seq<Step>, b: Batch, now: int)
    requires Genuine(s) && b in s.minted && RepliesTimely(s, steps, now) && !Timely(b, now)
    ensures !Replied(steps, b.id, now)
  {
    forall x | x in steps && x.Delivered? && x.count == |x.request.batches| ensures b.id !in Ids(x.request.batches) {
      forall c | c in x.request.batches ensures c.id != b.id {
        if c.id == b.id { SameId(s.minted, c, b); }
      }
    }
  }

  /** What holds all along an undisturbed run. */
  ghost predicate Course(s: State, steps: seq<Step>, t: State, now: int, byHand: bool) {
    && Possible(s, steps) && After(s, steps) == t && Undisturbed(steps, now, byHand)
    && Inv(t) && Apart(t)
    && t.minted == s.minted && t.lifetimes == s.lifetimes && (!byHand ==> t.archive == s.archive)
  }

  lemma Onward(s: State, steps: seq<Step>, t: State, step: Step, now: int, byHand: bool)
    requires Course(s, steps, t, now, byHand) && Enabled(t, step) && Follows(steps, step, now, byHand)
    ensures Course(s, steps + [step], Apply(t, step), now, byHand)
  {
    hide Inv, Apart, Follows;
    assert (steps + [step])[..|steps|] == steps;
    StepKeeps(t, step);
    ApartKept(t, step);
    OnwardHistory(t, steps, step, now, byHand);
  }

  lemma OnwardHistory(t: State, steps: seq<Step>, step: Step, now: int, byHand: bool)
    requires Enabled(t, step) && Follows(steps, step, now, byHand)
    ensures var u := Apply(t, step);
            u.minted == t.minted && u.lifetimes == t.lifetimes && (!byHand ==> u.archive == t.archive)
  {
    MintedSame(t, step);
    if step.Delivered? { CommitsKeepFiles(t, step.request.batches[..step.count]); }
  }

  lemma {:induction false} CourseOf(s: State, steps: seq<Step>, now: int, byHand: bool)
    requires Inv(s) && Apart(s) && Possible(s, steps) && Undisturbed(steps, now, byHand)
    ensures Course(s, steps, After(s, steps), now, byHand) && RepliesTimely(After(s, steps), steps, now)
  {
    if steps != [] {
      hide Inv, Apart, Course, Follows, Enabled, Apply, RepliesTimely;
      var n := |steps| - 1;
      CourseOf(s, steps[..n], now, byHand);
      assert steps == steps[..n] + [steps[n]];
      CourseKeeps(s, steps[..n], now, byHand);
      Onward(s, steps[..n], After(s, steps[..n]), steps[n], now, byHand);
      OneReply(After(s, steps[..n]), steps[..n], steps[n], now, byHand);
    }
  }

  lemma CourseKeeps(s: State, steps: seq<Step>, now: int, byHand: bool)
    requires Possible(s, steps) && Course(s, steps, After(s, steps), now, byHand)
    ensures Inv(After(s, steps)) && Apart(After(s, steps)) && After(s, steps).minted == s.minted
  {
  }

  /** In every undisturbed run a batch that cannot be moved stays on the node. */
  lemma {:induction false} Remains(s: State, steps: seq<Step>, b: Batch, now: int, byHand: bool)
    requires Inv(s) && Apart(s) && Possible(s, steps) && Undisturbed(steps, now, byHand)
    requires OnNode(s, b) && !Movable(s, b, now, byHand)
    ensures OnNode(After(s, steps), b) && !Movable(After(s, steps), b, now, byHand) && Archived(b.id, now) !in steps
  {
    if steps != [] {
      hide Inv, Apart, Course, Follows, Enabled, Apply, RepliesTimely, OnNode, Movable;
      var n := |steps| - 1;
      var before, t := steps[..n], After(s, steps[..n]);
      Remains(s, before, b, now, byHand);
      CourseOf(s, before, now, byHand);
      CourseKeeps(s, before, now, byHand);
      Stays(t, before, steps[n], b, now, byHand);
      NotInEither(before, steps, Archived(b.id, now));
    }
  }

  lemma NotInEither(before: seq<Step>, steps: seq<Step>, step: Step)
    requires steps != [] && before == steps[..|steps| - 1] && step !in before && step != steps[|steps| - 1]
    ensures step !in steps
  {
  }

  lemma OnNodeMinted(s: State, b: Batch)
    requires Inv(s) && OnNode(s, b)
    ensures b in s.minted
  {
  }

  // Everything else can be moved.

  lemma Fewer(t: State, step: Step, b: Batch)
    requires Enabled(t, step) && !step.Journalled? && !step.StageClipped? && OnNode(Apply(t, step), b)
    ensures OnNode(t, b) && (Cut(Apply(t, step), b) ==> Cut(t, b))
  {
    if step.Delivered? { CommitsKeepFiles(t, step.request.batches[..step.count]); }
  }

  /** One step of a run that drains the node. */
  lemma Move(s: State, steps: seq<Step>, t: State, step: Step, now: int, byHand: bool) returns (u: State)
    requires Course(s, steps, t, now, byHand) && Drainable(t, now, byHand)
    requires Enabled(t, step) && Follows(steps, step, now, byHand)
    ensures u == Apply(t, step) && Course(s, steps + [step], u, now, byHand) && Drainable(u, now, byHand)
  {
    hide Course, OnNode, Cut, Enabled, Apply;
    u := Apply(t, step);
    Onward(s, steps, t, step, now, byHand);
    forall b | OnNode(u, b) ensures Movable(u, b, now, byHand) {
      Fewer(t, step, b);
    }
  }

  /** Complete stages become entries, the others go. */
  lemma {:induction false} Settle(s: State, steps: seq<Step>, t: State, now: int, byHand: bool)
      returns (more: seq<Step>, u: State)
    requires Course(s, steps, t, now, byHand) && Drainable(t, now, byHand)
    ensures Course(s, more, u, now, byHand) && Drainable(u, now, byHand)
    ensures u.stages == map[] && u.journal == t.journal
    decreases |t.stages|
  {
    if t.stages == map[] {
      more, u := steps, t;
    } else {
      hide Course, Drainable, Inv, Apart, Enabled, Follows, Apply;
      CourseMeans(s, steps, t, now, byHand);
      var id :| id in t.stages;
      var step := Settling(t, id, steps, now, byHand);
      u := Move(s, steps, t, step, now, byHand);
      more, u := Settle(s, steps + [step], u, now, byHand);
    }
  }

  lemma Settling(t: State, id: BatchId, steps: seq<Step>, now: int, byHand: bool) returns (step: Step)
    requires Apart(t) && id in t.stages
    ensures Enabled(t, step) && Follows(steps, step, now, byHand)
    ensures Apply(t, step).journal == t.journal && |Apply(t, step).stages| < |t.stages|
  {
    step := if t.stages[id].Torn? then StageDropped(id) else Promoted(id);
    assert (t.stages - {id}).Keys == t.stages.Keys - {id} < t.stages.Keys;
  }

  lemma CourseMeans(s: State, steps: seq<Step>, t: State, now: int, byHand: bool)
    requires Course(s, steps, t, now, byHand)
    ensures Inv(t) && Apart(t)
  {
  }

  /** An entry is uploaded and acknowledged, or archived by hand. */
  lemma TakeOne(s: State, steps: seq<Step>, t: State, id: BatchId, now: int, byHand: bool)
      returns (more: seq<Step>, u: State)
    requires Course(s, steps, t, now, byHand) && Drainable(t, now, byHand) && id in t.entries
    ensures Course(s, more, u, now, byHand) && Drainable(u, now, byHand)
    ensures u.stages == t.stages && u.journal == t.journal && u.entries == t.entries - {id}
  {
    hide Course, Follows, Inv;
    CourseMeans(s, steps, t, now, byHand);
    EntryOnNode(t, id);
    assert Movable(t, t.entries[id], now, byHand);
    if Timely(t.entries[id], now) {
      more, u := UploadOne(s, steps, t, id, now, byHand);
    } else {
      more, u := ArchiveOne(s, steps, t, id, now, byHand);
    }
  }

  lemma EntryOnNode(t: State, id: BatchId)
    requires Inv(t) && id in t.entries
    ensures t.entries[id].id == id && OnNode(t, t.entries[id])
    ensures id in t.clipped ==> Cut(t, t.entries[id])
  {
  }

  lemma UploadOne(s: State, steps: seq<Step>, t: State, id: BatchId, now: int, byHand: bool)
      returns (more: seq<Step>, u: State)
    requires Course(s, steps, t, now, byHand) && Drainable(t, now, byHand)
    requires id in t.entries && t.entries[id].id == id && Timely(t.entries[id], now)
    ensures Course(s, more, u, now, byHand) && Drainable(u, now, byHand)
    ensures u.stages == t.stages && u.journal == t.journal && u.entries == t.entries - {id}
  {
    hide Course, Drainable;
    var b := t.entries[id];
    var r := Request([b], None);
    u := Move(s, steps, t, Sent(r, now), now, byHand);
    var delivery := Delivered(r, 1, false, now);
    assert r.batches[..1] == [b];
    CommitsKeepFiles(u, r.batches[..1]);
    CommittedOne(u, b);
    u := Move(s, steps + [Sent(r, now)], u, delivery, now, byHand);
    more := steps + [Sent(r, now)] + [delivery];
    assert delivery in more && Sent(r, now) in more && b in r.batches;
    u := Move(s, more, u, Acknowledged(id), now, byHand);
    more := more + [Acknowledged(id)];
  }

  lemma CommittedOne(t: State, b: Batch)
    ensures b.id in CommitAll(t, [b]).applied
  {
    assert [b][..0] == [];
  }

  lemma ArchiveOne(s: State, steps: seq<Step>, t: State, id: BatchId, now: int, byHand: bool)
      returns (more: seq<Step>, u: State)
    requires Course(s, steps, t, now, byHand) && Drainable(t, now, byHand)
    requires byHand && id in t.entries && id !in t.clipped && !Unexpired(t.entries[id], now)
    ensures Course(s, more, u, now, byHand) && Drainable(u, now, byHand)
    ensures u.stages == t.stages && u.journal == t.journal && u.entries == t.entries - {id}
  {
    hide Course, Drainable;
    u := Move(s, steps, t, Archived(id, now), now, byHand);
    more := steps + [Archived(id, now)];
    u := Move(s, more, u, Retired(id), now, byHand);
    more := more + [Retired(id)];
  }

  lemma {:induction false} TakeAll(s: State, steps: seq<Step>, t: State, now: int, byHand: bool)
      returns (more: seq<Step>, u: State)
    requires Course(s, steps, t, now, byHand) && Drainable(t, now, byHand)
    ensures Course(s, more, u, now, byHand) && Drainable(u, now, byHand)
    ensures u.entries == map[] && u.stages == t.stages && u.journal == t.journal
    decreases |t.entries|
  {
    if t.entries == map[] {
      more, u := steps, t;
    } else {
      hide Course, Drainable;
      var id :| id in t.entries;
      assert t.entries.Keys - {id} < t.entries.Keys;
      more, u := TakeOne(s, steps, t, id, now, byHand);
      more, u := TakeAll(s, more, u, now, byHand);
    }
  }

  /** The first i pending batches are complete entries, and nothing else is on file. */
  ghost predicate SpooledTo(t: State, i: nat) {
    && i <= |t.journal.pending| && t.stages == map[]
    && t.entries.Keys == Ids(t.journal.pending[..i])
    && t.clipped !! t.entries.Keys
  }

  lemma {:induction false} Spool(s: State, steps: seq<Step>, t: State, i: nat, now: int, byHand: bool)
      returns (more: seq<Step>, u: State)
    requires Course(s, steps, t, now, byHand) && Drainable(t, now, byHand) && SpooledTo(t, i)
    ensures Course(s, more, u, now, byHand) && Drainable(u, now, byHand)
    ensures SpooledTo(u, |u.journal.pending|)
    decreases |t.journal.pending| - i
  {
    if i == |t.journal.pending| {
      more, u := steps, t;
    } else {
      hide Course, Drainable, SpooledTo;
      more, u := SpoolOne(s, steps, t, i, now, byHand);
      more, u := Spool(s, more, u, i + 1, now, byHand);
    }
  }

  lemma SpoolOne(s: State, steps: seq<Step>, t: State, i: nat, now: int, byHand: bool)
      returns (more: seq<Step>, u: State)
    requires Course(s, steps, t, now, byHand) && Drainable(t, now, byHand)
    requires SpooledTo(t, i) && i < |t.journal.pending|
    ensures Course(s, more, u, now, byHand) && Drainable(u, now, byHand)
    ensures SpooledTo(u, i + 1) && u.journal == t.journal
  {
    hide Course, Drainable, Inv, Apart;
    CourseMeans(s, steps, t, now, byHand);
    NextPending(t, i);
    var b := t.journal.pending[i];
    u := Move(s, steps, t, StageCreated(b), now, byHand);
    u := Move(s, steps + [StageCreated(b)], u, StageFilled(b), now, byHand);
    more := steps + [StageCreated(b)] + [StageFilled(b)];
    u := Move(s, more, u, Promoted(b.id), now, byHand);
    more := more + [Promoted(b.id)];
  }

  lemma NextPending(t: State, i: nat)
    requires Inv(t) && i < |t.journal.pending|
    ensures var pending := t.journal.pending;
            pending[i].id !in Ids(pending[..i]) && Ids(pending[..i + 1]) == Ids(pending[..i]) + {pending[i].id}
  {
    var pending := t.journal.pending;
    assert pending[..i + 1] == pending[..i] + [pending[i]];
  }

  /** With nothing left, a snapshot is sent and accepted. */
  lemma Announce(s: State, steps: seq<Step>, t: State, now: int, byHand: bool)
      returns (more: seq<Step>, u: State)
    requires Course(s, steps, t, now, byHand) && Drainable(t, now, byHand)
    requires t.journal.pending == [] && t.stages == map[] && t.entries == map[]
    ensures Course(s, more, u, now, byHand) && AtRest(u)
  {
    hide Course, Drainable, Genuine, NoneLost, Balanced, Barrier;
    CourseMeans(s, steps, t, now, byHand);
    u := Move(s, steps, t, Numbered, now, byHand);
    var p := Snapshot(u.sequence, |u.minted|);
    var r := Request([], Some(p));
    more := steps + [Numbered];
    assert u.mail == t.mail && u.sequence > t.sequence;
    u := Move(s, more, u, Sent(r, now), now, byHand);
    more := more + [Sent(r, now)];
    assert r.batches[..0] == [] && CommitAll(u, []) == u;
    u := Move(s, more, u, Delivered(r, 0, true, now), now, byHand);
    more := more + [Delivered(r, 0, true, now)];
    assert p in u.accepted;
  }

  lemma Drain(s: State, now: int, byHand: bool) returns (steps: seq<Step>)
    requires Inv(s) && Apart(s) && Drainable(s, now, byHand)
    ensures Drains(s, steps, now, byHand)
  {
    hide Inv, Apart, Drainable, AtRest;
    var t := s;
    assert Course(s, [], s, now, byHand);
    hide Course;
    steps, t := Settle(s, [], s, now, byHand);
    steps, t := TakeAll(s, steps, t, now, byHand);
    assert t.journal.pending[..0] == [] && Ids([]) == {};
    steps, t := Spool(s, steps, t, 0, now, byHand);
    AllSpooled(t);
    var u := Move(s, steps, t, Cleared, now, byHand);
    steps, t := TakeAll(s, steps + [Cleared], u, now, byHand);
    steps, t := Announce(s, steps, t, now, byHand);
    CourseRuns(s, steps, t, now, byHand);
  }

  lemma AllSpooled(t: State)
    requires SpooledTo(t, |t.journal.pending|)
    ensures Enabled(t, Cleared)
  {
    assert t.journal.pending[..|t.journal.pending|] == t.journal.pending;
    forall b | b in t.journal.pending ensures b.id in t.entries && b.id !in t.clipped {
      assert b.id in Ids(t.journal.pending);
    }
  }

  lemma CourseRuns(s: State, steps: seq<Step>, t: State, now: int, byHand: bool)
    requires Course(s, steps, t, now, byHand)
    ensures Possible(s, steps) && After(s, steps) == t && Undisturbed(steps, now, byHand)
  {
  }

  /** Wherever a node was interrupted: without help an undisturbed run can bring all it holds to
      the centre if and only if the centre takes the observation time of every batch on the node;
      with the operator archiving expired batches, if and only if besides no batch is from the
      future and no expired one lies in a file without its final newline. */
  lemma DrainsExactly(history: seq<Step>, now: int, byHand: bool)
    requires Possible(START, history)
    ensures (exists steps :: Drains(After(START, history), steps, now, byHand))
            <==> Drainable(After(START, history), now, byHand)
  {
    hide Inv, Apart, Drainable, Drains, Movable, OnNode;
    FromStart(history);
    StagesNeverConflict(history);
    var s := After(START, history);
    if Drainable(s, now, byHand) {
      var steps := Drain(s, now, byHand);
    } else {
      var b := Immovable(s, now, byHand);
      forall steps ensures !Drains(s, steps, now, byHand) {
        if Drains(s, steps, now, byHand) { DrainsMoved(s, steps, b, now, byHand); }
      }
    }
  }

  lemma Immovable(s: State, now: int, byHand: bool) returns (b: Batch)
    requires !Drainable(s, now, byHand)
    ensures OnNode(s, b) && !Movable(s, b, now, byHand)
  {
    b :| OnNode(s, b) && !Movable(s, b, now, byHand);
  }

  lemma DrainsMoved(s: State, steps: seq<Step>, b: Batch, now: int, byHand: bool)
    requires Inv(s) && Apart(s) && Drains(s, steps, now, byHand) && OnNode(s, b)
    ensures Movable(s, b, now, byHand)
  {
    hide Inv, Apart, Undisturbed, Movable;
    if !Movable(s, b, now, byHand) { Remains(s, steps, b, now, byHand); }
  }

  /** What such a run achieves: no new traffic, and all that was ever checkpointed is in the
      central total or was archived by hand, by nobody if nobody helped. */
  lemma DrainedMeans(history: seq<Step>, steps: seq<Step>, now: int, byHand: bool, aside: seq<Batch>, who: Account)
    requires Possible(START, history) && Drains(After(START, history), steps, now, byHand)
    requires Lists(aside, SetAside(After(After(START, history), steps)))
    ensures var s, t := After(START, history), After(After(START, history), steps);
            && Amount(t.total, who) + SumAll(aside, who) == Checkpointed(s.lifetimes, who)
            && (!byHand ==> t.archive == s.archive)
  {
    FromStart(history);
    StagesNeverConflict(history);
    var s := After(START, history);
    CourseOf(s, steps, now, byHand);
    var t := After(s, steps);
    assert t.entries.Values == {};
    assert Waiting(t) == SetAside(t);
    hide Waiting, SetAside, Inv;
    Conserved(t, aside, who);
  }

  // The condition on the final newline is needed.

  /** Filling the only file of a batch was interrupted just before the newline; the file was
      promoted. */
  const CUT: seq<Step> := [
    Journalled([ONE_BYTE], [ONE_BATCH]), StageCreated(ONE_BATCH), StageClipped(ONE_BATCH), Promoted(ONE_BATCH.id)]

  lemma CutRuns()
    ensures Possible(START, CUT) && OnNode(After(START, CUT), ONE_BATCH) && Cut(After(START, CUT), ONE_BATCH)
    ensures After(START, CUT).journal.pending == [ONE_BATCH]
  {
    OneByteSampled();
    Longer([], CUT[0]);
    assert [] + [CUT[0]] == CUT[..1];
    Longer(CUT[..1], CUT[1]);
    assert CUT[..1] + [CUT[1]] == CUT[..2];
    Longer(CUT[..2], CUT[2]);
    assert CUT[..2] + [CUT[2]] == CUT[..3];
    Longer(CUT[..3], CUT[3]);
    assert CUT[..3] + [CUT[3]] == CUT;
  }

  /** Once that batch is more than seven days old, the node is stuck: it no longer uploads the
      batch, the operator cannot archive the file, and the journal cannot be cleared. */
  lemma StuckForGood(now: int, byHand: bool)
    requires !Unexpired(ONE_BATCH, now)
    ensures Possible(START, CUT) && forall steps :: !Drains(After(START, CUT), steps, now, byHand)
  {
    CutRuns();
    DrainsExactly(CUT, now, byHand);
    assert !Movable(After(START, CUT), ONE_BATCH, now, byHand);
  }
}
