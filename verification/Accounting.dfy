/** The node's traffic accounting as a transition system: what is on disk, what the centre has
    committed, what is in the network, and the history the exactly-once claim is about.

    A process may die between any two steps; nothing volatile is part of the state, so every
    prefix of a run is a crash point and every continuation of it a restart. A step is the
    smallest change of a durable thing: one file created, filled, renamed or unlinked, the
    journal replaced, a request sent or (repeatedly, late, half-way) processed by the centre. */
module Accounting {
  import opened Traffic
  import opened Wrappers
  import opened Sampling

  const MAX_BATCH_AGE: int := 7 * 86400
  const MAX_CLOCK_SKEW: int := 120

  datatype Journal = Journal(endpoints: map<Url, Checkpoint>, pending: seq<Batch>)

  /** A file of the spool: cut short somewhere, so that it does not parse; cut short just before
      its final newline, so that it does; or complete. */
  datatype File = Torn | Clipped(batch: Batch) | Whole(batch: Batch)

  /** An online snapshot; `basis` counts the batches journalled when it was built. */
  datatype Snapshot = Snapshot(sequence: nat, basis: nat)

  /** A traffic post, an online post or a combined control cycle. */
  datatype Request = Request(batches: seq<Batch>, snapshot: Option<Snapshot>)

  /** `clipped` are the entries that lack their final newline; `minted` and `lifetimes` are the
      history of the journal. */
  datatype State = State(
    journal: Journal,
    entries: map<BatchId, Batch>,
    clipped: set<BatchId>,
    stages: map<BatchId, File>,
    archive: map<BatchId, Batch>,
    sequence: nat,
    mail: set<Request>,
    applied: set<BatchId>,
    total: UserTraffic,
    accepted: seq<Snapshot>,
    minted: seq<Batch>,
    lifetimes: seq<Sample>)

  const START := State(Journal(map[], []), map[], {}, map[], map[], 0, {}, {}, map[], [], [], [])

  datatype Step =
    | Journalled(samples: seq<Sample>, batches: seq<Batch>)
    | Cleared
    | StageCreated(batch: Batch)
    | StageFilled(batch: Batch)
    | StageClipped(batch: Batch)
    | Promoted(id: BatchId)
    | StageDropped(id: BatchId)
    | Numbered
    | Sent(request: Request, now: int)
    | Delivered(request: Request, count: nat, accept: bool, now: int)
    | Acknowledged(id: BatchId)
    | Archived(id: BatchId, now: int)
    | Retired(id: BatchId)

  // Sums.

  function Ids(batches: seq<Batch>): set<BatchId> {
    set b | b in batches :: b.id
  }

  /** The traffic of the batches whose ids are in the set. */
  function SumIn(batches: seq<Batch>, ids: set<BatchId>, who: Account): nat {
    if batches == [] then 0
    else
      var last := batches[|batches| - 1];
      SumIn(batches[..|batches| - 1], ids, who) + (if last.id in ids then Amount(last.traffic, who) else 0)
  }

  function SumAll(batches: seq<Batch>, who: Account): nat {
    if batches == [] then 0
    else SumAll(batches[..|batches| - 1], who) + Amount(batches[|batches| - 1].traffic, who)
  }

  // The transitions.

  predicate Distinct(batches: seq<Batch>) {
    forall i, j :: 0 <= i < j < |batches| ==> batches[i].id != batches[j].id
  }

  predicate Unexpired(batch: Batch, now: int) {
    batch.observedAt >= now - MAX_BATCH_AGE
  }

  /** The centre's checks on a batch's observation time. */
  predicate Timely(batch: Batch, now: int) {
    now - MAX_BATCH_AGE <= batch.observedAt <= now + MAX_CLOCK_SKEW
  }

  /** An entry's file, byte for byte. */
  function EntryFile(s: State, id: BatchId): File
    requires id in s.entries
  {
    if id in s.clipped then Clipped(s.entries[id]) else Whole(s.entries[id])
  }

  ghost predicate Enabled(s: State, step: Step) {
    match step
    case Journalled(samples, batches) =>
      && s.journal.pending == []
      && AllAcceptable(s.journal.endpoints, s.lifetimes, samples)
      && Distinct(batches)
      && (forall b :: b in batches ==> b.id !in Ids(s.minted))
      && (forall who :: SumAll(batches, who) == Gained(s.journal.endpoints, samples, who))
    case Cleared =>
      forall b :: b in s.journal.pending ==> b.id in s.entries && b.id !in s.clipped
    case StageCreated(b) =>
      b in s.journal.pending && b.id !in s.stages && b.id !in s.entries
    case StageFilled(b) =>
      b in s.journal.pending && b.id in s.stages && s.stages[b.id] == Torn
    case StageClipped(b) =>
      b in s.journal.pending && b.id in s.stages && s.stages[b.id] == Torn
    case Promoted(id) =>
      id in s.stages && !s.stages[id].Torn? && id !in s.entries
    case StageDropped(id) =>
      id in s.stages && (s.stages[id] == Torn || (id in s.entries && s.stages[id] == EntryFile(s, id)))
    case Numbered => true
    case Sent(r, now) =>
      && (forall b :: b in r.batches ==> b.id in s.entries && s.entries[b.id] == b && Unexpired(b, now))
      && (r.snapshot.Some? ==>
            && r.snapshot.value.basis == |s.minted|
            && r.snapshot.value.sequence == s.sequence
            && (forall q :: q in s.mail && q.snapshot.Some? ==> q.snapshot.value.sequence < s.sequence)
            && s.journal.pending == [] && s.stages == map[]
            && forall id :: id in s.entries ==> s.entries[id] in r.batches)
    case Delivered(r, count, accept, now) =>
      && r in s.mail && count <= |r.batches|
      && (forall i :: 0 <= i < count ==> Timely(r.batches[i], now))
      && (accept ==> count == |r.batches| && r.snapshot.Some?)
    case Acknowledged(id) => id in s.entries && id in s.applied
    case Archived(id, now) => id in s.entries && id !in s.clipped && !Unexpired(s.entries[id], now)
    case Retired(id) => id in s.entries && id !in s.clipped && id in s.archive
  }

  /** The centre commits a batch at most once per batch id. */
  function Commit(s: State, batch: Batch): State {
    if batch.id in s.applied then s
    else s.(applied := s.applied + {batch.id}, total := Sum(s.total, batch.traffic))
  }

  function CommitAll(s: State, batches: seq<Batch>): State {
    if batches == [] then s else Commit(CommitAll(s, batches[..|batches| - 1]), batches[|batches| - 1])
  }

  function Apply(s: State, step: Step): State
    requires Enabled(s, step)
  {
    match step
    case Journalled(samples, batches) =>
      s.(journal := Journal(Advance(s.journal.endpoints, samples), batches),
         minted := s.minted + batches,
         lifetimes := RecordAll(s.lifetimes, samples))
    case Cleared => s.(journal := s.journal.(pending := []))
    case StageCreated(b) => s.(stages := s.stages[b.id := Torn])
    case StageFilled(b) => s.(stages := s.stages[b.id := Whole(b)])
    case StageClipped(b) => s.(stages := s.stages[b.id := Clipped(b)])
    case Promoted(id) =>
      s.(stages := s.stages - {id},
         entries := s.entries[id := s.stages[id].batch],
         clipped := if s.stages[id].Clipped? then s.clipped + {id} else s.clipped - {id})
    case StageDropped(id) => s.(stages := s.stages - {id})
    case Numbered => s.(sequence := s.sequence + 1)
    case Sent(r, now) => s.(mail := s.mail + {r})
    case Delivered(r, count, accept, now) =>
      var after := CommitAll(s, r.batches[..count]);
      if accept then after.(accepted := after.accepted + [r.snapshot.value]) else after
    case Acknowledged(id) => s.(entries := s.entries - {id}, clipped := s.clipped - {id})
    case Archived(id, now) => s.(archive := s.archive[id := s.entries[id]])
    case Retired(id) => s.(entries := s.entries - {id}, clipped := s.clipped - {id})
  }

  ghost predicate Possible(s: State, steps: seq<Step>)
    decreases |steps|, 0
  {
    steps != [] ==>
      var before := steps[..|steps| - 1];
      Possible(s, before) && Enabled(After(s, before), steps[|steps| - 1])
  }

  ghost function After(s: State, steps: seq<Step>): State
    requires Possible(s, steps)
    decreases |steps|, 1
  {
    if steps == [] then s else Apply(After(s, steps[..|steps| - 1]), steps[|steps| - 1])
  }

  // The invariant.

  predicate Filed(minted: seq<Batch>, files: map<BatchId, Batch>) {
    forall id :: id in files ==> files[id] in minted && files[id].id == id
  }

  /** Every file and every request holds batches exactly as they were journalled. */
  ghost predicate Genuine(s: State) {
    && Distinct(s.minted)
    && Distinct(s.journal.pending)
    && (forall b :: b in s.journal.pending ==> b in s.minted)
    && Filed(s.minted, s.entries)
    && Filed(s.minted, s.archive)
    && (forall id :: id in s.stages && !s.stages[id].Torn? ==>
          s.stages[id].batch in s.minted && s.stages[id].batch.id == id)
    && (forall r, b :: r in s.mail && b in r.batches ==> b in s.minted)
    && s.applied <= Ids(s.minted)
  }

  predicate Held(s: State, id: BatchId) {
    id in Ids(s.journal.pending) || id in s.entries || id in s.applied || id in s.archive
  }

  /** No journalled batch has been lost. */
  ghost predicate NoneLost(s: State) {
    forall b :: b in s.minted ==> Held(s, b.id)
  }

  ghost predicate Balanced(s: State) {
    && (forall who :: Amount(s.total, who) == SumIn(s.minted, s.applied, who))
    && (forall who :: SumAll(s.minted, who) == Checkpointed(s.lifetimes, who))
    && Linked(s.journal.endpoints, s.lifetimes)
  }

  /** All batches journalled before a snapshot was built are committed, archived, or among the
      batches that the centre must commit before it considers the snapshot. */
  ghost predicate Covered(s: State, basis: nat, others: set<BatchId>) {
    && basis <= |s.minted|
    && forall b :: b in s.minted[..basis] ==> b.id in s.applied || b.id in s.archive || b.id in others
  }

  ghost predicate Barrier(s: State) {
    && (forall r :: r in s.mail && r.snapshot.Some? ==> Covered(s, r.snapshot.value.basis, Ids(r.batches)))
    && (forall p :: p in s.accepted ==> Covered(s, p.basis, {}))
  }

  /** No two requests carry a snapshot with the same sequence number. */
  ghost predicate Sequenced(s: State) {
    && (forall r :: r in s.mail && r.snapshot.Some? ==> r.snapshot.value.sequence <= s.sequence)
    && (forall r, q :: r in s.mail && q in s.mail && r.snapshot.Some? && q.snapshot.Some? ==>
          r.snapshot.value.sequence == q.snapshot.value.sequence ==> r == q)
    && (forall p :: p in s.accepted ==> exists r :: r in s.mail && r.snapshot == Some(p))
  }

  ghost predicate Inv(s: State) {
    Genuine(s) && NoneLost(s) && Balanced(s) && Barrier(s) && Sequenced(s)
  }
}
