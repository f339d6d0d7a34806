# Hysteria2-panel: verified core

A Dafny model of the parts of Hysteria2-panel in which a mistake is hardest to see: traffic
accounting that must count every byte exactly once although processes die and networks lose
replies, a QR code encoder, an all-or-nothing switch of several configuration files, a
hysteresis controller used by concurrent callers, and some exact arithmetic.

## Traffic accounting on a node

Statistics endpoints show running counters per user. A node samples them without clearing
them, writes the new checkpoints together with batches of what was gained into a journal, moves
the batches to a directory (the spool), uploads them, and removes a batch once the centre has
acknowledged it.

- `Traffic`, `Sampling`: counters, differences, readings, checkpoints, and the history of
  service lifetimes that the exactly-once claim refers to.
- `Accounting`: the durable state (journal, entries, staged files, archive), the network and
  the centre as a transition system. A step is the smallest change of one durable thing. Nothing
  volatile is in the state, so every prefix of a run is a possible crash, and every continuation
  a restart. A request stays in the network for ever: the centre may process it late, again, or
  only its first batches.
- `ExactlyOnce`: the invariant of all runs and what follows from it.
- `PowerLoss`: the same system with a journal that survives a power loss only once its directory
  has been synced. The sampled services end with their host, and their counters start again under
  new epochs.
- `NodeProgress`: which errors of the spool can occur, and when a node, wherever it was
  interrupted, can bring everything it holds to the centre.
- `NodeWorld`, `TrafficSpool`, `CumulativeCollector`, `ControlCycle`: the classes of
  `node_agent.py` in their own imperative form. Their only way to change anything durable is
  `World.Perform`, which demands that the step is possible; so whatever their methods do is a run
  of `Accounting`, and the theorems apply to it. An exception is a result `false`, raised at an
  arbitrary point where the source may raise one.
- `TrafficPartition`, `Counting`: how a counter map is cut into batches, byte by byte of its
  JSON form, and why the reservation made before sampling is enough.
- `PanelAccounting`: the panel's own collector, with one merged batch and several processes.
- `KickWindow`: when a KICK_USERS command may be called complete.

Two promises hold only on conditions, and the theorems say which. Traffic that stands in an
unsynced journal only is gone after a power loss (`PowerLoss.ExactlyOnceDespitePowerLoss`). And an
expired entry whose file was cut off just before its final newline can be neither uploaded nor
reconciled; while the journal still lists its batch, collection stops as well
(`NodeProgress.DrainsExactly`).

## The QR encoder

`Bits` and `GaloisField` define the arithmetic from single bits upwards; `ReedSolomon` has the
generator and the division; `GaloisPowers` and `CodeDistance` show how many errors the blocks
tolerate; `QrBlocks` splits and interleaves; `QrMatrix` and `QrCode` place,
mask and choose a mask; `BitStream`, `QrSegments` and `QrEncoder` write segments. For each of
these there is the reader that ISO/IEC 18004:2015 (sections 7.4 to 7.8) describes, and the proof
that it returns what was written. `QrReader` puts the readers together.

## The egress policy

`EgressText` is the rewriting of two kinds of text files. `EgressSwitch` is the switch of all files
together as a transition system: a phase says how far a switch, its rollback or a recovery has
got, and no step asks whether the files are as they should be, except for the test of the state
file with which a recovery begins. `EgressTransaction` is the manager, each of whose writes is one
step of it. `AdaptiveEgress` is the IPv4-only
verdict, and `EgressController` the controller around it, one action for each critical section.

## Small arithmetic

`Decimals`, `GibText`, `BudgetPeriods` and `DomainUsage`.

## What is taken as given

- The centre commits a batch id at most once (its database has the batch id as a key).
- Batch ids are fresh, a started service has an epoch that its endpoint has not shown before, and
  the statistics URLs are distinct (`Sampling.Truthful`).
- Outside `PowerLoss`, a crash is the death of a process: what a rename or an unlink has done stays
  done.
- Digests are injective.
- A process holds its lock while it works on the journal and the spool, so the methods of one
  process do not interleave with those of another.
- The table facts that the QR functions use are parameters with the conditions they need: a
  block shape, room for the codewords, the data capacity of each version and level, the function
  modules, the dots of the format bits, and the penalty as any function of the symbol.

## Model

| member | source | states |
|---|---|---|
| ExactlyOnce.ExactlyOnce | node_agent.py:2711-2780 | After any run, cut off anywhere: for every user and direction, central total plus the traffic that the distinct uncommitted batches in journal, spool and archive hold in these files equals everything ever checkpointed over all endpoints and service epochs |
| ExactlyOnce.FilesAgree | node_agent.py:789-841 | After any run these files can be listed by batch id: no two of them hold different content under one id |
| ExactlyOnce.StepKeeps | node_agent.py:2731-2738 | Every single step, also re-creating an entry that was acknowledged before the journal was cleared, keeps the whole invariant and never takes back a commit |
| ExactlyOnce.RunKeeps | node_agent.py:3258-3326 | So does every run from a state that satisfies the invariant |
| ExactlyOnce.Conserved | node_agent.py:2740-2780 | The conservation law in every state that satisfies the invariant |
| ExactlyOnce.JournalledKeeps | node_agent.py:2740-2780 | Saving checkpoints and batches in one replacement of the journal adds to both sides of the law the same amount |
| ExactlyOnce.FilesKeep | node_agent.py:789-841 | Staging, renaming, discarding, clearing, acknowledging and archiving lose no batch and alter none |
| ExactlyOnce.SentKeeps | node_agent.py:3434-3475 | Sending keeps the invariant, and a snapshot leaves the node only together with all that is neither committed nor archived |
| ExactlyOnce.CommitKeeps | hy2panel/distributed.py:443-458 | Committing a batch again changes nothing; for the first time it adds exactly its traffic |
| ExactlyOnce.DeliveredKeeps | hy2panel/distributed.py:443-476 | A request that is processed only up to some batch, late, or again keeps the invariant and commits those batches; with an accepted snapshot all batches of its request are committed |
| ExactlyOnce.SnapshotBarrier | hy2panel/distributed.py:443-476 | Once a snapshot is accepted, everything checkpointed when the node sent it is in the central total or in the archived files |
| ExactlyOnce.Drained | node_agent.py:3404-3410 | With nothing pending, spooled or archived, central totals equal checkpointed counters |
| PowerLoss.PowerLossCosts | node_agent.py:2711-2738 | After any run with power losses anywhere: central total plus what waits on disk falls short of everything ever checkpointed by exactly the batches that power losses destroyed; nothing is counted twice |
| PowerLoss.GoneMeans | node_agent.py:2711-2729 | Destroyed are exactly the batches that, just before some power loss, stood in the journal not yet synced, in no file, and were not committed |
| PowerLoss.ExactlyOnceDespitePowerLoss | node_agent.py:2711-2738 | So the exactly-once law holds after such a run if and only if no destroyed batch carried traffic |
| PowerLoss.DisksAgree | node_agent.py:2711-2738 | What waits and what is destroyed can be listed, with one content under each id |
| PowerLoss.EventKeeps | node_agent.py:2653-2738 | Every step, every sync and every power loss keeps the invariant |
| PowerLoss.ByteLost | node_agent.py:2723-2729 | The loss is real: one byte is checkpointed, power is lost before the directory is synced, and the byte is neither counted nor on disk |
| NodeProgress.StagesNeverConflict | node_agent.py:657-664 | In no reachable state does a staged file meet an entry of its name, so the conflict error of the recovery never occurs |
| NodeProgress.EntriesConflict | node_agent.py:794-803 | A batch to be persisted that finds a file under its name finds its own content; the conflict error occurs exactly if that file lacks its final newline |
| NodeProgress.DrainsExactly | node_agent.py:777-914 | From any reachable state, at any time: an undisturbed run can empty the node and end with an accepted snapshot covering everything if and only if the centre takes the observation time of every batch on the node; with the operator archiving, if and only if all others are expired and none of these lies in a file without its final newline |
| NodeProgress.DrainedMeans | node_agent.py:3404-3432 | After such a run central total plus archived files is everything ever checkpointed, and nothing was archived unless by hand |
| NodeProgress.Remains | node_agent.py:3276-3280 | In every undisturbed run a batch that cannot be moved stays on the node |
| NodeProgress.StuckForGood | node_agent.py:884-895 | A node whose only entry lacks its final newline and is more than seven days old cannot be emptied, not even by hand |
| Sampling.SamplesBalance | node_agent.py:2747-2775 | Checkpointing any samples, with restarts of services among them, adds to the history exactly what they gained |
| Sampling.TakenAcceptable | node_agent.py:2747-2763 | A usable reading continues its checkpoint or starts a lifetime that was never recorded |
| Sampling.TakenAll | node_agent.py:2747-2780 | If no endpoint failed, each of them is checkpointed at what it answered |
| Traffic.DeltaAmount | node_agent.py:2753-2760 | Checkpoint plus difference is the new counter, for every user and direction |
| NodeWorld.World.Post | node_agent.py:3258-3274 | A reply means that all batches of the request are committed and its snapshot is accepted; no reply means nothing |
| TrafficSpool.SpoolRun | node_agent.py:789-841 | However often persisting a list is interrupted and retried, no entry changes or vanishes, and a new entry is a batch of the list or was complete before |
| TrafficSpool.Spool.RecoverStagedEntries | node_agent.py:635-669 | Discards only incomplete stages and duplicates, promotes complete ones, and leaves no stage if it succeeds |
| TrafficSpool.Spool.PersistCollections | node_agent.py:789-841 | On success every batch of the list is a complete entry with its own content and no stage is left; otherwise only entries and stages of the list were added |
| TrafficSpool.Spool.StageAll | node_agent.py:812-829 | On success there is exactly one complete stage for each missing batch; after a failure every stage that parses holds one of them |
| TrafficSpool.Spool.PromoteAll | node_agent.py:830-840 | On success all stages became entries; after a failure each batch is either still staged or a complete entry, and nothing else happened |
| TrafficSpool.Spool.Pending | node_agent.py:857-882 | Returns every entry once, by observation time, then file time, then name |
| TrafficSpool.Sorted | node_agent.py:881-882 | The listing is in that order, complete and without repetition |
| TrafficSpool.Spool.Reconcile | node_agent.py:884-895 | Only the named entry can leave the spool, only if it is expired, and only into the archive, also when an error is reported |
| TrafficSpool.Spool.Ack | node_agent.py:897-914 | Removes that one entry, or none if it fails |
| CumulativeCollector.Collector.Save | node_agent.py:2711-2729 | The journal is replaced as a whole or not at all, also when an error is reported |
| CumulativeCollector.Collector.Recover | node_agent.py:2731-2738 | Pending batches leave the journal only when every one of them is an entry with its own content, also when an error is reported |
| CumulativeCollector.Collector.Collect | node_agent.py:2740-2780 | Checkpoints advance as the usable readings say or not at all; success means that every endpoint advanced and nothing is pending; with batches still pending nothing is sampled |
| CumulativeCollector.SampleAll | node_agent.py:2747-2763 | The collections sum up to what the samples gained; a failing endpoint is passed over and reported |
| CumulativeCollector.Prepare | node_agent.py:777-787 | Batches with distinct fresh ids that sum up to the collections |
| ControlCycle.Cycle.UploadPending | node_agent.py:3258-3274 | An entry leaves the spool only if it was committed; success means that the spool is empty |
| ControlCycle.Cycle.UploadablePending | node_agent.py:3276-3280 | Exactly the unexpired entries, and whether there is an expired one |
| ControlCycle.Cycle.Young | node_agent.py:3276-3280 | Keeps exactly the unexpired batches and tells whether any was dropped |
| ControlCycle.Cycle.CollectToSpool | node_agent.py:3315-3326 | Also its error handler, which uploads, performs only possible steps; success leaves nothing pending, with every endpoint checkpointed at its answer |
| ControlCycle.Cycle.FlushTraffic | node_agent.py:3404-3410 | Success leaves journal, stages and spool empty, with every endpoint checkpointed at its answer |
| ControlCycle.Cycle.RefreshSnapshot | node_agent.py:3412-3432 | Success means that the centre accepted a snapshot covering all that was journalled, with nothing left on the node |
| ControlCycle.Cycle.RunCombined | node_agent.py:3434-3511 | A cycle without error leaves an accepted snapshot covering all that was journalled, unless entries remain in the spool |
| ControlCycle.Cycle.Attach | node_agent.py:3454-3474 | The request carries a snapshot exactly if all entries were selected and it fits beside them |
| ControlCycle.Cycle.Select | node_agent.py:3442-3453 | The batches up to the first that would exceed the payload budget, and at most eight |
| ControlCycle.Cycle.AckAll | node_agent.py:3478-3484 | Removes exactly the entries of the answered request |
| ControlCycle.Cycle.LegacyControl | node_agent.py:3513-3530 | With an older panel, a round without error leaves an empty spool and an accepted snapshot covering all that was journalled |
| TrafficPartition.Partition | node_agent.py:695-733 | Valid counters, and only they, are cut into groups that concatenate to the input, each within 1000 users and 240 KiB, none of which could have taken the next entry |
| TrafficPartition.EntryBounds | node_agent.py:516-534 | The JSON size of a valid entry is between 19 and 438 bytes |
| TrafficPartition.ClosedWeight | node_agent.py:671-688 | A group that was closed for either limit carries at least 20,000 bytes |
| TrafficPartition.GroupsWeight | node_agent.py:671-688 | So n groups need a response of at least 20,000 (n - 1) bytes |
| TrafficPartition.OneEndpoint | node_agent.py:671-688 | One response of at most n bytes stays within the entries and bytes reserved for n |
| TrafficPartition.ReservationSuffices | node_agent.py:671-688 | If `can_collect(n)` held, the spool accepts what is made of the responses of one or of two endpoints that total at most n bytes |
| Counting.Partition | node_agent.py:695-733 | Batches with fresh ids, each within 1000 users and 240 KiB, that carry exactly the counter map |
| Counting.ListedAmount | node_agent.py:695-733 | With distinct names, what the entries list for a user is what the map holds |
| PanelAccounting.PanelExactlyOnce | hy2panel/accounting.py:127-179 | Whichever process did what and wherever any of them died: applied totals plus the unapplied pending batch equal everything checkpointed |
| PanelAccounting.EntryKeeps | hy2panel/accounting.py:127-179 | Sampling, applying (also again) and clearing each keep that law |
| PanelAccounting.LocalCollector.Recover | hy2panel/accounting.py:127-139 | Success means that the pending batch is in the database and gone from the journal; the receipt names the process's own batch only |
| PanelAccounting.LocalCollector.Collect | hy2panel/accounting.py:141-179 | Checkpoints advance by the usable readings or not at all; success means that all advanced and nothing is pending |
| PanelAccounting.SampleMerged | hy2panel/accounting.py:144-167 | The merged map sums up to what the samples gained |
| PanelAccounting.MergeDelta | hy2panel/accounting.py:158-164 | Adding name by name gives the sum of the merged map and the difference |
| KickWindow.QuietWindow | node_agent.py:3572-3592 | A kick is recorded complete only if, in one process lifetime, two observations at least 10 s apart found all targets offline with no other finding between them |
| KickWindow.MarksStand | node_agent.py:3572-3592 | Every mark in the table is the time of an offline observation since which nothing contradicted it |
| KickWindow.Bounded | node_agent.py:3581-3586 | The table never exceeds 4096 marks |
| KickWindow.Table.Observe | node_agent.py:3558-3592 | The table after an execution, and completion only at the end of a quiet window |
| GaloisField.Multiply | qrcodegen.py:555-566 | The shift-and-reduce loop computes the field product, and refuses arguments over 255 |
| GaloisField.Distributes | qrcodegen.py:555-566 | Multiplication distributes over addition |
| GaloisField.Commutative | qrcodegen.py:555-566 | Multiplication is commutative |
| GaloisField.Associative | qrcodegen.py:555-566 | Multiplication is associative |
| GaloisField.One | qrcodegen.py:555-566 | One is neutral on both sides |
| ReedSolomon.ComputeDivisor | qrcodegen.py:519-540 | For every degree 1..255, and no other, the loop returns the coefficients of (x - 2^0) ... (x - 2^(degree-1)) below the leading one |
| ReedSolomon.GeneratorRoots | qrcodegen.py:519-540 | That polynomial vanishes at 2^0 .. 2^(degree-1) |
| ReedSolomon.ComputeRemainder | qrcodegen.py:543-551 | The shift register computes the division's remainder, for data of any length |
| ReedSolomon.Division | qrcodegen.py:543-551 | Data followed by the remainder is a multiple of the generator |
| ReedSolomon.RemainderUnique | qrcodegen.py:543-551 | And no other remainder makes it one |
| ReedSolomon.EvalProduct | qrcodegen.py:543-551 | The value of a product of polynomials is the product of the values |
| ReedSolomon.CodewordRoots | qrcodegen.py:519-551 | Data of any length followed by its remainder vanishes at 2^0 .. 2^(degree-1) |
| GaloisPowers.OrderOfTwo | qrcodegen.py:528-538 | 2 is a generator of the field as the source says: no power below the 255th is 1 |
| GaloisPowers.AllPowers | qrcodegen.py:528-538 | Every nonzero element is a power of 2 |
| GaloisPowers.NoZeroDivisors | qrcodegen.py:555-566 | A product is zero only if a factor is |
| CodeDistance.Independent | qrcodegen.py:519-551 | Terms at distinct places with as many vanishing syndromes as terms are all zero |
| CodeDistance.MinimumDistance | qrcodegen.py:519-551 | Different words of at most 255 places that vanish at 2^0 .. 2^(n-1) differ in more than n places |
| CodeDistance.BlocksApart | qrcodegen.py:352-362 | Blocks of different data differ in more places than they have error correction codewords |
| CodeDistance.ErrorsTolerated | qrcodegen.py:652-656 | With at most half as many wrong codewords as error correction codewords, only one data can have been encoded |
| QrBlocks.AddEccAndInterleave | qrcodegen.py:339-373 | De-interleaving the result gives each block's part of the data followed by its own remainder |
| QrBlocks.Interleave | qrcodegen.py:366-373 | The nested loops store the blocks row by row without the padding of short blocks |
| QrBlocks.RowsAt | qrcodegen.py:366-373 | Where every byte of every block lands |
| QrBlocks.RecoversAll | qrcodegen.py:339-373 | All blocks are recovered and the parts make up the data |
| QrBlocks.CodeLength | qrcodegen.py:366-373 | Interleaving yields exactly the raw number of codewords |
| QrBlocks.DataLengthTotal | qrcodegen.py:343-363 | The blocks take exactly the data length that the source asserts |
| QrMatrix.ScanCovers | qrcodegen.py:380-397 | The zigzag visits a module if and only if it is outside column 6 |
| QrMatrix.ScanDistinct | qrcodegen.py:380-397 | And no module twice |
| QrMatrix.PaintedAt | qrcodegen.py:380-397 | A drawn module keeps its bit while others are drawn |
| QrMatrix.MaskCancels | qrcodegen.py:399-410 | Applying a mask twice restores the symbol |
| QrCode.Symbol.DrawCodewords | qrcodegen.py:376-397 | The loops draw the codewords' bits on the data modules in zigzag order and nothing else |
| QrCode.Symbol.ApplyMask | qrcodegen.py:399-410 | Inverts exactly the data modules of the mask's pattern; function modules stay |
| QrCode.Symbol.ChooseMask | qrcodegen.py:183-202 | The symbol becomes the one of the wanted mask; without a wish, of the first mask whose finished symbol has the least penalty of all eight, and the trials left no trace |
| QrCode.Symbol.LeastPenalty | qrcodegen.py:185-197 | The loop of eight trials finds that mask and restores all data modules |
| QrCode.Symbol.TryMask | qrcodegen.py:188-196 | A trial scores the very symbol that this mask would finally give, and leaves a difference only under the format bits |
| QrCode.CandidateSame | qrcodegen.py:188-202 | Which format bits earlier trials left behind makes no difference to the symbol of a mask |
| QrCode.TrialCancels | qrcodegen.py:188-196 | Mask, format bits and the same mask again leave the data modules as they were |
| QrCode.ReadsBack | qrcodegen.py:376-410 | Undoing the mask and scanning returns the codewords |
| QrCode.Symbol.Encode | qrcodegen.py:163-204 | From the finished symbol a reader recovers every block's data and error correction |
| BitStream.PackUnpack | qrcodegen.py:126-129 | Packing the bits of bytes gives the bytes |
| BitStream.UnpackPack | qrcodegen.py:126-129 | And unpacking packed bits gives the bits |
| QrSegments.DigitsBack | qrcodegen.py:687-698 | Reading a numeric segment returns its digits, for any length |
| QrSegments.LettersBack | qrcodegen.py:701-714 | Reading an alphanumeric segment returns its text |
| QrSegments.RawBack | qrcodegen.py:676-683 | Reading a byte segment returns its bytes |
| QrSegments.DesignatorBack | qrcodegen.py:734-752 | Reading an ECI segment returns its value, over all three lengths |
| QrSegments.StreamRoundTrip | qrcodegen.py:105-117 | Decoding a stream of any segments, followed by any legal end, returns the contents |
| QrEncoder.BitBuffer.AppendBits | qrcodegen.py:883-888 | Appends the value's bits, high bit first, or refuses and changes nothing |
| QrEncoder.MakeNumeric | qrcodegen.py:687-698 | The loop builds the encoding of digit strings and refuses all others |
| QrEncoder.MakeAlphanumeric | qrcodegen.py:701-714 | The loop builds the encoding of alphanumeric texts and refuses all others |
| QrEncoder.MakeBytes | qrcodegen.py:676-683 | The loop builds the encoding of the bytes |
| QrEncoder.MakeEci | qrcodegen.py:734-752 | Builds the designator for 0..999999 and refuses all others |
| QrEncoder.GetTotalBits | qrcodegen.py:813-823 | The loop adds up the lengths, or reports a count that does not fit its field |
| QrEncoder.TotalBitsExact | qrcodegen.py:813-823 | That number is the length of the stream that is written |
| QrEncoder.SelectVersion | qrcodegen.py:87-98 | The first version of the range that fits, or none only if none fits |
| QrEncoder.BoostLevel | qrcodegen.py:100-103 | Boosting never lowers the level and stops at the highest that fits |
| QrEncoder.WriteCodewords | qrcodegen.py:105-129 | The stream, a terminator, zeros to the byte boundary and 0xEC 0x11 in turn fill the capacity exactly |
| QrEncoder.EncodeSegments | qrcodegen.py:73-132 | All of the above for the chosen version and level, and when each error is raised |
| QrEncoder.CodewordsRoundTrip | qrcodegen.py:73-132 | Decoding the codewords returns the contents |
| QrReader.BlocksBack | qrcodegen.py:339-373 | The data of the de-interleaved blocks is the data, and every block vanishes at all roots of the generator |
| QrReader.ContentsBack | qrcodegen.py:73-132 | A reader that recovers the codewords written for some contents decodes exactly these contents |
| QrReader.EncodeSymbol | qrcodegen.py:73-204 | The whole of `encode_segments`: reading the finished, masked symbol (unmask, scan, de-interleave, decode) returns the contents, for all versions, levels and masks; the version is the smallest that fits, and the level boosted |
| QrReader.DamageTolerated | qrcodegen.py:339-373 | However a symbol's codewords are damaged: if in every block at most half as many are wrong as it has for error correction, no symbol with other contents is as near |
| EgressText.LayoutKept | hy2panel/operations.py:575-594 | A rewritten text still has a valid layout, at the same place |
| EgressText.OutsideKept | hy2panel/operations.py:588-594 | In the rewritten text's own layout, all before the acl line and all from the masquerade line on is what it was |
| EgressText.RewriteOverrides | hy2panel/operations.py:575-594 | A second rewrite overrides the first |
| EgressText.RewriteRefused | hy2panel/operations.py:575-594 | Rewriting is refused exactly for an invalid layout or port |
| EgressText.ReadsBack | hy2panel/operations.py:596-603 | Reading a rewritten text gives the written policy, for both policies and every port |
| EgressText.ReadsOnlyWritten | hy2panel/operations.py:596-603 | A text reads as a policy if and only if writing that policy into some text gave it |
| EgressText.PoliciesDiffer | hy2panel/operations.py:543-572 | The blocks of the two policies differ for every port |
| EgressText.PolicyReadsBack | hy2panel/operations.py:530-540 | Reading a rewritten environment gives the written policy, at the same place |
| EgressText.PolicyOverrides | hy2panel/operations.py:530-540 | A second rewrite of the environment overrides the first |
| EgressSwitch.StepMeans | hy2panel/operations.py:777-880 | Each write in its place keeps what the phase says of the files; whichever phase removes the record, all files are then originals or all targets |
| EgressSwitch.AllOrNothing | hy2panel/operations.py:823-880 | Through any failures and crashes of a switch, its rollback and recoveries: each file is an original or a target, once the record is gone all are one or all the other with the state file describing exactly them, and no other file is touched |
| EgressSwitch.CompletedRecovery | hy2panel/operations.py:777-794 | Whatever happened to the switch, its rollback and earlier recoveries, a completed recovery leaves all originals or all targets and no record; the targets only if it found them complete |
| EgressSwitch.RecoveryCompletes | hy2panel/operations.py:777-794 | A recovery that has begun, whatever files it found, completes if nothing disturbs it |
| EgressSwitch.AlwaysConsistent | hy2panel/operations.py:777-880 | Over any number of switches: without a record, the state file describes the files in place |
| EgressTransaction.Manager.Recover | hy2panel/operations.py:777-794 | Commits a completed switch without touching a file, otherwise restores all originals; if interrupted the record stays; files outside the record never change |
| EgressTransaction.Manager.Switch | hy2panel/operations.py:823-880 | Success puts the policy in force in every file; a reported rollback restored every file; a failed rollback leaves the record; a refusal changes nothing beyond recovering an earlier switch |
| EgressTransaction.Manager.Attempt | hy2panel/operations.py:852-880 | Forward completely or back completely, else the record stays |
| EgressTransaction.Manager.Complete | hy2panel/operations.py:852-861 | Success means all files of the course, their state file and no record; a failure keeps the record |
| EgressTransaction.RewrittenInForce | hy2panel/operations.py:838-847 | The target contents say the policy, each read by its own reader |
| AdaptiveEgress.Counted | native/adaptive_egress/adaptive/state.go:36-62 | IPv4-only implies verified, and the counter is the current run of IPv6 successes, capped at three |
| AdaptiveEgress.InconclusiveKeeps | native/adaptive_egress/adaptive/state.go:48-60 | Samples that reached neither family, and resets, change no verdict |
| AdaptiveEgress.EpisodeLasts | native/adaptive_egress/adaptive/state.go:36-62 | Every IPv4-only episode lasts at least ten minutes and ends with three IPv6 successes since the last reset |
| AdaptiveEgress.ExitNeeds | native/adaptive_egress/adaptive/state.go:37-47 | Also an episode restored from disk is left only so |
| AdaptiveEgress.ExitsApart | native/adaptive_egress/adaptive/state.go:36-62 | Two exits from IPv4-only are at least ten minutes apart |
| EgressController.Interleaving | native/adaptive_egress/adaptive/state.go:102-204 | Over every interleaving of the critical sections at most one probe is in flight |
| EgressController.OnlyFreshResults | native/adaptive_egress/adaptive/state.go:170-201 | A result is used only if its probe started after the last invalidation and the controller is open; a cached answer rests on such a probe; an unused result changes nothing |
| EgressController.VerdictOfHistory | native/adaptive_egress/adaptive/state.go:102-204 | Over every interleaving the verdict is that of the used results and resets alone, in their order |
| EgressController.EpisodesLast | native/adaptive_egress/adaptive/state.go:36-204 | Over every interleaving an IPv4-only episode begins and ends with used results at least ten minutes apart, the last being the third IPv6 success in a row since a reset |
| EgressController.ExitsStayApart | native/adaptive_egress/adaptive/state.go:36-204 | Over every interleaving in ordered time, two exits from IPv4-only are at least ten minutes apart |
| EgressController.StaleForever | native/adaptive_egress/adaptive/state.go:102-197 | An invalidation or closing reaches the probe in flight: its result is not used, whatever happens before it ends |
| EgressController.NextKeeps | native/adaptive_egress/adaptive/state.go:102-204 | Every critical section keeps the invariant |
| EgressController.Controller.CheckSection | native/adaptive_egress/adaptive/state.go:127-178 | The section before a probe: wait, answer from the cache, or take the flight |
| EgressController.Controller.FinishSection | native/adaptive_egress/adaptive/state.go:188-203 | The section after a probe: use or drop the result, free the flight |
| EgressController.Controller.InvalidateSection | native/adaptive_egress/adaptive/state.go:102-108 | A new epoch, due for a probe, count reset |
| EgressController.Controller.InvalidateAllSection | native/adaptive_egress/adaptive/state.go:19 | A new process-wide revision |
| EgressController.Controller.CloseSection | native/adaptive_egress/adaptive/state.go:110-116 | Closed, in a new epoch |
| DomainUsage.DeltasTelescope | hy2panel/domain_usage.py:86-134 | Over any run with failing endpoints, what is reported for a user and domain never exceeds last-seen value minus baseline summed over its streams, and equals it if no report was cut short |
| DomainUsage.RoundTelescopes | hy2panel/domain_usage.py:86-129 | One round's totals are what the streams gained since they were last seen |
| DomainUsage.DumpTelescopes | hy2panel/domain_usage.py:93-122 | So for one dump, of an initialized endpoint or not |
| DomainUsage.DomainStreamAccumulator.CollectDump | hy2panel/domain_usage.py:93-122 | The loop over one dump |
| DomainUsage.DomainStreamAccumulator.Collect | hy2panel/domain_usage.py:86-134 | The new memory, in which a failing endpoint keeps its place, and the ranked totals |
| DomainUsage.Report | hy2panel/domain_usage.py:130-134 | The records are the totals, ordered by volume, user and domain, cut after the largest |
| BudgetPeriods.PeriodsTile | hy2panel/budgets.py:48-60 | An instant lies in its period, all instants of a period get the same one, and where it ends the next begins |
| BudgetPeriods.PeriodExists | hy2panel/budgets.py:41-60 | There is a period exactly from the first reset of year 1 to the last of year 9999 |
| BudgetPeriods.ComparesInstants | hy2panel/budgets.py:52 | Comparing datetimes field by field compares instants |
| BudgetPeriods.DateTimeRoundTrip | hy2panel/budgets.py:49 | Every datetime is read back from its timestamp |
| BudgetPeriods.TimestampRoundTrip | hy2panel/budgets.py:49 | And every timestamp in range from its datetime |
| BudgetPeriods.YearStart | hy2panel/budgets.py:41-45 | The month lengths add up to the calendar's closed form |
| BudgetPeriods.EpochDay | hy2panel/budgets.py:49 | 1970-01-01, where timestamps count from, is that many days after 0001-01-01 |
| GibText.GibRoundTrip | hy2panel/budgets.py:19-38 | Every byte count up to 2^63-1 is read back exactly from its printed text, despite two roundings |
| GibText.PrintedMatches | hy2panel/budgets.py:34-38 | The printed text has the accepted form |
| GibText.ReadMeans | hy2panel/budgets.py:19-31 | What is read is in range and the half-up rounding of the text's number |
| GibText.NegativeShownAsNone | hy2panel/budgets.py:34-38 | A negative count is printed so that it reads as zero |
| Decimals.DecimalReads | hy2panel/budgets.py:34-38 | Reading a written number returns it, and no leading zero is written |
| Decimals.PaddedReads | hy2panel/budgets.py:34-38 | Reading a zero-padded number returns it |

## Left out

- PowerLoss.PowerLossCosts: only the journal can fall back; files of the spool that a power loss
  removes or brings back are not modelled.
- NodeProgress.DrainsExactly: room in the spool and on the disk is given, the run takes place at one
  time, and that the centre answers is part of "undisturbed".
- Domain records in batches, and their partition: they travel with the traffic and have no balance
  of their own beyond `DomainUsage`.
- The clearing collector behind `--legacy-traffic`, with its one unpersisted collection.
- `quiesce_traffic` and the data plane commands; only KICK_USERS is modelled.
- ControlCycle.Cycle.RefreshSnapshot: the age of the last traffic ACK is an arbitrary reason to refuse.
- ControlCycle.Cycle.RunCombined: the encoded size of a request is any function of its batches and snapshot.
- TrafficSpool.Spool.PersistCollections: entry count is exact, but the byte and disk limits of a
  persist are arbitrary reasons to refuse.
- TrafficSpool.Spool.Reconcile: the archive is a spool of its own; persisting one batch into it is one step.
- Owners, modes, links and malformed contents of files: a file is absent, cut short so that it does
  not parse, cut short before its final newline only, or complete.
- Signatures, nonces, leases and rate limits of the node protocol, and which users the centre knows.
- Retention of batch ids at the centre, which is longer than the window in which it accepts a batch.
- The maintenance journal hand-off, health levels and metrics around a control cycle.
- QrCode.Symbol.Encode: function patterns, format and version bits, alignment positions and the
  penalty rule are parameters, as are the capacity and block tables: they are finite over 40 versions.
- QrSegments.StreamRoundTrip: Kanji segments, which this encoder never makes, have no reader.
- Text as characters: UTF-8 decoding and its error are not modelled, nor are `encode_text` and
  `make_segments`, which choose a mode.
- EgressTransaction.Manager.Switch: removing the record is one atomic step. In the source a failing
  directory fsync after the unlink would start the rollback without a record.
- EgressTransaction.Manager.Complete: restarting services is only a reason to fail.
- EgressSwitch: a digest stands for its content, base64 and JSON are not modelled, and a
  missing secondary configuration is a missing file.
- EgressController: the background loop, which only calls `check`, and the file in which a verdict
  is kept; a restored verdict is any that the source accepts. `InvalidateAll` takes no lock; since a
  section reads the revision once, its place among the sections is at that reading.
- DomainUsage.DeltasTelescope: assumes that a stream that has disappeared does not come back, that
  a stream keeps its user and destination, and that its counters do not decrease.
  `normalize_destination` (IDNA, IP literals) is a given classification of streams.
- GibText.GibRoundTrip: exact rational arithmetic; the 28 digits of Python's decimal context are more
  than either rounding needs.
- BudgetPeriods: `budget_result` and `budget_forecast`, single formulas without state.
- Dashboard, mobile projections, enrollment, canaries, release download, backup delivery.
