# Verification of the OPinit bots

A Dafny model of the parts of the OPinit bots that have to survive crashes, retries and restarts, with proofs over all
inputs and all runs. `dafny verify dfyconfig.toml` checks everything.

## What is modelled

**Withdrawal trees.** `MerkleSpec` defines the plain recursive Merkle root over an abstract node function. `MerkleTree`
is the incremental tree that keeps one sibling per height, and `MerkleProofs` the flat node table and the proofs read
back from it. The fast form refines the recursive one for every number of leaves, and every leaf of every finalized tree
proves, whatever the node table held before.

**The executor's and the challenger's child.** `ChildTables` holds the tables, the staged writes and the history of
working trees they share. `ExecutorChild` and `ChallengerChild` are the begin-block, withdrawal and end-block handlers.
`ExecutorRuns` and `ChallengerRuns` interleave them with aborted attempts, restarts, height resets and L1 progress.
`ExecutorTheorems` and `OutputChallenges` state what follows: no "must not happen" panic is reachable, recorded outputs
are replayed and never proposed again, and an output is challenged exactly if it is not honest. `ExecutorOutputs` says
when a tree closes and what is proposed then, in terms of block and L1 times only. `WithdrawalProofs` says
what `GetProofs` answers in every state of every run, also over entries that a start from genesis leaves behind;
`GenesisReset` is a run in which such an entry hides a proof. `L1Outputs` and `HostQuery` are the outputs on L1 and the
binary search for the boundary to start from.

**The broadcaster.** `Broadcaster` is the object with its two tables, its queue and its account sequences.
`BroadcasterRuns` cuts the broadcast loop and the tx checker at their commits and mutexes into steps that interleave
freely, with restarts anywhere. `BroadcasterTheorems` states durability and the mirror between queue and table,
`BroadcasterFates` why a batch leaves them and what a restart brings back, `BroadcasterOrder` the order of sequences and
the exact conditions of the two rules that can break it.

**Pending events.** `ChallengerEvents` is the event handler and the end-of-block pass of the challenger's child.
`ChallengerEventRuns` and `ChallengerEventTheorems` follow the events from the host's registration to their settlement
or report.

**Batches.** `BatchCodec` is the message format, `BatchPipeline` the way from blocks to messages and back, `BatchRuns`
the submitter over whole runs, with what is stored kept apart from what is in memory: which published batches hold exactly
the blocks of their range, where batching begins for a destination, and when the batches together hold every block once.

**The store.** `ByteOrder` and `Keys` are the key encodings, `Store` the ordered store with its iterators, `Stage` the
staged writes, `Tables` the scans that delete what lies ahead of a height reset, `WithdrawalPages` the paged listing of
an address's withdrawals.

## Hypotheses

- The node function is commutative where a proof is recomputed (the contract stated at `merkle/merkle.go:13-16`); the
  output-root function and the withdrawal hash are arbitrary functions.
- L2 withdrawal sequences are consecutive and L2 blocks do not change; L1 output block numbers increase.
- L1 accepts the executor's own proposals only, in index order. After a height reset no proposal that was in flight
  before it lands later: a reset empties the table of proposals, as `ResetHeights` does (`executor/db.go:21-34`).
  `ResetHeight` for the child alone (`executor/db.go:36-56`) leaves the host's table, where the proposals are stored, and
  is outside the model.
- A working tree stored for an output boundary is the one closed there.
- Timestamps used as keys are distinct among the entries present, and a batch is identified by its messages.
- A transaction's messages are recovered unchanged from the built transaction.
- The host registers event ids that are not pending (sequences, output indexes and L1 heights are new).
- gzip and SHA-256 are functions of which only this is used: reading concatenated members gives the concatenated
  contents, and a checksum has 32 bytes.
- Everything stored under an address's prefix is an index entry of that address. Addresses do not contain the splitter.
- Counters are unbounded; keys and codecs are for numbers below 2^64.

## Where the code differs from what one might expect

- A process started at an output boundary with `disable_delete_future_withdrawal` panics at its first block exactly if no
  working tree is stored for the boundary (`FirstBlockPanics`).
- A start from genesis keeps the finalized-tree table. Right after it the old trees are found and fail
  (`ResetUnfinalizes`, `StaleTreeFails`). After the replay a finalized sequence is answered from its tree if and only if no
  entry left behind lies between the start of the tree and the sequence (`RunProofs`). Entries whose output L1 has are
  recreated identically and never hide anything (`RunRecreates`, `RunProves`); a start from genesis leaves others behind
  exactly if some finalized tree has no output on L1 (`StepAccountedIff`), and `GenesisShadows` is a run in which such an
  entry makes a proof unreadable.
- A close moves the deadline of the next output in memory before the commit. If the commit fails, the attempts that follow
  at the same block leave the tree open, until a restart (`RunFailedCloseWaits`).
- A sequence mismatch reporting another sequence than the transaction was signed with can bring a pending sequence into
  use again; `StepOrderIff` says exactly when, `MismatchReusesSequence` is an instance.
- `RemovePendingTxsUntil` does not look at the sender. With one sender it is exact; with several it is exact if and only
  if no other sender's tx interferes (`TruncatesExactlyIff`), and a run that loses a batch exists (`TwoSendersLoseTx`).
- `CheckTimeout` marks events in memory before the commit. After a failed attempt the report is lost until a restart;
  `UnreportedIff` and `RunMarkedIff` say exactly when, `FailedAttemptSilences` is an instance. The host's handler holds
  the same `Output` object as the child's, so its own deadline marks it there as well (the `HostMarks` step).
- A block retried after it was written to an open batch is in the batch twice (`RetryDuplicates`). Starting over rewinds
  the height in memory only, so a process stopped before the next commit goes on where it had been, and blocks are missing
  from the batch (`RestartLosesBlocks`). `RunWholeIff` and `RunIntactIff` say exactly which published batches hold the
  blocks of their range.
- A file found corrupted right after a batch was published takes the next batch back to the start of the last one
  (`StartOverOverlaps`). The ranges survive everything else (`StepRangesIff`, `RunRanges`).
- A stage used with another database's prefix looks up unstaged keys under its parent's own prefix, and a staged delete
  reads as a nil value (`OwnReads`, `ForeignReads`).
- `SeekPrevInclusiveKey` returns no key and no error if there are keys but none at or before the one sought.
- The error texts of the batch decoders ask for more than 25, 33 and 17 bytes; the code accepts exactly that many.
- The batch decoders do not look at the type byte.

## Model

| member | source | states |
|---|---|---|
| MerkleTree.Merkle.InitializeWorkingTree | merkle/merkle.go:60-74 | an index or start of 0 is refused and changes nothing; otherwise an empty tree is started |
| MerkleTree.Merkle.PrepareWorkingTree | merkle/merkle.go:112-122 | the next version continues the tree, or starts the next index right after the last leaf if the tree was done |
| MerkleTree.Merkle.Height | merkle/merkle.go:131-141 | the least height whose perfect tree holds the leaves, and 1 for a single leaf |
| MerkleTree.Merkle.InsertLeaf | merkle/merkle.go:184-215 | the loop over the heights computes the recursive climb that InsertRefines relates to the Merkle root |
| MerkleTree.Merkle.FillLeaves | merkle/merkle.go:152-179 | padding repeats the last leaf up to the next power of two and restores the leaf count |
| MerkleTree.Merkle.FinalizeWorkingTree | merkle/merkle.go:77-107 | an empty tree gets the empty root and no entry, any other the root FinalizeRefines identifies |
| MerkleTree.ClimbRefines | merkle/merkle.go:190-210 | from any height on, the climb leaves in each height the recursive root of its last complete block |
| MerkleTree.InsertRefines | merkle/merkle.go:184-215 | one insert keeps the frontier and creates exactly the nodes whose block the leaf completes |
| MerkleTree.InsertAllRefines | merkle/merkle.go:184-215 | after any number of inserts each height holds the recursive root of its last complete block; nodes are created once each |
| MerkleTree.FinalizeRefines | merkle/merkle.go:77-107 | finalizing n leaves returns the recursive root of the leaves padded with the last one, emits every missing node and keeps the count |
| MerkleTree.InsertAllFrame | merkle/merkle.go:184-215 | inserting leaves changes the siblings and the count and nothing else |
| MerkleProofs.SaveNodesStores | merkle/db.go:116-124 | saving the created nodes stores the tree over any old contents and touches no other tree |
| MerkleProofs.GetProofs | merkle/db.go:132-172 | the loop over heights answers with the siblings of the leaf, an unfinalized tree, or an error, as the table says |
| MerkleProofs.SiblingsRecompute | merkle/db.go:152-169 | in a stored perfect tree no sibling read fails and hashing upwards gives the root |
| MerkleProofs.LeafProves | merkle/db.go:152-171 | every leaf of a stored tree has a proof of exactly the tree height that recomputes the stored root |
| MerkleProofs.BuiltTreeProves | merkle/merkle.go:77-215 | a tree built leaf by leaf and finalized over an arbitrary node table proves every leaf against the returned root |
| MerkleProofs.AnswersProof | merkle/db.go:132-150 | a leaf index inside the tree found for it is answered from that tree |
| ChildTables.AtOk | executor/child/withdraw.go:82-104 | the tree the next block continues from is open and holds exactly the leaves up to the committed block |
| ChildTables.HistoryExtends | executor/child/handler.go:28-77 | committing one more block extends the chain of working trees |
| ChildTables.HistoryTruncates | provider/child/child.go:126-163 | forgetting later blocks keeps the history up to the boundary |
| ChildTables.AtMonotone | merkle/merkle.go:112-122 | tree indexes and starts never go back along the blocks, and one index has one start |
| ChildTables.ClosedOrder | merkle/merkle.go:112-122 | the tree closed later has the higher index and starts no earlier than the other ends |
| ChildTables.ClosedBefore | merkle/merkle.go:112-122 | closed trees end before the tree now open |
| ChildTables.ClosedCover | merkle/merkle.go:112-122 | every sequence before the open tree lies in a closed tree: no gap |
| ChildTables.NextTree | merkle/merkle.go:112-122 | the tree after the one closed at a block starts with the first leaf after that block |
| L1Outputs.HonestAppend | executor/child/withdraw.go:226-240 | an output whose root is computed between the last two boundaries keeps the outputs honest |
| HostQuery.QueryOutputByL2BlockNumber | provider/host/query.go:85-125 | the search terminates and returns the last output strictly below the height, or none |
| HostQuery.LastBelowUnique | provider/host/query.go:85-125 | that answer is unique |
| HostQuery.StartsAtBoundary | provider/host/query.go:85-125 | starting at the answer is starting at an output boundary: the next output lies at or after the height |
| ExecutorChild.Child.constructor | provider/child/child.go:126-163 | a new process on stored tables: what is deleted ahead of a height reset, and when a tree can be initialized |
| ExecutorChild.Child.PrepareTree | executor/child/withdraw.go:82-104 | the tree saved for the previous block is taken over, or initialized, or the handler panics |
| ExecutorChild.Child.PrepareOutput | executor/child/withdraw.go:107-142 | the deadline comes from the previous output and the closing block from the recorded one |
| ExecutorChild.Child.BeginBlock | executor/child/handler.go:11-26 | queue and stage start empty and the tables are untouched |
| ExecutorChild.Child.HandleInitiateWithdrawal | executor/child/withdraw.go:40-77 | a withdrawal out of sequence panics; otherwise leaf, nodes and record are staged together |
| ExecutorChild.Child.HandleTree | executor/child/withdraw.go:159-223 | what is staged when a tree closes and when it stays open, and that a block past the recorded one panics; when it closes is RunClosesIff |
| ExecutorChild.Child.EndBlock | executor/child/handler.go:28-77 | everything staged in a block is committed at once or not at all |
| ExecutorRuns.BegunShape | executor/child/handler.go:11-26 | a begin-block handler finds its tree and learns its record on L1 if there is one |
| ExecutorRuns.BeginKeeps | executor/child/handler.go:11-26 | begin-block keeps the invariant of runs |
| ExecutorRuns.WithdrawShape | executor/child/withdraw.go:40-60 | the sequence check of the withdrawal handler always passes |
| ExecutorRuns.WithdrawKeeps | executor/child/withdraw.go:40-77 | a withdrawal keeps the invariant of runs |
| ExecutorRuns.ClosesAsRecorded | executor/child/withdraw.go:159-180 | tree handling never passes the recorded block, and a tree on record closes exactly there |
| ExecutorRuns.ClosedRoot | executor/child/withdraw.go:180-215 | the root of a closing block is the recursive root of the tree's leaves |
| ExecutorRuns.EndOpenKeeps | executor/child/handler.go:28-77 | a block that leaves its tree open keeps the invariant of runs |
| ExecutorRuns.EndClosedKeeps | executor/child/handler.go:28-77 | a block that closes its tree keeps the invariant of runs |
| ExecutorRuns.AcceptedInOrder | executor/child/withdraw.go:226-240 | the proposal L1 accepts is the next output, at the block where its tree closed, with the honest root |
| ExecutorRuns.AcceptKeeps | executor/child/withdraw.go:226-240 | an accepted proposal keeps the invariant of runs |
| ExecutorRuns.RolledBackFinals | provider/child/child.go:126-163 | after a rollback to any boundary, genesis included, the trees closed up to it still have their entries and nodes |
| ExecutorRuns.RestartKeeps | provider/child/child.go:126-163 | restarts and height resets, to genesis too, keep the invariant of runs |
| ExecutorRuns.StepKeeps | executor/child/handler.go:11-77 | every step keeps the invariant |
| ExecutorRuns.RunKeeps | executor/child/handler.go:11-77 | every state of every run satisfies the invariant, so nothing panics |
| ExecutorTheorems.RunNeverPanics | executor/child/withdraw.go:82-104 | over every run nothing panics and a committed height comes with the working tree of that version |
| ExecutorTheorems.RunL1Grows | executor/child/withdraw.go:226-240 | outputs on L1 are never rewritten along a run |
| ExecutorTheorems.SyncReplay | executor/child/withdraw.go:107-223 | an output L1 held before the run is closed at its recorded block and at no other, and is not proposed again |
| ExecutorTheorems.RecordedCloses | executor/child/withdraw.go:159-180 | a recorded tree has closed once its block is passed |
| ExecutorTheorems.RunStaysHonest | executor/child/withdraw.go:159-240 | if the outputs L1 began with are honest, all are, through any aborts, restarts and resets |
| ExecutorTheorems.FirstBlockPanics | provider/child/child.go:126-151 | the first block after a start at a boundary panics iff deletion is disabled and no working tree is stored |
| ExecutorOutputs.RunDeadline | executor/child/withdraw.go:107-213 | in every run the time a process waits for is two thirds of the interval after the last block it closed a tree at, or after the L1 time of the previous output |
| ExecutorOutputs.RunBeginsIff | executor/child/withdraw.go:107-142 | a block is begun iff L1 answers and the deadline is known, can be taken from the previous output, or the tree is the first |
| ExecutorOutputs.RunClosesIff | executor/child/withdraw.go:165-170 | an attempt closes the tree iff the block is the recorded one or, with no record, it is the latest one and past that deadline, if there is one |
| ExecutorOutputs.RunProposes | executor/child/handler.go:28-77 | a block commits unless it fails, and adds exactly the output of the tree it closed, with the recursive root, unless L1 has it |
| ExecutorOutputs.RunSpacing | executor/child/withdraw.go:165-213 | two closes in a row in one process, the second without a record, are more than two thirds of the interval apart in block time |
| ExecutorOutputs.RunFailedCloseWaits | executor/child/withdraw.go:208-213 | after a close that was not committed no attempt at the same block closes the tree again before a restart |
| WithdrawalProofs.SeekFindsIff | db/db.go:142-163 | the seek finds a given entry iff no other lies after it and not after the key sought |
| WithdrawalProofs.FinalizedSequence | merkle/db.go:132-172 | each sequence before the open tree is in exactly one closed tree; it is answered from it, with a proof that verifies, iff no entry left behind comes between |
| WithdrawalProofs.RecordedRecreated | executor/child/withdraw.go:159-223 | a tree whose output L1 has gets, once its block is passed, the entry it had in any earlier life |
| WithdrawalProofs.AccountedUnshadowed | merkle/db.go:132-150 | entries of trees closed in this life or recorded on L1 never come between a tree and its sequences |
| WithdrawalProofs.UnfinalizedIff | merkle/db.go:132-150 | a sequence is answered as unfinalized iff the table is empty or the last entry before it has ended |
| WithdrawalProofs.OpenSequenceUnfinalized | merkle/db.go:132-150 | with nothing left behind every sequence from the open tree on is unfinalized |
| WithdrawalProofs.EarlierSequenceFails | db/db.go:150-158 | with nothing left behind a sequence before the base is an error as soon as any tree is finalized |
| WithdrawalProofs.StepAccountedIff | provider/child/child.go:126-163 | a step leaves an unaccounted entry behind iff it starts from genesis while some finalized tree has no output on L1 |
| WithdrawalProofs.StepOnlyClosedIff | provider/child/child.go:126-163 | a step leaves any entry behind iff it starts from genesis after a tree was finalized |
| WithdrawalProofs.RunProofs | merkle/db.go:132-172 | in every state of every run, whatever was reset: the exact condition under which a finalized sequence is answered from its tree, under the index its output has on L1 |
| WithdrawalProofs.RunAccounted | provider/child/child.go:126-163 | if every start from genesis found the outputs of all finalized trees on L1, every entry stays accounted for |
| WithdrawalProofs.RunProves | merkle/db.go:132-172 | in such runs every finalized sequence proves |
| WithdrawalProofs.RunOnlyClosed | provider/child/child.go:126-163 | without a start from genesis after a tree was finalized nothing is ever left behind |
| WithdrawalProofs.RunOtherAnswers | merkle/db.go:132-150 | in such runs sequences from the open tree on are unfinalized and those before the base an error |
| WithdrawalProofs.RunRecreates | executor/child/withdraw.go:107-223 | in every run the entries of trees on L1 are recreated identically when their block is replayed |
| WithdrawalProofs.RunNoneAhead | provider/child/child.go:126-163 | in every run, whatever was reset, no working tree is stored for a block ahead of the synced one |
| WithdrawalProofs.ResetUnfinalizes | provider/child/child.go:126-139 | right after a reset all sequences from the boundary on are unfinalized iff the boundary is not genesis or nothing was finalized |
| WithdrawalProofs.StaleTreeFails | provider/child/child.go:126-163 | right after a reset to genesis the first sequence of an old tree is an error |
| GenesisReset.GenesisShadows | provider/child/child.go:126-139 | a run with a reset to genesis after which a sequence in a finalized tree cannot be proved |
| GenesisReset.ExampleFits | executor/child/withdraw.go:159-180 | a chain as that run needs it exists |
| ChallengerChild.Child.constructor | provider/child/child.go:126-163 | a new challenger process on stored tables |
| ChallengerChild.Child.PrepareTree | challenger/child/withdraw.go:68-85 | the saved or initialized tree is taken over, or the handler panics |
| ChallengerChild.Child.PrepareOutput | challenger/child/withdraw.go:87-115 | the closing block is that of the recorded output; without one the block waits |
| ChallengerChild.Child.BeginBlock | challenger/child/handler.go:18-33 | the event queue and the stage start empty |
| ChallengerChild.Child.HandleInitiateWithdrawal | challenger/child/withdraw.go:35-66 | a withdrawal out of sequence panics; otherwise the leaf is inserted and its nodes staged |
| ChallengerChild.Child.HandleTree | challenger/child/withdraw.go:117-171 | the tree closes exactly at the recorded block; past it the handler panics |
| ChallengerChild.Child.EndBlock | challenger/child/handler.go:35-60 | the computed output is queued for comparison and the block is committed at once or not at all |
| ChallengerRuns.BeginKeeps | challenger/child/handler.go:18-33 | begin-block keeps the invariant of runs |
| ChallengerRuns.WithdrawKeeps | challenger/child/withdraw.go:35-66 | a withdrawal keeps the invariant of runs |
| ChallengerRuns.EndTreeOk | challenger/child/withdraw.go:117-171 | the saved tree extends the history, and a closed one has the honest root |
| ChallengerRuns.FollowsExtends | challenger/child/withdraw.go:117-171 | closing at the recorded block keeps the challenger level with L1 |
| ChallengerRuns.EndEventOk | challenger/child/withdraw.go:173-179 | the event of a closing block carries the root between the last two outputs |
| ChallengerRuns.EndKeeps | challenger/child/handler.go:35-99 | an end-block keeps the invariant of runs |
| ChallengerRuns.ObserveKeeps | challenger/child/withdraw.go:87-115 | any new output on L1, honest or not, keeps it |
| ChallengerRuns.RestartKeeps | provider/child/child.go:126-163 | a restart keeps it |
| ChallengerRuns.RunKeeps | challenger/child/handler.go:18-99 | every state of every run satisfies the invariant, whatever L1 records; nothing panics |
| ChallengerRuns.RunBeginsIff | challenger/child/withdraw.go:87-115 | a block is begun iff the output of its tree is on L1 and, for the first block of a process, the one before it can be queried too |
| ChallengerRuns.RunChecks | challenger/child/handler.go:35-99 | an attempt that meets no fault commits its block, and one more output is checked exactly at the recorded block |
| OutputChallenges.ChallengedIffDishonest | challenger/types/challenge.go:207-215 | each output is checked exactly once, in order, and mismatches iff it is not honest |
| OutputChallenges.HonestExecutorNeverChallenged | challenger/child/withdraw.go:117-179 | whatever executor and challenger go through, every output checked equals the recorded one |
| Broadcaster.Broadcaster.CommitBroadcast | node/broadcaster/tx.go:90-150 | one commit takes the batch out of one table and puts its transaction into the other, and uses one sequence |
| Broadcaster.Broadcaster.EnqueueLocalPendingTx | node/broadcaster/tx.go:152-157 | the transaction goes to the end of the queue |
| Broadcaster.Broadcaster.PeekLastSequenceInLocalPendingTx | node/broadcaster/tx.go:183-199 | the backward scan finds the sender's last pending sequence, or 0 |
| Broadcaster.Broadcaster.HandleMsgError | node/broadcaster/tx.go:42-86 | a saved batch is given up only on an error to be ignored or an output index already passed, an unsaved one also on other errors; the account takes the expected sequence iff it is above the reported one or past the last pending one |
| Broadcaster.Broadcaster.RemovePendingTx | node/broadcaster/process.go:57-65 | the table entry of the tx and the head of the queue go |
| Broadcaster.Broadcaster.RemovePendingTxsUntil | node/broadcaster/tx.go:201-228 | the leading txs at or below the bound go from queue and table |
| Broadcaster.Broadcaster.RebuildPendingTxs | node/broadcaster/tx.go:230-284 | all txs get new memos under their old keys, in one commit |
| Broadcaster.Broadcaster.LoadPendingTxs | node/broadcaster/broadcaster.go:143-228 | the polling loop finds the stored txs to process again that ReprocessIff characterizes |
| Broadcaster.Broadcaster.PrepareBroadcaster | node/broadcaster/broadcaster.go:121-140 | both tables are reloaded and what is still to do is saved again in one commit |
| Broadcaster.Broadcaster.SaveProcessedMsgsBatch | node/broadcaster/db.go:94-112 | exactly the batches marked for saving are written, later ones over earlier ones |
| Broadcaster.Leading | node/broadcaster/tx.go:208-217 | the early break stops at the first tx above the bound |
| Broadcaster.ToReprocessShorter | node/broadcaster/broadcaster.go:143-228 | only stored txs are processed again |
| Broadcaster.ReprocessIff | node/broadcaster/broadcaster.go:156-210 | a stored tx is left out iff its own answer is that it was included and none before it timed out; the others come back in order |
| Broadcaster.PastLastIff | node/broadcaster/tx.go:183-199 | the scan from the back compares with the sender's last pending tx |
| BroadcasterRuns.ConservedAppend | node/broadcaster/db.go:94-112 | a new batch joins the ones accounted for |
| BroadcasterRuns.ConservedDrop | node/broadcaster/tx.go:201-228 | dropping transactions with their fates recorded keeps every batch accounted for |
| BroadcasterRuns.MirrorsRebuild | node/broadcaster/tx.go:230-284 | a rebuild keeps the table equal to the queue |
| BroadcasterRuns.SaveKeeps | node/broadcaster/db.go:94-112 | saving a batch keeps the invariant of runs |
| BroadcasterRuns.BroadcastKeeps | node/broadcaster/tx.go:90-150 | a successful broadcast keeps it: no batch is in both tables or in none |
| BroadcasterRuns.CommitFailsKeeps | node/broadcaster/tx.go:118-146 | an attempt whose commit fails uses up a sequence and keeps it |
| BroadcasterRuns.FailKeeps | node/broadcaster/process.go:84-118 | a failed attempt, retried or given up, with any error and while the checker holds the queue, keeps it |
| BroadcasterRuns.EnqueueKeeps | node/broadcaster/tx.go:148-157 | queueing a committed transaction keeps it |
| BroadcasterRuns.SettleKeeps | node/tx_checker.go:160-166 | deleting the checked transaction, included or failed with an ignorable error, keeps it, before the queue follows |
| BroadcasterRuns.DequeueKeeps | node/broadcaster/process.go:57-65 | the queue following keeps it |
| BroadcasterRuns.RebuildKeeps | node/broadcaster/tx.go:230-284 | a rebuild keeps it between its commit and the new queue |
| BroadcasterRuns.PublishRebuildKeeps | node/broadcaster/tx.go:276-284 | the rebuilt queue keeps it |
| BroadcasterRuns.TruncateKeeps | node/tx_checker.go:97-126 | removing what the chain has passed keeps it |
| BroadcasterRuns.PublishTruncateKeeps | node/broadcaster/tx.go:219-228 | the shortened queue keeps it |
| BroadcasterRuns.ReprocessUnrepeated | node/broadcaster/broadcaster.go:143-228 | no batch is processed again twice |
| BroadcasterRuns.RestartTokens | node/broadcaster/broadcaster.go:121-283 | after a reload every saved batch is on record as found on chain or to do again, once |
| BroadcasterRuns.RestartKeeps | node/broadcaster/broadcaster.go:121-283 | a crash anywhere followed by a reload keeps the invariant of runs |
| BroadcasterRuns.StepKeeps | node/tx_checker.go:34-167 | every step of either loop keeps it |
| BroadcasterRuns.RunKeeps | node/tx_checker.go:34-167 | every state of every interleaving satisfies it |
| BroadcasterTheorems.Durable | node/broadcaster/tx.go:136-146 | a saved batch is in exactly one table under one key, or has met its fate and is in none |
| BroadcasterTheorems.RunDurable | node/broadcaster/tx.go:90-150 | the same in every state of every run, restarts included |
| BroadcasterTheorems.KeysApart | node/broadcaster/tx.go:136-146 | the two tables never share a key |
| BroadcasterTheorems.StepGrows | node/broadcaster/process.go:84-118 | a step never forgets a batch or changes a fate |
| BroadcasterTheorems.RunGrows | node/broadcaster/process.go:84-118 | a batch saved once stays on record and its fate is final |
| BroadcasterTheorems.RestartRequeues | node/broadcaster/broadcaster.go:121-140 | after a restart every batch without a fate waits to be broadcast again |
| BroadcasterTheorems.RunMirrors | node/broadcaster/tx.go:142-181 | under every interleaving the pending table holds exactly the saved part of the queue, but for one tx mid-move at each end |
| BroadcasterTheorems.RunRemovesChecked | node/broadcaster/process.go:57-65 | under every interleaving the tx taken off the queue is the one that was checked |
| BroadcasterTheorems.RunOneSender | node/tx_checker.go:97-126 | with one sender every tx dropped as consumed is its own |
| BroadcasterTheorems.RunFates | node/tx_checker.go:70-165 | with one sender a saved batch leaves the tables only seen on chain, dropped by one of the two ignore rules, or with its own sequence consumed |
| BroadcasterTheorems.TwoSendersLoseTx | node/broadcaster/tx.go:208-217 | a run with two senders in which a batch is dropped on another account's sequence |
| BroadcasterFates.RestartSettlesIff | node/broadcaster/broadcaster.go:143-228 | a restart puts a stored tx on record as seen on chain iff the chain answered so and no tx before it timed out |
| BroadcasterFates.RestartOrder | node/broadcaster/broadcaster.go:121-283 | after a restart the channel holds the stored txs not found on chain and then the stored batches, in key order |
| BroadcasterFates.StepCause | node/broadcaster/process.go:84-118 | a step settles a batch only for the reason its fate names |
| BroadcasterFates.RunCause | node/broadcaster/process.go:84-118 | every fate in every run, with any number of senders, was given by one step for that reason: seen on chain, an ignored error, or a truncation above its sequence |
| BroadcasterOrder.LastIsLargest | node/broadcaster/tx.go:183-199 | in an ordered queue the sender's last sequence is its largest |
| BroadcasterOrder.MismatchKeepsOrder | node/broadcaster/tx.go:42-56 | for any reported sequence, order survives iff not reported < expected <= last pending |
| BroadcasterOrder.MismatchReusesSequence | node/broadcaster/tx.go:42-56 | an instance where a pending sequence comes into use again |
| BroadcasterOrder.EchoKeepsOrder | node/broadcaster/tx.go:42-56 | a chain that reports the sequence the transaction was signed with never causes that |
| BroadcasterOrder.StepOrderIff | node/broadcaster/tx.go:42-157 | a step keeps every sender's sequences in order iff it is not such a mismatch |
| BroadcasterOrder.RunOrdered | node/broadcaster/tx.go:118-157 | in every run without such a mismatch a sender's sequences increase along the queue and its account is past them |
| BroadcasterOrder.TruncatesExactlyIff | node/broadcaster/tx.go:201-228 | a truncation takes exactly the account's passed txs off the queue iff no other tx interferes, for any queue |
| BroadcasterOrder.RunTruncatesExactly | node/tx_checker.go:97-126 | with one sender every truncation of every such run is exact |
| ChallengerEvents.EventHandler.Initialize | challenger/eventhandler/event_handler.go:26-34 | a restart loads the stored events |
| ChallengerEvents.EventHandler.SetPendingEvents | challenger/eventhandler/pending_events.go:17-28 | later events replace earlier ones with the same id |
| ChallengerEvents.EventHandler.DeletePendingEvents | challenger/eventhandler/pending_events.go:38-45 | exactly the given ids go |
| ChallengerEvents.EventHandler.GetUnprocessedPendingEvents | challenger/eventhandler/pending_events.go:103-128 | the rest of the table, sorted, whatever order it is walked in |
| ChallengerEvents.SortedUnique | challenger/eventhandler/pending_events.go:120-128 | there is only one such list |
| ChallengerEvents.EventHandler.CheckValue | challenger/eventhandler/challenge.go:15-55 | refuses iff an event has no counterpart; otherwise the mismatches and the settled ids |
| ChallengerEvents.EventHandler.CheckTimeout | challenger/eventhandler/challenge.go:64-82 | challenges exactly the events with a time that are not marked and whose time plus the duration is before the block time, and marks them in memory |
| ChallengerEvents.EventHandler.EndBlock | challenger/child/handler.go:62-99 | check, save, delete, commit and memory, in that order, also when the commit fails |
| ChallengerEventRuns.PassMarks | challenger/child/handler.go:62-83 | a pass marks exactly the overdue events it does not settle |
| ChallengerEventRuns.EndBlockSteps | challenger/child/handler.go:62-99 | the method's effect on memory and database is the step used in runs |
| ChallengerEventRuns.StepKeeps | challenger/child/handler.go:62-99 | every step keeps memory and database in agreement |
| ChallengerEventRuns.RunKeeps | challenger/child/handler.go:62-99 | they agree in every state of every run, but for marks made in memory only |
| ChallengerEventTheorems.SettledExactly | challenger/eventhandler/challenge.go:39-51 | what is settled: the compared ids, and older oracle events of the same kind |
| ChallengerEventTheorems.BlockLeaves | challenger/child/handler.go:62-98 | a block leaves exactly the events it does not settle, the overdue ones marked, in memory and database alike |
| ChallengerEventTheorems.ChallengedIffDiffers | challenger/eventhandler/challenge.go:26-38 | a challenge is raised iff the event differs from its counterpart |
| ChallengerEventTheorems.RunComparesOnce | challenger/child/handler.go:62-99 | a registered event is settled in at most one block |
| ChallengerEventTheorems.ReportedIff | challenger/eventhandler/challenge.go:64-82 | a block reports an event iff it is pending, past its deadline, not marked yet and not settled by the block |
| ChallengerEventTheorems.ChallengedIffLate | challenger/child/handler.go:62-75 | an overdue challenge is raised for exactly those events, so none before its deadline |
| ChallengerEventTheorems.RunReportsOnce | challenger/eventhandler/challenge.go:64-82 | no registered event is reported overdue twice, through failures and restarts |
| ChallengerEventTheorems.UnreportedIff | challenger/eventhandler/challenge.go:68-80 | a late event is left unreported iff it is marked in memory only |
| ChallengerEventTheorems.RunMarkedIff | challenger/child/handler.go:69-98 | it is so iff a step marked it since the last restart and it stayed pending |
| ChallengerEventTheorems.RunReportsAll | challenger/child/handler.go:69-83 | without such steps every late event is reported in the first block past its deadline |
| ChallengerEventTheorems.FailedAttemptSilences | challenger/child/handler.go:69-93 | an instance where a failed attempt silences a report |
| BatchCodec.MarshalBatchDataHeader | executor/types/batch.go:110-124 | the append loop gives the header's fixed part and the concatenated checksums |
| BatchCodec.UnmarshalBatchDataHeader | executor/types/batch.go:126-158 | accepts or refuses as ParseHeader does, reading the checksums in one loop |
| BatchCodec.HeaderRoundTrip | executor/types/batch.go:110-158 | a header is read back exactly iff its range is not inverted |
| BatchCodec.HeaderParsedBack | executor/types/batch.go:126-158 | nothing but the type byte of an accepted header is lost |
| BatchCodec.ChunkRoundTrip | executor/types/batch.go:160-198 | a chunk is read back exactly iff its range is not inverted |
| BatchCodec.ChunkParsedBack | executor/types/batch.go:177-198 | nothing but the type byte of an accepted chunk is lost |
| BatchCodec.GenesisRoundTrip | executor/types/batch.go:200-227 | a genesis chunk is read back exactly |
| BatchCodec.GenesisParsedBack | executor/types/batch.go:213-227 | nothing but the type byte of an accepted genesis chunk is lost |
| BatchPipeline.SplitRecords | e2e/batch_reconstruction_test.go:234-240 | the reader's loop splits the content into its records or refuses it |
| BatchPipeline.FramedAppend | executor/batchsubmitter/batch.go:114-123 | writing one more length-prefixed block appends one record |
| BatchPipeline.FramedRoundTrip | executor/batchsubmitter/batch.go:279-283 | every list of records is read back from its framing |
| BatchPipeline.UnframedBack | e2e/batch_reconstruction_test.go:234-240 | content that splits into records is exactly those records framed |
| BatchPipeline.ReadChunks | executor/batchsubmitter/batch.go:160-178 | the read loop cuts the file into full chunks and a rest, also if the size is a multiple |
| BatchPipeline.ChunksWhole | executor/batchsubmitter/batch.go:160-178 | the chunks are nonempty, full but the last, and concatenate to the file |
| BatchPipeline.ChunkCount | executor/batchsubmitter/batch.go:295-295 | the rounded-up quotient is the number of chunks |
| BatchPipeline.ChunkAt | executor/batchsubmitter/batch.go:296-302 | chunk i of the read loop is the piece cut at i chunk sizes |
| BatchPipeline.SubmitGenesis | executor/batchsubmitter/batch.go:285-330 | cutting by index gives the same chunks, each saying how many there are |
| BatchPipeline.FinalizeBatch | executor/batchsubmitter/batch.go:155-217 | the header with all checksums, then the chunk messages in order |
| BatchPipeline.BatchMsgsFit | executor/batchsubmitter/batch.go:180-217 | the reader accepts every published batch and gets its chunks |
| BatchPipeline.BlocksReadBack | executor/batchsubmitter/batch.go:114-217 | every block list and commit is read back from its messages, for every positive chunk size |
| BatchPipeline.AcceptedIsGenuine | executor/types/batch.go:106-108 | chunks accepted under a genuine header carry the genuine file, or two chunks collide |
| BatchPipeline.GenesisReadBack | executor/batchsubmitter/batch.go:285-330 | the genesis is read back from its messages |
| BatchRuns.BatchSubmitter.constructor | executor/batchsubmitter/batch_submitter.go:128-132 | a first start at a height batches from the next block on, with no height stored |
| BatchRuns.BatchSubmitter.Initialize | executor/batchsubmitter/batch_submitter.go:102-146 | a restart goes on at the stored height; a corrupted, nonempty file starts the batch over, with the height rewound in memory only |
| BatchRuns.BatchSubmitter.PrepareBatch | executor/batchsubmitter/batch.go:26-111 | when the destination switches and that batching then goes on behind the new info's block; how a finalized batch gives way to a new one |
| BatchRuns.BatchSubmitter.HandleRawBlock | executor/batchsubmitter/handler.go:16-113 | what a block does to file and database, also if its handling fails after the writing |
| BatchRuns.StepTracks | executor/batchsubmitter/handler.go:16-113 | attempts and heights alone say whether a step leaves the file intact, with one failed attempt that a restart makes good, or wrong for good |
| BatchRuns.RunTracks | executor/batchsubmitter/handler.go:16-113 | in every state of every run the file is what the attempts and restarts since it was emptied make it |
| BatchRuns.PublishedWholeIff | executor/batchsubmitter/batch.go:114-217 | the batch a finalizing block publishes holds exactly its range and the last commit iff the file was intact or just emptied |
| BatchRuns.RunWholeIff | executor/batchsubmitter/handler.go:16-113 | the same for every batch published in any run, with any failures and restarts |
| BatchRuns.RunIntactIff | executor/batchsubmitter/handler.go:53-84 | while a file is neither emptied nor passed over by a restart it is intact iff no attempt failed |
| BatchRuns.StepRangesIff | executor/batchsubmitter/batch.go:96-109 | ranges alone are kept iff the step does not start over behind a published batch |
| BatchRuns.RunRanges | executor/batchsubmitter/batch.go:96-109 | since batching began, however often handlers fail and the process restarts, each range starts where the one before ended |
| BatchRuns.RunAllWhole | executor/batchsubmitter/handler.go:16-113 | if, since batching began, every batch was written to an intact file, all of them hold exactly their ranges |
| BatchRuns.RunBegins | executor/batchsubmitter/batch.go:79-92 | after a switch at block n, or a first start after it, and until the next one, the first batch published starts with block n + 1 |
| BatchRuns.RunCovers | executor/batchsubmitter/handler.go:16-113 | if moreover none was started over behind a published one, published batches and open file together hold every block once, in order |
| BatchRuns.RunCoversAfter | executor/batchsubmitter/batch.go:79-92 | after a switch at block n such batches and the open file hold exactly the blocks from n + 1 on, once and in order |
| BatchRuns.RecordsReadBack | executor/batchsubmitter/batch.go:114-217 | the messages of a batch read back as exactly what was written to the file |
| BatchRuns.RunReadsBack | executor/batchsubmitter/batch.go:114-217 | in every run the messages of a published batch read back as what was written, which for an intact file is its blocks and commit |
| BatchRuns.RetryDuplicates | executor/batchsubmitter/handler.go:53-80 | a run in which a retried block is published twice |
| BatchRuns.StartOverOverlaps | executor/batchsubmitter/batch_submitter.go:132-146 | a run in which two batches start at the same block |
| BatchRuns.RestartLosesBlocks | executor/batchsubmitter/batch_submitter.go:132-146 | a run without a failed attempt in which a restart after starting over leaves blocks out of a published batch |
| ByteOrder.Uint64KeyRoundTrip | db/types/utils.go:35-43 | a number is read back from its key |
| ByteOrder.FromBigEndianRoundTrip | db/types/utils.go:35-43 | every byte string of a width is the key of exactly one number |
| ByteOrder.Uint64KeyOrder | db/types/utils.go:35-43 | keys sort as their numbers do |
| Keys.NumberKeyRoundTrip | merkle/types/key.go:20-32 | numbered keys are read back |
| Keys.NumberKeyOrder | merkle/types/key.go:20-32 | numbered keys of a kind sort as their numbers |
| Keys.NodeKeyRoundTrip | merkle/types/key.go:34-47 | node keys are read back |
| Keys.NodeKeyFrom | merkle/types/key.go:49-57 | a node lies at or after the first key of a tree iff its tree does |
| Keys.AddressKeyRoundTrip | executor/types/key.go:32-54 | an address key is read back iff the address is not empty |
| Keys.AddressKeyInjective | executor/types/key.go:32-38 | address and sequence are determined by the key |
| Keys.AddressKeyOrder | executor/types/key.go:32-38 | the keys of one address sort as its sequences do |
| Keys.ChallengeKeyRoundTrip | challenger/types/keys.go:46-75 | challenge keys are read back |
| Keys.ChallengeKeyOrder | challenger/types/keys.go:37-49 | an earlier challenge has the smaller key, whatever its kind and id |
| Keys.PendingEventKeyRoundTrip | challenger/types/keys.go:27-61 | pending-event keys are read back |
| Store.PrefixRoundTrip | db/db.go:174-182 | removing the prefix undoes adding it |
| Store.LevelDB.NewIterator | db/db.go:75-82 | the keys under a prefix of this database, in byte order |
| Store.LevelDB.Iterate | db/db.go:75-100 | a callback sees exactly the keys under the prefix from the start key on, ascending |
| Store.LevelDB.ReverseIterate | db/db.go:103-136 | exactly those up to the start key, descending |
| Store.LevelDB.SeekPrevInclusiveKey | db/db.go:142-163 | the greatest key at or before the one sought; nothing, without error, if all are greater; not found iff there is none |
| Store.LevelDB.DeleteAll | db/db.go:63-65 | exactly the given keys go, other prefixes are untouched |
| Stage.Stage.Set | db/stage.go:34-39 | one more staged write; the store is not touched |
| Stage.Stage.Delete | db/stage.go:50-55 | one more staged delete; the store is not touched |
| Stage.Stage.Read | db/stage.go:41-48 | the last staged operation on the key, or the store under the parent's prefix |
| Stage.Stage.Commit | db/stage.go:57-63 | the operations are written in order, at once |
| Stage.Stage.Reset | db/stage.go:69-72 | nothing is staged |
| Stage.ReplayOverlays | db/stage.go:57-63 | writing the log gives the old store overridden by the last operation per key |
| Stage.ReplayTwice | db/stage.go:57-63 | committing again without a reset changes nothing |
| Stage.OwnReads | db/stage.go:41-55 | own-prefix reads show what a commit will leave, deletes as nil |
| Stage.ForeignReads | db/stage.go:27-48 | reads under another prefix do so iff the key was set, or the store has the same under both keys |
| Stage.Untouched | db/stage.go:57-63 | a key no staged operation names is left alone |
| Tables.DeleteFutureFinalizedTrees | merkle/db.go:15-32 | exactly the trees starting at or after the sequence go |
| Tables.DeleteFutureWorkingTrees | merkle/db.go:35-52 | exactly the versions at or after the given one go |
| Tables.DeleteFutureNodes | merkle/db.go:54-71 | exactly the nodes of trees at or after the index go |
| Tables.SeekTree | merkle/db.go:132-138 | seeking by key bytes finds the tree that seeking by number finds |
| Tables.SaveWithdrawal | executor/child/db.go:65-80 | the withdrawal and its index entry are written |
| Tables.SavedIndexedIff | executor/child/db.go:65-80 | the index stays exact iff no withdrawal to another receiver is replaced |
| Tables.DeleteFutureWithdrawals | executor/child/db.go:83-106 | exactly the withdrawals from the sequence on and their index entries go, the index lists the rest exactly, and other keys, values and prefixes are untouched |
| Tables.CollectLate | challenger/db/db.go:135-149 | the early stop of the backward scan misses no challenge |
| Tables.DeleteFutureChallenges | challenger/db/db.go:135-160 | exactly the challenges at or after the time go |
| WithdrawalPages.VisitedShows | executor/child/db.go:46-60 | the iterator visits exactly the sequences of the address from the offset on, in the order asked for |
| WithdrawalPages.TakePage | executor/child/db.go:31-44 | the callback takes the first entries up to the limit and remembers the one after them; a value that is no number is an error |
| WithdrawalPages.GetSequencesByAddress | executor/child/db.go:29-63 | a page holds the first sequences from the offset on, in either order, and names the next one, 0 if there is none |
| WithdrawalPages.NextPage | executor/child/db.go:29-63 | the page at next continues the pages before it with no gap and no repetition |
| WithdrawalPages.ListAll | executor/child/db.go:29-63 | following next page by page lists every sequence of the address exactly once, in order |

## Left out

- Integer widths: heights, indexes and counts are unbounded numbers; no overflow of uint64 or uint8 is modelled.
- Time-based closing conditions of the executor's trees are modelled with times as integers; timers, backoff and the wall clock are not.
- Internal status records and metrics: written and read for display only.
- The deletes of a start at a boundary are one step; a crash between two of them is not modelled.
- Starting a batch over (saving its info, emptying the file) is one step; a crash between the two is not modelled.
- A height reset of the child alone, which leaves the proposals in the host's table.
- Rpc queries are parameters (up or down, found or not found); the retry rule for query errors is not modelled further.
- Building, signing and simulating transactions, gas, keyrings and fee grants: foreign libraries.
- checkBatch: whether a batch is finalized at a block is a free choice in the model, so every policy is covered and none is stated.
- emptyOracleData, emptyRelayOracleData and emptyUpdateClientData: the bytes of a block are what is left after them.
- Durability of pending challenges: the pending key holds only the id, so two challenges with one id share a slot.
- The host's own pending events (output submission timeout): the same handler; only its effect on the shared object is modelled.
- An event id registered while it is still pending: a host block and a child block could then write the same key in either order.
- Broadcaster.Broadcaster.LoadPendingTxs: the order in which the chain's answers arrive is a parameter; the timeout rule is the TimedOut answer.
- Tables.DeleteFutureWithdrawals: for stores whose withdrawals decode; a value that does not decode stops the scan with an error and deletes nothing.
- Oracle relaying, IBC clients, DA clients, migrations, the command line and the HTTP server.
