/** When the executor closes a tree and proposes its output, over whole runs and in terms of block and L1 times only. */
module ExecutorOutputs {
  import opened Prelude
  import opened MerkleSpec
  import opened MerkleTree
  import opened MerkleProofs
  import opened ChildTables
  import opened L1Outputs
  import opened ExecutorChild
  import opened ExecutorRuns

  /** Index of the tree the next block belongs to. */
  function OpenIndex(s: Sys): nat
  {
    At(s.ex.db.working, s.base, s.synced).index
  }

  /** The attempt just ended closed its tree, committed or not. */
  predicate ClosedNow(s: Sys)
  {
    s.ex.tree.Some? && s.ex.tree.value.done
  }

  // ----- The deadline -----

  /**
   How a step changes the time up to which the open tree stays open. It is two thirds of the submission interval after
   the last block that closed a tree, or, in a new process, after the time L1 gives for the previous output.
   */
  function DeadlineAfter(cfg: Config, ch: Chain, s: Sys, a: Action, s': Sys, d: Option<int>): Option<int>
  {
    match a
    case Begin(prevUp, _) =>
      if d.None? && prevUp && 2 <= OpenIndex(s) <= |s.l1| + 1
      then Some(s.l1[OpenIndex(s) - 2].l1BlockTime + cfg.interval * 2 / 3) else d
    case End(_, _) => if ClosedNow(s') then Some(ch(s.synced + 1).time + cfg.interval * 2 / 3) else d
    case Restart(_) => None
    case Reset(_) => None
    case _ => d
  }

  function Deadline(cfg: Config, ch: Chain, states: seq<Sys>, actions: seq<Action>, i: nat): Option<int>
    requires |states| == |actions| + 1 && i <= |actions|
  {
    if i == 0 then None
    else DeadlineAfter(cfg, ch, states[i - 1], actions[i - 1], states[i], Deadline(cfg, ch, states, actions, i - 1))
  }

  /** A block is begun if and only if L1 answers and the deadline is known, or can be learned, or is not needed. */
  lemma BeginTimes(cfg: Config, ch: Chain, s: Sys, prevUp: bool, curUp: bool)
    requires Inv(cfg, ch, s) && Enabled(ch, s, Begin(prevUp, curUp))
    ensures var s' := Next(cfg, ch, s, Begin(prevUp, curUp));
            && s'.ex.nextOutputTime == DeadlineAfter(cfg, ch, s, Begin(prevUp, curUp), s', s.ex.nextOutputTime)
            && (s'.phase.InBlock? <==>
                  curUp && (s.ex.nextOutputTime.Some? || OpenIndex(s) == 1 || (prevUp && OpenIndex(s) <= |s.l1| + 1)))
  {
    hide Committed, OnL1, Built, Begun, At;
    var ex, k := s.ex.(queue := [], stage := []), OpenIndex(s);
    TreeIsFound(cfg, ch, s.base, s.ex.db, s.synced, s.l1, ex);
    hide TreePrepared;
    OpenPositive(cfg, ch, s);
    BegunTimes(cfg, s.ex, s.synced + 1, At(s.ex.db.working, s.base, s.synced), QueryOutput(s.l1, k - 1, prevUp), QueryOutput(s.l1, k, curUp));
  }

  lemma OpenPositive(cfg: Config, ch: Chain, s: Sys)
    requires Inv(cfg, ch, s)
    ensures OpenIndex(s) >= 1
  {
    hide Finals, Stored, WithdrawalsOk, Frontier, OnL1, Built;
    AtOk(cfg.f, ch, s.base, s.ex.db.working, s.synced, s.synced);
  }

  lemma BegunTimes(cfg: Config, s: State, h: nat, t: TreeInfo, prev: Query, cur: Query)
    requires h >= 1 && TreePrepared(s.(queue := [], stage := []), h) == (s.(queue := [], stage := [], tree := Some(t)), Done)
    ensures var (s', r) := Begun(cfg, s, h, prev, cur);
            && s'.nextOutputTime == (if s.nextOutputTime.None? && t.index > 1 && prev.Found?
                                     then Some(prev.l1BlockTime + cfg.interval * 2 / 3) else s.nextOutputTime)
            && (r == Done <==> !cur.Unavailable? && (s.nextOutputTime.Some? || t.index <= 1 || prev.Found?))
  {
    hide TreePrepared;
  }

  lemma EndedTimes(cfg: Config, s: State, h: nat, latest: nat, block: Block, fault: Fault)
    requires s.tree.Some? && (s.finalizing == 0 || s.finalizing >= h)
    ensures var s' := Ended(cfg, s, h, latest, block, fault).0;
            && s'.tree.Some? && s'.tree.value.done == (Closes(s, h, latest, block) || s.tree.value.done)
            && s'.nextOutputTime == if Closes(s, h, latest, block) then Some(block.time + cfg.interval * 2 / 3) else s.nextOutputTime
  {
    hide ApplyAll, NodeWrites, ProposalWrites, Finalize;
    FinalizeFrame(cfg.f, s.tree.value, TreeExtraData(h, block.time, block.id));
  }

  /** When an attempt at a block closes the tree: at the recorded block, or, with no record, when synced and overdue. */
  predicate ClosesNow(ch: Chain, s: Sys, latest: nat, d: Option<int>)
  {
    var h, k := s.synced + 1, OpenIndex(s);
    if k <= |s.l1| then BlockOf(s.l1, k) == h else latest == h && (d.None? || d.value < ch(h).time)
  }

  lemma EndTimes(cfg: Config, ch: Chain, s: Sys, latest: nat, fault: Fault)
    requires Inv(cfg, ch, s) && Enabled(ch, s, End(latest, fault))
    ensures var s' := Next(cfg, ch, s, End(latest, fault));
            && s.phase.height == s.synced + 1
            && (ClosedNow(s') <==> ClosesNow(ch, s, latest, s.ex.nextOutputTime))
            && s'.ex.nextOutputTime == DeadlineAfter(cfg, ch, s, End(latest, fault), s', s.ex.nextOutputTime)
  {
    hide Finals, Stored, WithdrawalsOk, Frontier, Ended, Honest, ProposalOk;
    AtOk(cfg.f, ch, s.base, s.ex.db.working, s.synced, s.synced);
    EndedTimes(cfg, s.ex, s.synced + 1, latest, ch(s.synced + 1), fault);
  }

  lemma StepDeadline(cfg: Config, ch: Chain, s: Sys, a: Action)
    requires Inv(cfg, ch, s) && Enabled(ch, s, a)
    ensures var s' := Next(cfg, ch, s, a); s'.ex.nextOutputTime == DeadlineAfter(cfg, ch, s, a, s', s.ex.nextOutputTime)
  {
    hide Inv, Truncated, Insert, Ended, Begun;
    match a {
      case Begin(prevUp, curUp) => BeginTimes(cfg, ch, s, prevUp, curUp);
      case End(latest, fault) => EndTimes(cfg, ch, s, latest, fault);
      case _ =>
    }
  }

  /** In every run the time the process waits for is the one its steps so far determine. */
  lemma {:induction false} RunDeadline(cfg: Config, ch: Chain, states: seq<Sys>, actions: seq<Action>, i: nat)
    requires Consecutive(ch) && Run(cfg, ch, states, actions) && Initial(cfg, ch, states[0]) && i <= |actions|
    ensures states[i].ex.nextOutputTime == Deadline(cfg, ch, states, actions, i)
    decreases i
  {
    if i > 0 {
      hide Inv, Enabled, Next, Initial, DeadlineAfter;
      RunDeadline(cfg, ch, states, actions, i - 1);
      RunKeeps(cfg, ch, states, actions, i - 1);
      StepDeadline(cfg, ch, states[i - 1], actions[i - 1]);
      assert states[i - 1 + 1] == Next(cfg, ch, states[i - 1], actions[i - 1]);
    }
  }

  // ----- Whole runs -----

  /**
   A block is begun if and only if L1 answers about the tree's own output, and the process knows its deadline, or finds
   the previous output to take it from, or works on the first tree.
   */
  lemma RunBeginsIff(cfg: Config, ch: Chain, states: seq<Sys>, actions: seq<Action>, i: nat)
    requires Consecutive(ch) && Run(cfg, ch, states, actions) && Initial(cfg, ch, states[0]) && i < |actions| && actions[i].Begin?
    ensures var s, a := states[i], actions[i];
            states[i + 1].phase.InBlock? <==>
              a.curUp && (|| Deadline(cfg, ch, states, actions, i).Some? || OpenIndex(s) == 1
                          || (a.prevUp && OpenIndex(s) <= |s.l1| + 1))
  {
    hide Inv, Enabled, Next, Initial, Deadline;
    RunKeeps(cfg, ch, states, actions, i);
    RunDeadline(cfg, ch, states, actions, i);
    BeginTimes(cfg, ch, states[i], actions[i].prevUp, actions[i].curUp);
    assert states[i + 1] == Next(cfg, ch, states[i], actions[i]);
  }

  /**
   An attempt at a block closes its tree if and only if the block is the recorded one or, with no record on L1, it is the
   latest one and its time is past the deadline the run determines, if there is one.
   */
  lemma RunClosesIff(cfg: Config, ch: Chain, states: seq<Sys>, actions: seq<Action>, i: nat)
    requires Consecutive(ch) && Run(cfg, ch, states, actions) && Initial(cfg, ch, states[0]) && i < |actions| && actions[i].End?
    ensures var s, h, d := states[i], states[i].synced + 1, Deadline(cfg, ch, states, actions, i);
            ClosedNow(states[i + 1]) <==>
              if OpenIndex(s) <= |s.l1| then BlockOf(s.l1, OpenIndex(s)) == h
              else actions[i].latest == h && (d.None? || d.value < ch(h).time)
  {
    hide Inv, Enabled, Next, Initial, Deadline, ClosedNow;
    RunKeeps(cfg, ch, states, actions, i);
    RunDeadline(cfg, ch, states, actions, i);
    EndTimes(cfg, ch, states[i], actions[i].latest, actions[i].fault);
    assert states[i + 1] == Next(cfg, ch, states[i], actions[i]);
  }

  /** The attempt closes a tree without a record and ends before an output is queued, or the commit fails. */
  predicate Fails(s: Sys, a: Action, s': Sys)
  {
    a.End? && (a.fault == CommitFault || (a.fault == OutputFault && ClosedNow(s') && OpenIndex(s) > |s.l1|))
  }

  /** What a committed block adds to the proposals: the output of the tree it closed, unless L1 has it. */
  function Proposed(cfg: Config, ch: Chain, s: Sys): seq<Proposal>
  {
    var h, t := s.synced + 1, At(s.ex.db.working, s.base, s.synced);
    if OpenIndex(s) > |s.l1| && cfg.submits
    then [Proposal(t.index, h, cfg.rootFn(cfg.version, StorageRoot(cfg.f, From(Leaves(ch, h), t.startLeafIndex)), ch(h).id))]
    else []
  }

  lemma EndProposes(cfg: Config, ch: Chain, s: Sys, latest: nat, fault: Fault)
    requires Inv(cfg, ch, s) && Enabled(ch, s, End(latest, fault))
    ensures var a := End(latest, fault);
            var s' := Next(cfg, ch, s, a);
            && s'.synced == (if Fails(s, a, s') then s.synced else s.synced + 1)
            && s'.ex.db.proposals == s.ex.db.proposals + (if ClosedNow(s') && !Fails(s, a, s') then Proposed(cfg, ch, s) else [])
  {
    hide Committed, OnL1, Ended, Finalize, Built, Queued, Proposed, ClosedDb, ApplyAll;
    var h := s.synced + 1;
    TreeInBlock(cfg, ch, s);
    EndedTimes(cfg, s.ex, h, latest, ch(h), fault);
    if Closes(s.ex, h, latest, ch(h)) {
      EndedClosed(cfg, s.ex, h, latest, ch(h), fault);
      ClosedQueues(cfg, ch, s);
    } else {
      EndedOpen(cfg, s.ex, h, latest, ch(h), fault);
    }
  }

  lemma TreeInBlock(cfg: Config, ch: Chain, s: Sys)
    requires Inv(cfg, ch, s) && s.phase.InBlock?
    ensures s.ex.tree.Some? && s.ex.queue == [] && s.phase.height == s.synced + 1
    ensures s.ex.finalizing == 0 || s.ex.finalizing >= s.synced + 1
    ensures s.ex.finalizing == 0 <==> OpenIndex(s) > |s.l1|
    ensures s.ex.tree.value.version == s.synced + 1 && !s.ex.tree.value.done
    ensures ApplyAll(s.ex.db, s.ex.stage).proposals == s.ex.db.proposals
  {
    hide Finals, Stored, WithdrawalsOk, Frontier, Honest, ProposalOk, ApplyAll;
    AtOk(cfg.f, ch, s.base, s.ex.db.working, s.synced, s.synced);
  }

  lemma ClosedQueues(cfg: Config, ch: Chain, s: Sys)
    requires Inv(cfg, ch, s) && s.phase == InBlock(s.synced + 1, |ch(s.synced + 1).withdrawals|)
    requires s.ex.tree.Some? && (s.ex.finalizing == s.synced + 1 || s.ex.finalizing == 0)
    ensures var h := s.synced + 1;
            var r := Finalize(cfg.f, s.ex.tree.value, TreeExtraData(h, ch(h).time, ch(h).id));
            && Queued(cfg, s.ex, h, ch(h), r) == Proposed(cfg, ch, s)
            && (forall d: ChildDb :: ClosedDb(cfg, d, h, r).proposals == d.proposals)
  {
    hide Committed, OnL1, Finalize, StorageRoot, ApplyAll, Stored, Frontier, WithdrawalsOk;
    ClosedRoot(cfg, ch, s.base, s.ex.db, s.synced, s.ex.tree.value, ApplyAll(s.ex.db, s.ex.stage));
  }

  /**
   A block is committed unless it fails, and its proposals grow by exactly the output of the tree it closed, with the root
   of the withdrawals since the last close, if L1 does not have that output yet.
   */
  lemma RunProposes(cfg: Config, ch: Chain, states: seq<Sys>, actions: seq<Action>, i: nat)
    requires Consecutive(ch) && Run(cfg, ch, states, actions) && Initial(cfg, ch, states[0]) && i < |actions| && actions[i].End?
    ensures var s, a, s' := states[i], actions[i], states[i + 1];
            && s'.synced == (if Fails(s, a, s') then s.synced else s.synced + 1)
            && s'.ex.db.proposals == s.ex.db.proposals + (if ClosedNow(s') && !Fails(s, a, s') then Proposed(cfg, ch, s) else [])
  {
    hide Inv, Enabled, Next, Initial, Fails, ClosedNow, Proposed;
    RunKeeps(cfg, ch, states, actions, i);
    EndProposes(cfg, ch, states[i], actions[i].latest, actions[i].fault);
    assert states[i + 1] == Next(cfg, ch, states[i], actions[i]);
  }

  /** The process goes on with nothing closed and no restart. */
  predicate Uneventful(states: seq<Sys>, actions: seq<Action>, m: nat)
    requires |states| == |actions| + 1 && m < |actions|
  {
    !actions[m].Restart? && !actions[m].Reset? && !(actions[m].End? && ClosedNow(states[m + 1]))
  }

  lemma {:induction false} DeadlineStays(cfg: Config, ch: Chain, states: seq<Sys>, actions: seq<Action>, i: nat, j: nat)
    requires |states| == |actions| + 1 && i <= j <= |actions| && Deadline(cfg, ch, states, actions, i).Some?
    requires forall m :: i <= m < j ==> Uneventful(states, actions, m)
    ensures Deadline(cfg, ch, states, actions, j) == Deadline(cfg, ch, states, actions, i)
    decreases j
  {
    if i < j {
      DeadlineStays(cfg, ch, states, actions, i, j - 1);
      assert Uneventful(states, actions, j - 1);
    }
  }

  /**
   Two closes in a row in one process, the second without a record: the second block is more than two thirds of the
   interval later, whether or not the first close was committed.
   */
  lemma RunSpacing(cfg: Config, ch: Chain, states: seq<Sys>, actions: seq<Action>, i: nat, j: nat)
    requires |states| == |actions| + 1
    requires Consecutive(ch) && Run(cfg, ch, states, actions) && Initial(cfg, ch, states[0]) && i < j < |actions|
    requires actions[i].End? && ClosedNow(states[i + 1]) && actions[j].End? && ClosedNow(states[j + 1])
    requires forall m :: i < m < j ==> Uneventful(states, actions, m)
    requires OpenIndex(states[j]) > |states[j].l1|
    ensures ch(states[j].synced + 1).time > ch(states[i].synced + 1).time + cfg.interval * 2 / 3
  {
    hide Run, Initial, ClosedNow, Uneventful;
    assert Deadline(cfg, ch, states, actions, i + 1) == Some(ch(states[i].synced + 1).time + cfg.interval * 2 / 3);
    DeadlineStays(cfg, ch, states, actions, i + 1, j);
    hide Deadline;
    RunClosesIff(cfg, ch, states, actions, j);
  }

  /** So a close that is not committed is not made up for by the next attempts at the same block, before a restart. */
  lemma RunFailedCloseWaits(cfg: Config, ch: Chain, states: seq<Sys>, actions: seq<Action>, i: nat, j: nat)
    requires |states| == |actions| + 1
    requires Consecutive(ch) && Run(cfg, ch, states, actions) && Initial(cfg, ch, states[0]) && i < j < |actions|
    requires actions[i].End? && ClosedNow(states[i + 1]) && states[i + 1].synced == states[i].synced
    requires forall m :: i < m < j ==> Uneventful(states, actions, m)
    requires actions[j].End? && states[j].synced == states[i].synced && OpenIndex(states[j]) > |states[j].l1|
    ensures !ClosedNow(states[j + 1])
  {
    hide Run, Initial, ClosedNow, Uneventful;
    if ClosedNow(states[j + 1]) {
      RunSpacing(cfg, ch, states, actions, i, j);
    }
  }
}
