/** What every run of the executor's child guarantees. */
module ExecutorTheorems {
  import opened Prelude
  import opened MerkleSpec
  import opened MerkleTree
  import opened MerkleProofs
  import opened ChildTables
  import opened L1Outputs
  import opened ExecutorChild
  import opened ExecutorRuns

  // ----- Whole runs -----

  /** No handler panics, and a committed height always comes with the working tree saved for it. */
  lemma RunNeverPanics(cfg: Config, ch: Chain, states: seq<Sys>, actions: seq<Action>, i: nat)
    requires Consecutive(ch) && Run(cfg, ch, states, actions) && Initial(cfg, ch, states[0]) && i < |states|
    ensures !states[i].panicked
    ensures var db := states[i].ex.db;
            db.synced != 0 ==> db.synced in db.working && db.working[db.synced].version == db.synced
  {
    hide Finals, Stored, WithdrawalsOk, OnL1;
    RunKeeps(cfg, ch, states, actions, i);
    var s := states[i];
    AtOk(cfg.f, ch, s.base, s.ex.db.working, s.synced, s.synced);
  }

  /** The base and the recorded count never change, and L1's outputs are never rewritten. */
  lemma {:induction false} RunL1Grows(cfg: Config, ch: Chain, states: seq<Sys>, actions: seq<Action>, i: nat)
    requires Run(cfg, ch, states, actions) && i < |states|
    ensures states[0].l1 <= states[i].l1
    ensures states[i].base == states[0].base && states[i].recorded == states[0].recorded
  {
    if i > 0 { RunL1Grows(cfg, ch, states, actions, i - 1); }
  }

  /**
   Sync replay: for an output L1 held when the run began, the executor closes that tree at the recorded block and at no
   other, as soon as it has passed it, and never proposes the output again.
   */
  lemma SyncReplay(cfg: Config, ch: Chain, states: seq<Sys>, actions: seq<Action>, i: nat, k: nat)
    requires Consecutive(ch) && Run(cfg, ch, states, actions) && Initial(cfg, ch, states[0]) && i < |states|
    requires states[0].base.index <= k <= |states[0].l1|
    ensures var s := states[i];
            var block := BlockOf(states[0].l1, k);
            && (forall v: nat :: ClosedAt(s.ex.db.working, s.base, s.synced, v) && s.ex.db.working[v].index == k <==>
                                 v == block && block <= s.synced)
            && (forall p :: p in s.ex.db.proposals ==> p.outputIndex != k)
  {
    RunKeeps(cfg, ch, states, actions, i);
    RunL1Grows(cfg, ch, states, actions, i);
    var s := states[i];
    assert BlockOf(s.l1, k) == BlockOf(states[0].l1, k);
    RecordedCloses(cfg, ch, s.base, s.ex.db, s.synced, s.l1, s.recorded, k);
    assert forall p :: p in s.ex.db.proposals ==> ProposalOk(cfg, ch, s.base, s.ex.db.working, s.synced, s.recorded, p);
  }

  lemma RecordedCloses(cfg: Config, ch: Chain, b: Base, db: ChildDb, top: nat, l1: seq<L1Output>, recorded: nat, k: nat)
    requires History(cfg.f, ch, b, db.working, top) && OnL1(cfg, ch, b, db, top, l1, recorded)
    requires b.index <= k <= |l1|
    ensures forall v: nat :: ClosedAt(db.working, b, top, v) && db.working[v].index == k <==>
                             v == BlockOf(l1, k) && BlockOf(l1, k) <= top
  {
    hide ProposalOk, Honest, TreeOk;
    BlockOrder(l1, b.index - 1, k);
    if BlockOf(l1, k) <= top { BoundaryClosed(cfg, ch, b, db, top, l1, recorded, k); }
    forall v: nat | ClosedAt(db.working, b, top, v) && db.working[v].index == k
      ensures v == BlockOf(l1, k) && BlockOf(l1, k) <= top
    {
      ClosedBefore(cfg.f, ch, b, db.working, top, v);
      assert ClosedAsRecorded(b, db.working, top, l1, k);
      if v < BlockOf(l1, k) { ClosedOrder(cfg.f, ch, b, db.working, top, v, BlockOf(l1, k)); }
      if v > BlockOf(l1, k) { ClosedOrder(cfg.f, ch, b, db.working, top, BlockOf(l1, k), v); }
    }
  }

  /** If the outputs L1 began with are honest, all of them are, whatever the executor went through. */
  lemma RunStaysHonest(cfg: Config, ch: Chain, states: seq<Sys>, actions: seq<Action>, i: nat)
    requires Consecutive(ch) && Run(cfg, ch, states, actions) && Initial(cfg, ch, states[0]) && i < |states|
    requires Honest(cfg, ch, states[0].l1, 0)
    ensures Honest(cfg, ch, states[i].l1, 0) && Increasing(states[i].l1)
  {
    hide Committed, Memory, Building, MatchesL1, ProposalOk, OutputRootOf;
    RunKeeps(cfg, ch, states, actions, i);
    RunL1Grows(cfg, ch, states, actions, i);
    var l0, l1 := states[0].l1, states[i].l1;
    forall k: nat | 0 < k <= |l1|
      ensures HonestAt(cfg, ch, l1, k)
    {
      if k <= |l0| {
        assert HonestAt(cfg, ch, l0, k);
        var prev: nat := k - 1;
        assert BlockOf(l1, k) == BlockOf(l0, k) && BlockOf(l1, prev) == BlockOf(l0, prev);
      }
    }
  }

  // ----- Where the guarantees stop -----

  /**
   The first block of a process that starts at a boundary panics exactly when deleting future withdrawals is disabled
   and no working tree is stored for the boundary.
   */
  lemma FirstBlockPanics(cfg: Config, db: ChildDb, b: Base, disableDelete: bool, prev: Query, cur: Query)
    requires db.synced == 0 && b.index >= 1 && b.sequence >= 1
    ensures Begun(cfg, Initialized(db, b, disableDelete), b.height + 1, prev, cur).1 == Panicked <==>
            disableDelete && b.height !in db.working
  {}
}
