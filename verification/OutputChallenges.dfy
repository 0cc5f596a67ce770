/** The executor and the challenger together: which outputs get challenged. */
module OutputChallenges {
  import opened Prelude
  import opened ChildTables
  import opened L1Outputs
  import ER = ExecutorRuns
  import ET = ExecutorTheorems
  import CR = ChallengerRuns

  /** The pending event the challenger's host registers for output k of L1. */
  function Registered(l1: seq<L1Output>, k: nat): Proposal
    requires 1 <= k <= |l1|
  {
    Proposal(k, l1[k - 1].l2BlockNumber, l1[k - 1].outputRoot)
  }

  /** How an output event is compared with the pending one. */
  predicate OutputEqual(pending: Proposal, event: Proposal)
  {
    && pending.l2BlockNumber == event.l2BlockNumber
    && pending.outputIndex == event.outputIndex
    && pending.outputRoot == event.outputRoot
  }

  /**
   Over any run of the challenger, started at any output boundary, with any outputs on L1: each output from the boundary
   up to the open tree is checked exactly once, in order, and it is found to mismatch exactly when it is not honest.
   */
  lemma ChallengedIffDishonest(cfg: Config, ch: Chain, states: seq<CR.Sys>, actions: seq<CR.Action>, i: nat, n: nat)
    requires Consecutive(ch) && CR.Run(cfg, ch, states, actions) && CR.Initial(ch, states[0]) && i < |states|
    requires n < |states[i].checked|
    ensures var s, e := states[i], states[i].checked[n];
            && e.outputIndex == s.base.index + n
            && |s.checked| == At(s.ch.db.working, s.base, s.synced).index - s.base.index
            && 1 <= e.outputIndex <= |s.l1|
            && (OutputEqual(Registered(s.l1, e.outputIndex), e) <==> HonestAt(cfg, ch, s.l1, e.outputIndex))
  {
    hide OutputRootOf;
    CR.RunKeeps(cfg, ch, states, actions, i);
    assert CR.EventOk(cfg, ch, states[i].l1, states[i].checked[n]);
  }

  lemma HonestPrefix(cfg: Config, ch: Chain, l1: seq<L1Output>, more: seq<L1Output>, k: nat)
    requires l1 <= more && 1 <= k <= |l1| && HonestAt(cfg, ch, more, k)
    ensures HonestAt(cfg, ch, l1, k)
  {
    hide OutputRootOf;
    var prev: nat := k - 1;
    assert BlockOf(l1, k) == BlockOf(more, k) && BlockOf(l1, prev) == BlockOf(more, prev);
  }

  /**
   An honest executor is never output-challenged: whatever aborts, restarts and resets the executor went through, and
   whatever the challenger went through, every output the challenger checks equals the one L1 recorded.
   */
  lemma HonestExecutorNeverChallenged(
    cfg: Config, ch: Chain,
    executor: seq<ER.Sys>, ea: seq<ER.Action>, i: nat,
    challenger: seq<CR.Sys>, ca: seq<CR.Action>, j: nat, n: nat)
    requires Consecutive(ch)
    requires ER.Run(cfg, ch, executor, ea) && ER.Initial(cfg, ch, executor[0]) && i < |executor|
    requires Honest(cfg, ch, executor[0].l1, 0)
    requires CR.Run(cfg, ch, challenger, ca) && CR.Initial(ch, challenger[0]) && j < |challenger|
    requires challenger[j].l1 <= executor[i].l1
    requires n < |challenger[j].checked|
    ensures var e := challenger[j].checked[n];
            && 1 <= e.outputIndex <= |executor[i].l1|
            && OutputEqual(Registered(executor[i].l1, e.outputIndex), e)
  {
    hide HonestAt;
    ET.RunStaysHonest(cfg, ch, executor, ea, i);
    ChallengedIffDishonest(cfg, ch, challenger, ca, j, n);
    HonestPrefix(cfg, ch, challenger[j].l1, executor[i].l1, challenger[j].checked[n].outputIndex);
  }
}
