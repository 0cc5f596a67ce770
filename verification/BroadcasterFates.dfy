/** Why a batch leaves both tables, and what a restart brings back. */
module BroadcasterFates {
  import opened Prelude
  import opened Broadcaster
  import opened BroadcasterRuns
  import opened BroadcasterTheorems

  // ----- Restarts -----

  /** A stored tx is put on record as seen on chain at a restart if and only if the chain's answers say so. */
  lemma RestartSettlesIff(s: Sys, answers: seq<Answer>, stamps: seq<nat>, loaded: map<Address, nat>, k: nat)
    requires Inv(s) && Enabled(s, Restart(answers, stamps, loaded)) && k < |LoadedTxs(s)|
    ensures var l, s' := LoadedTxs(s)[k].tx.msgs, Next(s, Restart(answers, stamps, loaded));
            && l !in s.fates && (l in s'.fates <==> Found(Heard(answers), k))
            && (l in s'.fates ==> s'.fates[l] == OnChain)
  {
    hide Inv, ToReprocess, Heard, LoadedTxs, LoadedMsgs, DeletePendingTxs, DeleteProcessedMsgs, SaveProcessedMsgs, Reloaded, Distinct, Found,
      Unrepeated;
    LoadedOnce(s);
    assert LoadedTxs(s)[k] in LoadedTxs(s);
    ReloadedIff(s.fates, LoadedTxs(s), LoadedMsgs(s), answers, k);
  }

  lemma ReloadedIff(fates: map<nat, Fate>, xs: seq<PendingTx>, ms: seq<ProcessedMsgs>, answers: seq<Answer>, k: nat)
    requires Unrepeated(xs, ms) && ToReprocess(xs, answers).Some?
    requires k < |xs| && xs[k].save && xs[k].tx.msgs !in fates
    ensures var l, r := xs[k].tx.msgs, Reloaded(fates, xs, ToReprocess(xs, answers).value);
            (l in r <==> Found(Heard(answers), k)) && (l in r ==> r[l] == OnChain)
  {
    hide ToReprocess, Heard, Reloaded, Found, Selects, Gone;
    var again := ToReprocess(xs, answers).value;
    var places := ReprocessIff(xs, answers);
    ReloadedIs(fates, xs, again);
    AgainIff(xs, ms, places, again, k);
    GoneIff(xs, ms, again, k);
  }

  lemma GoneIff(xs: seq<PendingTx>, ms: seq<ProcessedMsgs>, again: seq<PendingTx>, k: nat)
    requires Unrepeated(xs, ms) && k < |xs| && xs[k].save
    ensures Gone(xs, again, xs[k].tx.msgs) <==> xs[k] !in again
  {
    if Gone(xs, again, xs[k].tx.msgs) {
      var i :| 0 <= i < |xs| && xs[i].save && xs[i] !in again && xs[i].tx.msgs == xs[k].tx.msgs;
      assert i == k;
    }
  }

  /** What is loaded is saved, has no fate yet, and no two entries carry the same batch. */
  lemma LoadedOnce(s: Sys)
    requires Inv(s)
    ensures Unrepeated(LoadedTxs(s), LoadedMsgs(s))
    ensures forall x :: x in LoadedTxs(s) ==> x.save && x.tx.msgs !in s.fates
  {
    LoadsLive(s.pending, Live(s));
    LoadsInbox(s.processed, Inbox(s));
    InvConserved(s);
    hide Inv, Conserved, MirrorsTxs, MirrorsMsgs, Live, Inbox;
    LoadedUnrepeated(Live(s), Inbox(s), s.saved, s.fates, LoadedTxs(s), LoadedMsgs(s));
  }

  lemma AgainIff(xs: seq<PendingTx>, ms: seq<ProcessedMsgs>, places: seq<nat>, again: seq<PendingTx>, k: nat)
    requires Unrepeated(xs, ms) && Selects(xs, places, again) && k < |xs|
    ensures xs[k] in again <==> k in places
  {
    if k in places {
      var i :| 0 <= i < |places| && places[i] == k;
      assert again[i] == xs[k];
    }
    if xs[k] in again {
      var i :| 0 <= i < |again| && again[i] == xs[k];
      assert places[i] == k;
    }
  }

  /** The channel holds these txs and then these batches, all to be saved, under the new keys. */
  predicate Requeued(channel: seq<ProcessedMsgs>, again: seq<PendingTx>, ms: seq<ProcessedMsgs>)
  {
    && |channel| == |again| + |ms|
    && (forall i :: 0 <= i < |again| ==>
          channel[i].sender == again[i].sender && channel[i].msgs == again[i].tx.msgs && channel[i].save)
    && (forall i :: 0 <= i < |ms| ==> channel[|again| + i] == ms[i].(timestamp := channel[|again| + i].timestamp))
  }

  /**
   After a restart the channel holds first the stored txs that were not found on chain and then the stored batches, each
   in the order of its old key.
   */
  lemma RestartOrder(s: Sys, answers: seq<Answer>, stamps: seq<nat>, loaded: map<Address, nat>)
    returns (places: seq<nat>, again: seq<PendingTx>)
    requires Enabled(s, Restart(answers, stamps, loaded))
    ensures Selects(LoadedTxs(s), places, again) && Unfound(places, Heard(answers), |LoadedTxs(s)|)
    ensures Requeued(Next(s, Restart(answers, stamps, loaded)).channel, again, LoadedMsgs(s))
  {
    places := ReprocessIff(LoadedTxs(s), answers);
    again := ToReprocess(LoadedTxs(s), answers).value;
    hide ToReprocess, Heard, LoadedTxs, LoadedMsgs, DeletePendingTxs, DeleteProcessedMsgs, SaveProcessedMsgs, Reloaded, Distinct,
      Selects, Unfound, Requeued, Restamped, RestampedMsgs;
    ToReprocessShorter(LoadedTxs(s), answers);
    RestampedRequeues(again, LoadedMsgs(s), stamps[..|again|], stamps[|LoadedTxs(s)|..]);
  }

  lemma RestampedRequeues(again: seq<PendingTx>, ms: seq<ProcessedMsgs>, first: seq<nat>, second: seq<nat>)
    requires |first| == |again| && |second| == |ms|
    ensures Requeued(Restamped(again, first) + RestampedMsgs(ms, second), again, ms)
  {
  }

  // ----- Causes -----

  predicate FoundAgain(s: Sys, answers: seq<Answer>, l: nat)
  {
    exists k :: 0 <= k < |LoadedTxs(s)| && LoadedTxs(s)[k].tx.msgs == l && Found(Heard(answers), k)
  }

  /** The step gives batch l this fate, for the reason the fate names. */
  predicate Causes(s: Sys, a: Action, l: nat, f: Fate)
  {
    match f
    case OnChain =>
      || (a == Settle(true) && s.checker.Peeked? && s.checker.tx.tx.msgs == l)
      || (a.Restart? && FoundAgain(s, a.answers, l))
    case Ignored(e) =>
      && (e.Ignorable? || (e.OutputIndex? && e.expectedIndex > e.gotIndex))
      && (|| (a == Fail(e) && s.producer.Working? && s.producer.batch.msgs == l)
          || (a == Settle(false) && s.checker.Peeked? && s.checker.tx.tx.msgs == l))
    case Consumed(tx, account, onChain) =>
      a == Truncate(onChain) && s.checker == Missing(account) && tx in s.queue && tx.tx.msgs == l && tx.sequence < onChain
  }

  lemma StepCause(s: Sys, a: Action, l: nat)
    requires Inv(s) && Enabled(s, a) && l !in s.fates && l in Next(s, a).fates
    ensures Causes(s, a, l, Next(s, a).fates[l])
  {
    hide Inv, Fresh, SaveProcessedMsgs, DeleteProcessedMsgs, SavePendingTxs, DeletePendingTxs, Resequenced, LoadedTxs, LoadedMsgs,
      ToReprocess, Reloaded, Settled, Heard;
    match a {
      case Truncate(onChain) => TruncateCause(s, onChain, l);
      case Restart(answers, stamps, loaded) => RestartCause(s, answers, stamps, loaded, l);
      case _ =>
    }
  }

  lemma TruncateCause(s: Sys, onChain: nat, l: nat)
    requires s.checker.Missing? && onChain >= 1 && l !in s.fates && l in TruncatedSys(s, onChain).fates
    ensures Causes(s, Truncate(onChain), l, TruncatedSys(s, onChain).fates[l])
  {
    var gone := s.queue[..Leading(s.queue, onChain - 1)];
    SettledIs(s.fates, gone, s.checker.sender, onChain);
    SettledMsgs(s.fates, gone, s.checker.sender, onChain, l);
    hide Settled;
    var tx := TruncatedSys(s, onChain).fates[l].tx;
    var i :| 0 <= i < |gone| && gone[i] == tx;
    assert s.queue[i] == tx;
  }

  lemma {:induction false} SettledMsgs(fates: map<nat, Fate>, txs: seq<PendingTx>, account: Address, onChain: nat, l: nat)
    requires l !in fates
    ensures var r := Settled(fates, txs, account, onChain); l in r ==> r[l].Consumed? && r[l].tx.tx.msgs == l
  {
    if |txs| > 0 {
      SettledMsgs(fates, txs[..|txs| - 1], account, onChain, l);
    }
  }

  lemma RestartCause(s: Sys, answers: seq<Answer>, stamps: seq<nat>, loaded: map<Address, nat>, l: nat)
    requires Inv(s) && Enabled(s, Restart(answers, stamps, loaded))
    requires l !in s.fates && l in Next(s, Restart(answers, stamps, loaded)).fates
    ensures Causes(s, Restart(answers, stamps, loaded), l, Next(s, Restart(answers, stamps, loaded)).fates[l])
  {
    var xs := LoadedTxs(s);
    var again := ToReprocess(xs, answers).value;
    ReloadedIs(s.fates, xs, again);
    assert Gone(xs, again, l);
    var k :| 0 <= k < |xs| && xs[k].save && xs[k] !in again && xs[k].tx.msgs == l;
    hide Inv, ToReprocess, Heard, LoadedTxs, LoadedMsgs, DeletePendingTxs, DeleteProcessedMsgs, SaveProcessedMsgs, Reloaded, Distinct, Found;
    RestartSettlesIff(s, answers, stamps, loaded, k);
  }

  /** Every fate in every run has its cause: one step gave it, for the reason it names. */
  lemma {:induction false} RunCause(states: seq<Sys>, actions: seq<Action>, i: nat, l: nat) returns (j: nat)
    requires Run(states, actions) && Initial(states[0]) && i < |states| && l in states[i].fates
    ensures j < i && Causes(states[j], actions[j], l, states[i].fates[l])
    decreases i
  {
    hide Inv, Enabled, Next, Causes;
    assert i > 0;
    hide Initial;
    RunKeeps(states, actions);
    assert states[i - 1 + 1] == Next(states[i - 1], actions[i - 1]);
    if l in states[i - 1].fates {
      j := RunCause(states, actions, i - 1, l);
      StepGrows(states[i - 1], actions[i - 1]);
    } else {
      j := i - 1;
      StepCause(states[j], actions[j], l);
    }
  }
}
