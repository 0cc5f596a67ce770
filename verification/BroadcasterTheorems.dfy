/** What the broadcaster promises over every run, and where it falls short. */
module BroadcasterTheorems {
  import opened Prelude
  import opened Broadcaster
  import opened BroadcasterRuns

  // ----- Durability -----

  predicate InPending(s: Sys, k: nat, l: nat)
  {
    k in s.pending && s.pending[k].tx.msgs == l
  }

  predicate InProcessed(s: Sys, k: nat, l: nat)
  {
    k in s.processed && s.processed[k].msgs == l
  }

  /** The saved batch is in one table under one key, and nowhere else. */
  ghost predicate InOnePlace(s: Sys, l: nat)
  {
    || (exists k :: InPending(s, k, l)
                    && (forall k' :: InPending(s, k', l) ==> k' == k) && (forall k' :: !InProcessed(s, k', l)))
    || (exists k :: InProcessed(s, k, l)
                    && (forall k' :: InProcessed(s, k', l) ==> k' == k) && (forall k' :: !InPending(s, k', l)))
  }

  ghost predicate Nowhere(s: Sys, l: nat)
  {
    forall k :: !InPending(s, k, l) && !InProcessed(s, k, l)
  }

  /** Every entry of the tables is a saved token. */
  lemma EntryToken(s: Sys, k: nat, l: nat) returns (i: nat)
    requires Inv(s) && (InPending(s, k, l) || InProcessed(s, k, l))
    ensures i < |Tokens(s)| && Tokens(s)[i] == Token(k, l, true)
    ensures if InPending(s, k, l) then i < |Live(s)| else i >= |Live(s)|
  {
    if InPending(s, k, l) {
      i :| 0 <= i < |Live(s)| && Live(s)[i] == s.pending[k];
    } else {
      var j :| 0 <= j < |Inbox(s)| && Inbox(s)[j] == s.processed[k];
      i := |Live(s)| + j;
    }
  }

  lemma OneEntry(s: Sys, k: nat, k': nat, l: nat)
    requires Inv(s)
    requires InPending(s, k, l) || InProcessed(s, k, l)
    requires InPending(s, k', l) || InProcessed(s, k', l)
    ensures k == k' && InPending(s, k, l) == InPending(s, k', l)
    ensures l !in s.fates && l in s.saved
  {
    var i := EntryToken(s, k, l);
    var j := EntryToken(s, k', l);
    assert i == j;
  }

  lemma HeldEntry(s: Sys, l: nat) returns (k: nat)
    requires Inv(s) && l in s.saved && l !in s.fates
    ensures InPending(s, k, l) || InProcessed(s, k, l)
  {
    var i := HoldsAt(Tokens(s), l);
    k := Tokens(s)[i].stamp;
    if i < |Live(s)| {
      assert Tokens(s)[i] == TxToken(Live(s)[i]);
    } else {
      assert Tokens(s)[i] == BatchToken(Inbox(s)[i - |Live(s)|]);
    }
  }

  /** The two tables never share a key. */
  lemma KeysApart(s: Sys, k: nat, k': nat)
    requires Inv(s) && k in s.pending && k' in s.processed
    ensures k != k'
  {
    var i :| 0 <= i < |Live(s)| && Live(s)[i] == s.pending[k];
    var j :| 0 <= j < |Inbox(s)| && Inbox(s)[j] == s.processed[k'];
    var ts := Tokens(s);
    assert ts[i].stamp == k && ts[|Live(s)| + j].stamp == k';
  }

  lemma Durable(s: Sys, l: nat)
    requires Inv(s) && l in s.saved
    ensures if l in s.fates then Nowhere(s, l) else InOnePlace(s, l)
  {
    hide Inv;
    if l in s.fates {
      forall k
        ensures !InPending(s, k, l) && !InProcessed(s, k, l)
      {
        if InPending(s, k, l) || InProcessed(s, k, l) {
          OneEntry(s, k, k, l);
        }
      }
    } else {
      var k := HeldEntry(s, l);
      forall k' | InPending(s, k', l) || InProcessed(s, k', l)
        ensures k' == k && InPending(s, k', l) == InPending(s, k, l)
        ensures !(InPending(s, k', l) && InProcessed(s, k', l))
      {
        OneEntry(s, k, k', l);
        if k' in s.pending && k' in s.processed {
          KeysApart(s, k', k');
        }
      }
    }
  }

  /** In every state of every run a saved batch is in exactly one table under one key, unless it has met its fate. */
  lemma RunDurable(states: seq<Sys>, actions: seq<Action>)
    requires Run(states, actions) && Initial(states[0])
    ensures forall i, l :: 0 <= i < |states| && l in states[i].saved ==>
              if l in states[i].fates then Nowhere(states[i], l) else InOnePlace(states[i], l)
  {
    hide Inv, Initial, Nowhere, InOnePlace, Run;
    RunKeeps(states, actions);
    forall i, l | 0 <= i < |states| && l in states[i].saved
      ensures if l in states[i].fates then Nowhere(states[i], l) else InOnePlace(states[i], l)
    {
      Durable(states[i], l);
    }
  }

  ghost predicate Grows(f: map<nat, Fate>, f': map<nat, Fate>)
  {
    forall l :: l in f ==> l in f' && f'[l] == f[l]
  }

  /** Saved batches stay on record, and a fate never changes. */
  lemma StepGrows(s: Sys, a: Action)
    requires Inv(s) && Enabled(s, a)
    ensures s.saved <= Next(s, a).saved && Grows(s.fates, Next(s, a).fates)
  {
    hide Inv, Fresh, Settled, Reloaded, ToReprocess, SaveProcessedMsgs, DeleteProcessedMsgs, SavePendingTxs, DeletePendingTxs,
      Resequenced, LoadedTxs, LoadedMsgs;
    match a {
      case Fail(_) => if s.producer.batch.save { TokenOfBatch(s); }
      case Settle(_) => if s.checker.tx.save { CheckedTx(s); }
      case Truncate(onChain) => TruncateGrows(s, Leading(s.queue, onChain - 1), onChain);
      case Restart(answers, stamps, _) => RestartGrows(s, answers, stamps);
      case _ =>
    }
  }

  lemma CheckedTx(s: Sys)
    requires Inv(s) && s.checker.Peeked? && s.checker.tx.save
    ensures s.checker.tx.tx.msgs !in s.fates
  {
    TokenOfTx(s, 0);
  }

  lemma TruncateGrows(s: Sys, n: nat, onChain: nat)
    requires Inv(s) && s.checker.Missing? && n <= |s.queue|
    ensures Grows(s.fates, Settled(s.fates, s.queue[..n], s.checker.sender, onChain))
  {
    hide Conserved, MirrorsTxs, MirrorsMsgs;
    forall i | 0 <= i < n && s.queue[i].save
      ensures s.queue[i].tx.msgs !in s.fates
    {
      TokenOfTx(s, i);
    }
    SettledKeeps(s.fates, s.queue[..n], s.checker.sender, onChain);
  }

  lemma TokenOfBatch(s: Sys)
    requires Inv(s) && s.producer.Working? && s.producer.batch.save
    ensures s.producer.batch.msgs !in s.fates
  {
    assert Tokens(s)[|Live(s)|] == BatchToken(s.producer.batch);
  }

  lemma TokenOfTx(s: Sys, i: nat)
    requires Inv(s) && (s.checker.Peeked? || s.checker.Missing?) && i < |s.queue| && s.queue[i].save
    ensures s.queue[i].tx.msgs !in s.fates
  {
    assert Tokens(s)[i] == TxToken(s.queue[i]);
  }

  lemma {:induction false} SettledKeeps(fates: map<nat, Fate>, txs: seq<PendingTx>, account: Address, onChain: nat)
    requires forall i :: 0 <= i < |txs| && txs[i].save ==> txs[i].tx.msgs !in fates
    ensures forall l :: l in fates ==> l in Settled(fates, txs, account, onChain) && Settled(fates, txs, account, onChain)[l] == fates[l]
  {
    if |txs| > 0 {
      SettledKeeps(fates, txs[..|txs| - 1], account, onChain);
    }
  }

  lemma {:induction false} ReloadedKeeps(fates: map<nat, Fate>, txs: seq<PendingTx>, again: seq<PendingTx>)
    requires forall i :: 0 <= i < |txs| && txs[i].save ==> txs[i].tx.msgs !in fates
    ensures forall l :: l in fates ==> l in Reloaded(fates, txs, again) && Reloaded(fates, txs, again)[l] == fates[l]
  {
    if |txs| > 0 {
      ReloadedKeeps(fates, txs[..|txs| - 1], again);
    }
  }

  lemma RestartGrows(s: Sys, answers: seq<Answer>, stamps: seq<nat>)
    requires Inv(s) && CanRestart(s, answers, stamps)
    ensures Grows(s.fates, Reloaded(s.fates, LoadedTxs(s), ToReprocess(LoadedTxs(s), answers).value))
  {
    var xs := LoadedTxs(s);
    LoadsLive(s.pending, Live(s));
    LoadsInbox(s.processed, Inbox(s));
    hide Inv, Conserved, MirrorsTxs, MirrorsMsgs, Live, Inbox, Reloaded, ToReprocess;
    assert Conserved(TokensOf(Live(s), Inbox(s)), s.saved, s.fates) by {
      InvConserved(s);
    }
    LoadedUnrepeated(Live(s), Inbox(s), s.saved, s.fates, xs, LoadedMsgs(s));
    forall i | 0 <= i < |xs| && xs[i].save
      ensures xs[i].tx.msgs !in s.fates
    {
      assert xs[i] in xs;
    }
    ReloadedKeeps(s.fates, xs, ToReprocess(xs, answers).value);
  }

  lemma InvConserved(s: Sys)
    requires Inv(s)
    ensures Conserved(TokensOf(Live(s), Inbox(s)), s.saved, s.fates)
  {
  }

  /** A batch once saved is never forgotten, and the fate it meets is final. */
  lemma {:induction false} RunGrows(states: seq<Sys>, actions: seq<Action>, i: nat, j: nat)
    requires Run(states, actions) && Initial(states[0]) && i <= j < |states|
    ensures states[i].saved <= states[j].saved && Grows(states[i].fates, states[j].fates)
    decreases j
  {
    hide Inv, Enabled, Next, Initial;
    if i < j {
      RunGrows(states, actions, i, j - 1);
      RunKeeps(states, actions);
      StepGrows(states[j - 1], actions[j - 1]);
      assert states[j - 1 + 1] == Next(states[j - 1], actions[j - 1]);
    }
  }

  predicate Waits(channel: seq<ProcessedMsgs>, l: nat)
  {
    exists k :: 0 <= k < |channel| && channel[k].msgs == l && channel[k].save
  }

  /** After a restart every saved batch without a fate is waiting in the channel again. */
  lemma RestartRequeues(states: seq<Sys>, actions: seq<Action>, i: nat, l: nat)
    requires Run(states, actions) && Initial(states[0]) && i < |actions| && actions[i].Restart?
    requires l in states[i + 1].saved && l !in states[i + 1].fates
    ensures Waits(states[i + 1].channel, l)
  {
    var s := states[i + 1];
    assert s == Next(states[i], actions[i]);
    assert s.queue == [] && s.producer == Waiting && s.checker == Polling by {
      hide ToReprocess, Reloaded, SaveProcessedMsgs, DeleteProcessedMsgs, DeletePendingTxs, LoadedTxs, LoadedMsgs;
    }
    RunKeeps(states, actions);
    hide Run, Enabled, Next, Initial;
    ChannelHolds(s, l);
  }

  lemma ChannelHolds(s: Sys, l: nat)
    requires Conserved(Tokens(s), s.saved, s.fates) && s.queue == [] && s.producer == Waiting && s.checker == Polling
    requires l in s.saved && l !in s.fates
    ensures Waits(s.channel, l)
  {
    assert Holds(Tokens(s), l);
    hide Conserved, Holds;
    assert Live(s) == [];
    assert Inbox(s) == s.channel;
    var k := HoldsAt(Tokens(s), l);
    assert Tokens(s)[k] == BatchToken(s.channel[k]);
  }

  // ----- The queue -----

  /**
   The table holds exactly the saved part of the queue, but for the head whose deletion is committed and not yet
   followed by the queue, and the transaction that is committed and not yet queued. While the checker holds the mutex
   the table is already what the queue is about to become.
   */
  lemma RunMirrors(states: seq<Sys>, actions: seq<Action>, i: nat)
    requires Run(states, actions) && Initial(states[0]) && i < |states|
    ensures var s := states[i];
            var queue := match s.checker {
                case Deleted(_) => s.queue[if |s.queue| > 0 then 1 else 0..]
                case Truncating(n) => s.queue[if n <= |s.queue| then n else |s.queue|..]
                case Rebuilding(q, _) => q
                case _ => s.queue };
            MirrorsTxs(s.pending, queue + if s.producer.Committed? then [s.producer.tx] else [])
  {
    hide Run, Initial;
    RunKeeps(states, actions);
    assert Inv(states[i]);
    hide Conserved, MirrorsTxs, MirrorsMsgs;
  }

  /** The tx taken off the queue is the one that was checked. */
  lemma RunRemovesChecked(states: seq<Sys>, actions: seq<Action>, i: nat)
    requires Run(states, actions) && Initial(states[0]) && i < |actions| && actions[i] == Dequeue
    ensures states[i].queue == [states[i].checker.tx] + states[i + 1].queue
  {
    hide Initial;
    RunKeeps(states, actions);
  }

  predicate SentBy(q: seq<PendingTx>, a: Address)
  {
    forall i :: 0 <= i < |q| ==> q[i].sender == a
  }

  predicate BatchesOf(ms: seq<ProcessedMsgs>, a: Address)
  {
    forall i :: 0 <= i < |ms| ==> ms[i].sender == a
  }

  predicate OwnFates(fates: map<nat, Fate>)
  {
    forall l :: l in fates && fates[l].Consumed? ==> fates[l].tx.sender == fates[l].account
  }

  predicate CheckerOf(c: Checker, a: Address)
  {
    match c
    case Polling => true
    case Peeked(tx) => tx.sender == a
    case Deleted(tx) => tx.sender == a
    case Missing(sender) => sender == a
    case Truncating(_) => true
    case Rebuilding(q, sender) => SentBy(q, a) && sender == a
  }

  /** Only one account sends. */
  predicate OneSender(s: Sys, a: Address)
  {
    && SentBy(s.queue, a) && BatchesOf(s.channel, a) && CheckerOf(s.checker, a) && OwnFates(s.fates)
    && (s.producer.Working? ==> s.producer.batch.sender == a)
    && (s.producer.Committed? ==> s.producer.tx.sender == a)
  }

  lemma OneSenderStep(s: Sys, act: Action, a: Address)
    requires Inv(s) && Enabled(s, act) && OneSender(s, a) && (act.Save? ==> act.batch.sender == a)
    ensures OneSender(Next(s, act), a)
  {
    match act {
      case Truncate(onChain) =>
        OneSenderTruncate(s, onChain, a);
      case Restart(answers, stamps, loaded) =>
        OneSenderRestart(s, answers, stamps, loaded, a);
      case _ =>
        hide Inv, Fresh;
        if act.Save? || act.Take? || act.Broadcast? || act.CommitFails? || act.Fail? || act.Enqueue? {
          OneSenderProduces(s, act, a);
        } else {
          OneSenderChecks(s, act, a);
        }
    }
  }

  lemma OneSenderProduces(s: Sys, act: Action, a: Address)
    requires Enabled(s, act) && OneSender(s, a) && (act.Save? ==> act.batch.sender == a)
    requires act.Save? || act.Take? || act.Broadcast? || act.CommitFails? || act.Fail? || act.Enqueue?
    ensures OneSender(Next(s, act), a)
  {
    hide Fresh, CanRestart, SaveProcessedMsgs, DeleteProcessedMsgs, SavePendingTxs, Resequenced, CheckerOf;
  }

  lemma OneSenderChecks(s: Sys, act: Action, a: Address)
    requires Enabled(s, act) && OneSender(s, a)
    requires act.Peek? || act.Settle? || act.Dequeue? || act.NotFound? || act.Rebuild? || act.PublishRebuild?
             || act.PublishTruncate? || act.Continue?
    ensures OneSender(Next(s, act), a)
  {
    hide Fresh, CanRestart, DeletePendingTxs, SavePendingTxs, BatchesOf;
  }

  lemma OneSenderTruncate(s: Sys, onChain: nat, a: Address)
    requires OneSender(s, a) && s.checker.Missing? && onChain >= 1
    ensures OneSender(TruncatedSys(s, onChain), a)
  {
    var n := Leading(s.queue, onChain - 1);
    SettledIs(s.fates, s.queue[..n], s.checker.sender, onChain);
    hide Settled, DeletePendingTxs;
  }

  lemma LiveSentBy(s: Sys, a: Address)
    requires OneSender(s, a)
    ensures SentBy(Live(s), a) && BatchesOf(Inbox(s), a)
  {
  }

  lemma InvMirrors(s: Sys)
    requires Inv(s)
    ensures MirrorsTxs(s.pending, Live(s)) && MirrorsMsgs(s.processed, Inbox(s))
  {
    hide Conserved, MirrorsTxs, MirrorsMsgs;
  }

  lemma LoadedSentBy(s: Sys, a: Address)
    requires Inv(s) && OneSender(s, a)
    ensures SentBy(LoadedTxs(s), a) && BatchesOf(LoadedMsgs(s), a)
  {
    LiveSentBy(s, a);
    InvMirrors(s);
    hide Inv, OneSender, Live, Inbox, MirrorsTxs, MirrorsMsgs, SentBy, BatchesOf;
    ValuesSentBy(s.pending, Live(s), a);
    ValuesBatchesOf(s.processed, Inbox(s), a);
  }

  lemma ValuesSentBy(t: PendingTable, q: seq<PendingTx>, a: Address)
    requires MirrorsTxs(t, q) && SentBy(q, a)
    ensures SentBy(Values(t, Ascending(t.Keys)), a)
  {
    var keys := Ascending(t.Keys);
    forall i | 0 <= i < |keys|
      ensures t[keys[i]].sender == a
    {
      assert keys[i] in t.Keys;
    }
  }

  lemma ValuesBatchesOf(t: ProcessedTable, ms: seq<ProcessedMsgs>, a: Address)
    requires MirrorsMsgs(t, ms) && BatchesOf(ms, a)
    ensures BatchesOf(Values(t, Ascending(t.Keys)), a)
  {
    var keys := Ascending(t.Keys);
    forall i | 0 <= i < |keys|
      ensures t[keys[i]].sender == a
    {
      assert keys[i] in t.Keys;
    }
  }

  lemma RestampedBy(again: seq<PendingTx>, xs: seq<PendingTx>, ms: seq<ProcessedMsgs>, stamps: seq<nat>, a: Address)
    requires |again| <= |xs| && |stamps| == |xs| + |ms| && SentBy(xs, a) && BatchesOf(ms, a)
    requires forall x :: x in again ==> x in xs
    ensures BatchesOf(Restamped(again, stamps[..|again|]) + RestampedMsgs(ms, stamps[|xs|..]), a)
  {
    forall i | 0 <= i < |again|
      ensures again[i].sender == a
    {
      assert again[i] in xs;
    }
  }

  lemma OneSenderRestart(s: Sys, answers: seq<Answer>, stamps: seq<nat>, loaded: map<Address, nat>, a: Address)
    requires Inv(s) && OneSender(s, a) && CanRestart(s, answers, stamps)
    ensures OneSender(Restarted(s, answers, stamps, loaded), a)
  {
    hide Inv, LoadedTxs, LoadedMsgs, Reloaded, ToReprocess, DeletePendingTxs, DeleteProcessedMsgs, SaveProcessedMsgs, Distinct;
    var xs, ms := LoadedTxs(s), LoadedMsgs(s);
    var again := ToReprocess(xs, answers).value;
    LoadedSentBy(s, a);
    ToReprocessShorter(xs, answers);
    RestampedBy(again, xs, ms, stamps, a);
    ReloadedIs(s.fates, xs, again);
  }

  /** With one sending account, a truncation removes exactly the txs the chain has accounted for. */
  lemma {:induction false} RunOneSender(states: seq<Sys>, actions: seq<Action>, a: Address)
    requires Run(states, actions) && Initial(states[0])
    requires forall i :: 0 <= i < |actions| && actions[i].Save? ==> actions[i].batch.sender == a
    ensures forall i :: 0 <= i < |states| ==> OneSender(states[i], a)
  {
    hide Inv, Enabled, Next, Initial, OneSender;
    var n := |actions|;
    if n == 0 {
      OneSenderInitial(states[0], a);
    } else {
      RunOneSender(states[..n], actions[..n - 1], a);
      RunKeeps(states, actions);
      assert states[..n][n - 1] == states[n - 1];
      OneSenderStep(states[n - 1], actions[n - 1], a);
      forall i | 0 <= i < |states|
        ensures OneSender(states[i], a)
      {
        if i < n {
          assert states[..n][i] == states[i];
        }
      }
    }
  }

  lemma OneSenderInitial(s: Sys, a: Address)
    requires Initial(s)
    ensures OneSender(s, a)
  {
  }

  /** With one sender a batch only leaves the tables seen on chain, dropped by an ignore rule, or with its own sequence consumed. */
  lemma RunFates(states: seq<Sys>, actions: seq<Action>, a: Address, i: nat, l: nat)
    requires Run(states, actions) && Initial(states[0]) && i < |states| && l in states[i].fates
    requires forall k :: 0 <= k < |actions| && actions[k].Save? ==> actions[k].batch.sender == a
    ensures match states[i].fates[l]
            case OnChain => true
            case Ignored(e) => e.Ignorable? || (e.OutputIndex? && e.expectedIndex > e.gotIndex)
            case Consumed(tx, account, onChain) => tx.sender == account && tx.sequence < onChain
  {
    hide Run, Initial;
    RunOneSender(states, actions, a);
    RunKeeps(states, actions);
    assert Inv(states[i]) && OneSender(states[i], a);
    hide Conserved, MirrorsTxs, MirrorsMsgs, CheckerOk, CheckerOf;
  }

  predicate Steps(s: Sys, a: Action, s': Sys)
  {
    Enabled(s, a) && Next(s, a) == s'
  }

  lemma Extend(states: seq<Sys>, actions: seq<Action>, a: Action, s': Sys)
    requires Run(states, actions) && Steps(states[|actions|], a, s')
    ensures Run(states + [s'], actions + [a])
  {
    var states', actions' := states + [s'], actions + [a];
    forall i | 0 <= i < |actions'|
      ensures Enabled(states'[i], actions'[i]) && states'[i + 1] == Next(states'[i], actions'[i])
    {
      if i < |actions| {
        assert states'[i] == states[i] && states'[i + 1] == states[i + 1];
      }
    }
  }

  lemma SaveSteps(s: Sys, m: ProcessedMsgs)
    requires s.processed.Keys == s.saved && Live(s) == [] && (s.producer.Waiting?)
    requires m.save && m.msgs == m.timestamp && m.msgs !in s.saved
    requires forall i :: 0 <= i < |s.channel| ==> s.channel[i].timestamp in s.saved
    ensures Steps(s, Save(m), s.(processed := s.processed[m.timestamp := m], channel := s.channel + [m], saved := s.saved + {m.msgs}))
  {
    assert Inbox(s) == s.channel;
    assert SaveProcessedMsgs(s.processed, [m]) == s.processed[m.timestamp := m];
  }

  /** A batch is taken from the channel, broadcast and queued. */
  lemma BroadcastSteps(s: Sys, m: ProcessedMsgs, tx: PendingTx)
    requires s.producer.Waiting? && s.checker.Polling? && |s.channel| > 0 && s.channel[0] == m && m.save
    requires m.sender in s.sequences && tx == PendingTx(m.sender, s.sequences[m.sender], Tx(m.msgs, 0), m.timestamp, true)
    ensures var s1 := s.(producer := Working(m), channel := s.channel[1..]);
            var s2 := s1.(processed := s.processed - {m.timestamp}, pending := s.pending[m.timestamp := tx],
                          sequences := s.sequences[m.sender := tx.sequence + 1], producer := Committed(tx));
            && Steps(s, Take, s1) && Steps(s1, Broadcast(0), s2)
            && Steps(s2, Enqueue, s2.(queue := s.queue + [tx], producer := Waiting))
  {
    assert DeleteProcessedMsgs(s.processed, [m]) == s.processed - {m.timestamp};
    assert SavePendingTxs(s.pending, [tx]) == s.pending[m.timestamp := tx];
  }

  lemma {:induction false} BroadcastRun(states: seq<Sys>, actions: seq<Action>, m: ProcessedMsgs, tx: PendingTx)
    returns (states': seq<Sys>, actions': seq<Action>)
    requires Run(states, actions)
    requires var s := states[|actions|];
             && s.producer.Waiting? && s.checker.Polling? && |s.channel| > 0 && s.channel[0] == m && m.save
             && m.sender in s.sequences && tx == PendingTx(m.sender, s.sequences[m.sender], Tx(m.msgs, 0), m.timestamp, true)
    ensures Run(states', actions') && states'[0] == states[0]
    ensures var s := states[|actions|];
            states'[|actions'|] ==
            s.(channel := s.channel[1..], processed := s.processed - {m.timestamp}, pending := s.pending[m.timestamp := tx],
               sequences := s.sequences[m.sender := tx.sequence + 1], queue := s.queue + [tx])
  {
    var s := states[|actions|];
    var s1 := s.(producer := Working(m), channel := s.channel[1..]);
    var s2 := s1.(processed := s.processed - {m.timestamp}, pending := s.pending[m.timestamp := tx],
                  sequences := s.sequences[m.sender := tx.sequence + 1], producer := Committed(tx));
    var s3 := s2.(queue := s.queue + [tx], producer := Waiting);
    BroadcastSteps(s, m, tx);
    hide Steps;
    Extend(states, actions, Take, s1);
    states', actions' := states + [s1], actions + [Take];
    Extend(states', actions', Broadcast(0), s2);
    states', actions' := states' + [s2], actions' + [Broadcast(0)];
    Extend(states', actions', Enqueue, s3);
    states', actions' := states' + [s3], actions' + [Enqueue];
  }

  lemma TruncatesBoth(s: Sys, ta: PendingTx, tb: PendingTx)
    requires ta == PendingTx("a", 0, Tx(1, 0), 1, true) && tb == PendingTx("b", 0, Tx(2, 0), 2, true)
    requires s.queue == [ta, tb] && s.pending == map[1 := ta, 2 := tb] && s.checker == Missing("a") && s.fates == map[]
    ensures Steps(s, Truncate(1), s.(pending := map[], checker := Truncating(2),
                                     fates := map[1 := Consumed(ta, "a", 1), 2 := Consumed(tb, "a", 1)]))
  {
    assert Leading(s.queue, 0) == 2;
    assert s.queue[..2] == [ta, tb] && [ta, tb][..1] == [ta] && [ta][..0] == [];
    assert DeletePendingTxs(s.pending, [ta]) == map[2 := tb];
    assert Settled(map[], [ta], "a", 1) == map[1 := Consumed(ta, "a", 1)];
  }

  /** The account peeked at is asked for, and both txs are dropped. */
  lemma TruncateRun(states: seq<Sys>, actions: seq<Action>, ta: PendingTx, tb: PendingTx)
    returns (states': seq<Sys>, actions': seq<Action>)
    requires Run(states, actions)
    requires ta == PendingTx("a", 0, Tx(1, 0), 1, true) && tb == PendingTx("b", 0, Tx(2, 0), 2, true)
    requires var s := states[|actions|];
             s.queue == [ta, tb] && s.pending == map[1 := ta, 2 := tb] && s.checker == Polling && s.fates == map[]
    ensures Run(states', actions') && states'[0] == states[0]
    ensures states'[|actions'|].fates == map[1 := Consumed(ta, "a", 1), 2 := Consumed(tb, "a", 1)]
  {
    var s := states[|actions|];
    var s1, s2 := s.(checker := Peeked(ta)), s.(checker := Missing("a"));
    var s3 := s2.(pending := map[], checker := Truncating(2), fates := map[1 := Consumed(ta, "a", 1), 2 := Consumed(tb, "a", 1)]);
    assert Steps(s, Peek, s1) && Steps(s1, NotFound, s2);
    TruncatesBoth(s2, ta, tb);
    hide Steps;
    Extend(states, actions, Peek, s1);
    states', actions' := states + [s1], actions + [Peek];
    Extend(states', actions', NotFound, s2);
    states', actions' := states' + [s2], actions' + [NotFound];
    Extend(states', actions', Truncate(1), s3);
    states', actions' := states' + [s3], actions' + [Truncate(1)];
  }

  lemma TwoSavesRun(ma: ProcessedMsgs, mb: ProcessedMsgs) returns (states: seq<Sys>, actions: seq<Action>)
    requires ma == ProcessedMsgs("a", 1, 1, true) && mb == ProcessedMsgs("b", 2, 2, true)
    ensures Run(states, actions) && Initial(states[0])
    ensures states[|actions|] == Sys(map[1 := ma, 2 := mb], map[], [], map["a" := 0, "b" := 0], [ma, mb], Waiting, Polling, {1, 2}, map[])
  {
    var s0 := Sys(map[], map[], [], map["a" := 0, "b" := 0], [], Waiting, Polling, {}, map[]);
    var s1 := s0.(processed := map[1 := ma], channel := [ma], saved := {1});
    SaveSteps(s0, ma);
    SaveSteps(s1, mb);
    hide Steps;
    states, actions := [s0], [];
    Extend(states, actions, Save(ma), s1);
    states, actions := states + [s1], actions + [Save(ma)];
    Extend(states, actions, Save(mb), s1.(processed := map[1 := ma, 2 := mb], channel := [ma, mb], saved := {1, 2}));
    states := states + [s1.(processed := map[1 := ma, 2 := mb], channel := [ma, mb], saved := {1, 2})];
    actions := actions + [Save(mb)];
  }

  /** With two accounts a truncation can drop a tx of the account that was not asked about: its batch is lost. */
  lemma TwoSendersLoseTx() returns (states: seq<Sys>, actions: seq<Action>)
    ensures Run(states, actions) && Initial(states[0])
    ensures var last := states[|actions|];
            2 in last.fates && last.fates[2] == Consumed(PendingTx("b", 0, Tx(2, 0), 2, true), "a", 1)
  {
    hide Initial;
    var ma, mb := ProcessedMsgs("a", 1, 1, true), ProcessedMsgs("b", 2, 2, true);
    var ta, tb := PendingTx("a", 0, Tx(1, 0), 1, true), PendingTx("b", 0, Tx(2, 0), 2, true);
    states, actions := TwoSavesRun(ma, mb);
    states, actions := BroadcastRun(states, actions, ma, ta);
    states, actions := BroadcastRun(states, actions, mb, tb);
    states, actions := TruncateRun(states, actions, ta, tb);
  }
}
