/** The order of account sequences along the queue, and the removal of transactions by sequence. */
module BroadcasterOrder {
  import opened Prelude
  import opened Broadcaster
  import opened BroadcasterRuns
  import opened BroadcasterTheorems

  /** Each sender's sequences increase along the list, and the account is past all of them. */
  predicate Ordered(q: seq<PendingTx>, sequences: map<Address, nat>)
  {
    && (forall i, j :: 0 <= i < j < |q| && q[i].sender == q[j].sender ==> q[i].sequence < q[j].sequence)
    && (forall i :: 0 <= i < |q| ==> q[i].sender in sequences && q[i].sequence < sequences[q[i].sender])
  }

  /** The queue, and the transaction not queued yet. */
  function Flight(s: Sys): seq<PendingTx>
  {
    s.queue + (if s.producer.Committed? then [s.producer.tx] else [])
  }

  predicate InOrder(s: Sys)
  {
    Ordered(Flight(s), s.sequences)
  }

  lemma OrderedAppend(q: seq<PendingTx>, sequences: map<Address, nat>, tx: PendingTx)
    requires Ordered(q, sequences) && tx.sender in sequences && tx.sequence == sequences[tx.sender]
    ensures Ordered(q + [tx], sequences[tx.sender := tx.sequence + 1])
  {
  }

  lemma OrderedRaise(q: seq<PendingTx>, sequences: map<Address, nat>, addr: Address, sequence: nat)
    requires Ordered(q, sequences)
    requires forall i :: 0 <= i < |q| && q[i].sender == addr ==> q[i].sequence < sequence
    ensures Ordered(q, sequences[addr := sequence])
  {
  }

  lemma OrderedBump(q: seq<PendingTx>, sequences: map<Address, nat>, addr: Address)
    requires Ordered(q, sequences) && addr in sequences
    ensures Ordered(q, sequences[addr := sequences[addr] + 1])
  {
    OrderedRaise(q, sequences, addr, sequences[addr] + 1);
  }

  lemma OrderedSuffix(q: seq<PendingTx>, sequences: map<Address, nat>, n: nat)
    requires Ordered(q, sequences) && n <= |q|
    ensures Ordered(q[n..], sequences)
  {
  }

  lemma OrderedSame(q: seq<PendingTx>, q': seq<PendingTx>, sequences: map<Address, nat>)
    requires Ordered(q, sequences) && |q'| == |q|
    requires forall i :: 0 <= i < |q| ==> q'[i].sender == q[i].sender && q'[i].sequence == q[i].sequence
    ensures Ordered(q', sequences)
  {
  }

  /** In an ordered queue the last sequence of a sender is its largest. */
  lemma {:induction false} LastIsLargest(q: seq<PendingTx>, addr: Address)
    requires forall i, j :: 0 <= i < j < |q| && q[i].sender == q[j].sender ==> q[i].sequence < q[j].sequence
    ensures forall i :: 0 <= i < |q| && q[i].sender == addr ==> q[i].sequence <= LastSequence(q, addr)
  {
    if |q| > 0 && q[|q| - 1].sender != addr {
      var q' := q[..|q| - 1];
      LastIsLargest(q', addr);
      assert forall i :: 0 <= i < |q'| ==> q[i] == q'[i];
    }
  }

  // ----- Sequence mismatches -----

  predicate HasPending(q: seq<PendingTx>, addr: Address)
  {
    exists i :: 0 <= i < |q| && q[i].sender == addr
  }

  lemma {:induction false} LastIsPending(q: seq<PendingTx>, addr: Address) returns (i: nat)
    requires HasPending(q, addr)
    ensures i < |q| && q[i].sender == addr && q[i].sequence == LastSequence(q, addr)
  {
    if q[|q| - 1].sender == addr {
      i := |q| - 1;
    } else {
      var k :| 0 <= k < |q| && q[k].sender == addr;
      assert q[..|q| - 1][k] == q[k];
      i := LastIsPending(q[..|q| - 1], addr);
    }
  }

  /** The account stays past its pending txs unless the expected sequence is above the reported one and still pending. */
  lemma MismatchKeepsOrder(q: seq<PendingTx>, sequences: map<Address, nat>, addr: Address, e: MsgError)
    requires Ordered(q, sequences) && addr in sequences
    ensures Ordered(q, sequences[addr := Resequenced(q, addr, sequences[addr], e)]) <==>
            !(e.SequenceMismatch? && e.got < e.expected <= LastSequence(q, addr) && HasPending(q, addr))
  {
    LastIsLargest(q, addr);
    if e.SequenceMismatch? && e.got < e.expected <= LastSequence(q, addr) && HasPending(q, addr) {
      var i := LastIsPending(q, addr);
      assert q[i].sequence >= e.expected;
    } else {
      forall i | 0 <= i < |q| && q[i].sender == addr
        ensures q[i].sequence < Resequenced(q, addr, sequences[addr], e)
      {
        assert HasPending(q, addr);
      }
      OrderedRaise(q, sequences, addr, Resequenced(q, addr, sequences[addr], e));
    }
  }

  /** A reported sequence other than the one signed with can bring a pending sequence into use again. */
  lemma MismatchReusesSequence()
    ensures var q := [PendingTx("a", 1, Tx(0, 0), 0, true)];
            && Ordered(q, map["a" := 2])
            && Resequenced(q, "a", 2, SequenceMismatch(1, 0)) == 1 == q[0].sequence
  {
    var q := [PendingTx("a", 1, Tx(0, 0), 0, true)];
    assert q[0].sender == "a";
    assert LastSequence(q, "a") == 1;
  }

  // ----- Steps -----

  /** The mismatch brings a sequence into use again that is still pending. */
  predicate ReusesSequence(s: Sys, a: Action)
  {
    && a.Fail? && a.error.SequenceMismatch? && s.producer.Working?
    && a.error.got < a.error.expected <= LastSequence(s.queue, s.producer.batch.sender)
    && HasPending(s.queue, s.producer.batch.sender)
  }

  /** A chain that reports the sequence the transaction was signed with never does that. */
  lemma EchoKeepsOrder(s: Sys, e: MsgError)
    requires InOrder(s) && s.producer.Working? && s.producer.batch.sender in s.sequences
    requires e.SequenceMismatch? ==> e.got == s.sequences[s.producer.batch.sender]
    ensures !ReusesSequence(s, Fail(e))
  {
    var addr := s.producer.batch.sender;
    assert Flight(s) == s.queue;
    if ReusesSequence(s, Fail(e)) {
      var i := LastIsPending(s.queue, addr);
    }
  }

  /** Every step keeps the sequences in order, but for a mismatch that brings a pending one into use again. */
  lemma StepOrderIff(s: Sys, a: Action)
    requires Inv(s) && Enabled(s, a) && InOrder(s)
    ensures InOrder(Next(s, a)) <==> !ReusesSequence(s, a)
  {
    hide InOrder;
    match a {
      case Fail(e) => FailOrderIff(s, e);
      case Broadcast(memo) => BroadcastOrder(s, memo);
      case CommitFails => CommitFailsOrder(s);
      case Dequeue => ShorterOrder(s, 1);
      case PublishRebuild => PublishRebuildOrder(s);
      case PublishTruncate => ShorterOrder(s, s.checker.count);
      case Restart(_, _, _) => EmptyOrder(Next(s, a));
      case _ =>
        FlightKept(s, a);
        SameOrder(s, Next(s, a));
    }
  }

  lemma CommitFailsOrder(s: Sys)
    requires Enabled(s, CommitFails) && InOrder(s)
    ensures InOrder(Next(s, CommitFails))
  {
    OrderedBump(Flight(s), s.sequences, s.producer.batch.sender);
  }

  lemma ShorterOrder(s: Sys, n: nat)
    requires InOrder(s) && n <= |s.queue|
    ensures InOrder(s.(queue := s.queue[n..], checker := Polling))
  {
    OrderedSuffix(Flight(s), s.sequences, n);
    assert Flight(s.(queue := s.queue[n..], checker := Polling)) == Flight(s)[n..];
  }

  lemma EmptyOrder(s: Sys)
    requires s.queue == [] && s.producer == Waiting
    ensures InOrder(s)
  {
  }

  lemma SameOrder(s: Sys, s': Sys)
    requires InOrder(s) && Flight(s') == Flight(s) && s'.sequences == s.sequences
    ensures InOrder(s')
  {
  }

  lemma FlightKept(s: Sys, a: Action)
    requires Enabled(s, a)
    requires a.Save? || a.Take? || a.Enqueue? || a.Peek? || a.Settle? || a.NotFound? || a.Rebuild? || a.Truncate? || a.Continue?
    ensures Flight(Next(s, a)) == Flight(s) && Next(s, a).sequences == s.sequences
  {
    hide SavePendingTxs, DeletePendingTxs, SaveProcessedMsgs, Settled, Fresh, CanRestart;
  }

  lemma FailOrderIff(s: Sys, e: MsgError)
    requires Enabled(s, Fail(e)) && InOrder(s)
    ensures InOrder(Next(s, Fail(e))) <==> !ReusesSequence(s, Fail(e))
  {
    hide DeleteProcessedMsgs;
    assert Flight(s) == s.queue && Flight(Next(s, Fail(e))) == s.queue;
    MismatchKeepsOrder(s.queue, s.sequences, s.producer.batch.sender, e);
  }

  lemma BroadcastOrder(s: Sys, memo: nat)
    requires Enabled(s, Broadcast(memo)) && InOrder(s)
    ensures InOrder(Next(s, Broadcast(memo)))
  {
    hide SavePendingTxs, DeleteProcessedMsgs;
    var s' := Next(s, Broadcast(memo));
    assert Flight(s') == Flight(s) + [s'.producer.tx];
    OrderedAppend(Flight(s), s.sequences, s'.producer.tx);
  }

  lemma PublishRebuildOrder(s: Sys)
    requires s.checker.Rebuilding? && CheckerOk(s) && InOrder(s)
    ensures InOrder(s.(queue := s.checker.queue, checker := Missing(s.checker.sender)))
  {
    OrderedSame(Flight(s), Flight(s.(queue := s.checker.queue, checker := Missing(s.checker.sender))), s.sequences);
  }

  /**
   Along the queue the sequences of each sender increase, and its account is past them all, in every state of every run in
   which no mismatch brought a pending sequence into use again.
   */
  lemma {:induction false} RunOrdered(states: seq<Sys>, actions: seq<Action>, i: nat)
    requires Run(states, actions) && Initial(states[0]) && i < |states|
    requires forall k :: 0 <= k < i ==> !ReusesSequence(states[k], actions[k])
    ensures InOrder(states[i]) && Ordered(states[i].queue, states[i].sequences)
    decreases i
  {
    if i > 0 {
      hide Inv, Enabled, Next, Initial, InOrder;
      RunOrdered(states, actions, i - 1);
      RunKeeps(states, actions);
      StepOrderIff(states[i - 1], actions[i - 1]);
      assert states[i - 1 + 1] == Next(states[i - 1], actions[i - 1]);
    }
    QueueOrdered(states[i]);
  }

  lemma QueueOrdered(s: Sys)
    ensures InOrder(s) ==> Ordered(s.queue, s.sequences)
  {
    assert Flight(s)[..|s.queue|] == s.queue;
  }

  // ----- Truncation by sequence -----

  /** The first n txs are exactly the account's txs below its on-chain sequence. */
  predicate TruncatesExactly(q: seq<PendingTx>, n: nat, account: Address, onChain: nat)
  {
    forall i :: 0 <= i < |q| ==> (i < n <==> q[i].sender == account && q[i].sequence < onChain)
  }

  /** A tx of another sender is low and unshielded, or any tx is high and in front of one of the account's low ones. */
  predicate Interferes(q: seq<PendingTx>, account: Address, onChain: nat, i: nat)
    requires i < |q|
  {
    if q[i].sequence < onChain then q[i].sender != account && forall j :: 0 <= j < i ==> q[j].sequence < onChain
    else exists j :: i < j < |q| && q[j].sender == account && q[j].sequence < onChain
  }

  /** A truncation takes exactly these off the queue if and only if no tx interferes. */
  lemma TruncatesExactlyIff(s: Sys, onChain: nat)
    requires Enabled(s, Truncate(onChain))
    ensures var q, account, s' := s.queue, s.checker.sender, Next(s, Truncate(onChain));
            && s'.checker.Truncating? && s'.checker.count <= |q|
            && (TruncatesExactly(q, s'.checker.count, account, onChain) <==> forall i :: 0 <= i < |q| ==> !Interferes(q, account, onChain, i))
  {
    var q, account := s.queue, s.checker.sender;
    var n := Leading(q, onChain - 1);
    hide DeletePendingTxs, Settled, Leading;
    if forall i :: 0 <= i < |q| ==> !Interferes(q, account, onChain, i) {
      forall i | 0 <= i < |q|
        ensures i < n <==> q[i].sender == account && q[i].sequence < onChain
      {
        assert !Interferes(q, account, onChain, i);
        if i >= n {
          assert !Interferes(q, account, onChain, n);
        }
      }
    } else {
      var i :| 0 <= i < |q| && Interferes(q, account, onChain, i);
      if q[i].sequence < onChain {
        assert i < n;
      } else {
        var j :| i < j < |q| && q[j].sender == account && q[j].sequence < onChain;
        assert j >= n;
      }
    }
  }

  /** With one sender, and no pending sequence brought into use again, every truncation is exact. */
  lemma RunTruncatesExactly(states: seq<Sys>, actions: seq<Action>, a: Address, i: nat)
    requires Run(states, actions) && Initial(states[0]) && i < |actions| && actions[i].Truncate?
    requires forall k :: 0 <= k < |actions| && actions[k].Save? ==> actions[k].batch.sender == a
    requires forall k :: 0 <= k < i ==> !ReusesSequence(states[k], actions[k])
    ensures states[i].checker.Missing? && states[i + 1].checker.Truncating?
    ensures TruncatesExactly(states[i].queue, states[i + 1].checker.count, states[i].checker.sender, actions[i].onChain)
  {
    RunOneSender(states, actions, a);
    RunOrdered(states, actions, i);
    assert Enabled(states[i], actions[i]) && OneSender(states[i], a) && states[i + 1] == Next(states[i], actions[i]);
    hide Run, Initial, Next, InOrder, Inv;
    OneSenderExact(states[i], a, actions[i].onChain);
  }

  lemma OneSenderExact(s: Sys, a: Address, onChain: nat)
    requires OneSender(s, a) && Ordered(s.queue, s.sequences) && Enabled(s, Truncate(onChain))
    ensures var s' := Next(s, Truncate(onChain));
            s'.checker.Truncating? && TruncatesExactly(s.queue, s'.checker.count, s.checker.sender, onChain)
  {
    hide Next;
    TruncatesExactlyIff(s, onChain);
  }
}
