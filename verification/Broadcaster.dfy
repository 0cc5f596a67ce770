/**
 The broadcaster (node/broadcaster): message batches wait in the processed_msgs table until they are broadcast, and
 the transactions carrying them wait in the pending_txs table and an in-memory queue until they are seen on chain.
 */
module Broadcaster {
  import opened Prelude

  type Address = string

  /** A message batch. msgs is an opaque token for the messages; the timestamp is the key in processed_msgs. */
  datatype ProcessedMsgs = ProcessedMsgs(sender: Address, msgs: nat, timestamp: nat, save: bool)

  /**
   A broadcast transaction. tx is the built transaction: the messages that can be recovered from it, and the memo that
   a rebuild changes (with it the hash). The timestamp is the key in pending_txs.
   */
  datatype Tx = Tx(msgs: nat, memo: nat)
  datatype PendingTx = PendingTx(sender: Address, sequence: nat, tx: Tx, timestamp: nat, save: bool)

  type ProcessedTable = map<nat, ProcessedMsgs>
  type PendingTable = map<nat, PendingTx>

  // ----- Queue -----

  /** Sequence of the sender's last pending tx, 0 if there is none. */
  function LastSequence(q: seq<PendingTx>, addr: Address): nat
  {
    if |q| == 0 then 0
    else if q[|q| - 1].sender == addr then q[|q| - 1].sequence
    else LastSequence(q[..|q| - 1], addr)
  }

  /** n is above the sequence of the sender's last pending tx; above 0 if there is none. */
  predicate PastLast(q: seq<PendingTx>, addr: Address, n: nat)
  {
    && n > 0
    && forall i :: 0 <= i < |q| && q[i].sender == addr && (forall j :: i < j < |q| ==> q[j].sender != addr) ==> q[i].sequence < n
  }

  lemma {:induction false} PastLastIff(q: seq<PendingTx>, addr: Address, n: nat)
    ensures PastLast(q, addr, n) <==> LastSequence(q, addr) < n
  {
    if |q| > 0 && q[|q| - 1].sender != addr {
      var init := q[..|q| - 1];
      PastLastIff(init, addr, n);
      assert forall i :: 0 <= i < |init| ==> init[i] == q[i];
    }
  }

  /** Length of the leading part with sequences at or below the bound. */
  function Leading(q: seq<PendingTx>, until: nat): (n: nat)
    ensures n <= |q|
    ensures forall i :: 0 <= i < n ==> q[i].sequence <= until
    ensures n < |q| ==> q[n].sequence > until
  {
    if |q| == 0 || q[0].sequence > until then 0 else 1 + Leading(q[1..], until)
  }

  /** The queue with new memos, everything else kept. */
  function Rebuilt(q: seq<PendingTx>, memos: seq<nat>): (r: seq<PendingTx>)
    requires |memos| == |q|
    ensures |r| == |q|
    ensures forall i :: 0 <= i < |q| ==> r[i] == q[i].(tx := Tx(q[i].tx.msgs, memos[i]))
  {
    seq(|q|, i requires 0 <= i < |q| => q[i].(tx := Tx(q[i].tx.msgs, memos[i])))
  }

  // ----- Tables -----

  function DeletePendingTxs(t: PendingTable, txs: seq<PendingTx>): PendingTable
  {
    if |txs| == 0 then t else DeletePendingTxs(t, txs[..|txs| - 1]) - {txs[|txs| - 1].timestamp}
  }

  /** Saves the txs marked Save, later ones over earlier ones. */
  function SavePendingTxs(t: PendingTable, txs: seq<PendingTx>): PendingTable
  {
    if |txs| == 0 then t
    else
      var t' := SavePendingTxs(t, txs[..|txs| - 1]);
      var tx := txs[|txs| - 1];
      if tx.save then t'[tx.timestamp := tx] else t'
  }

  function DeleteProcessedMsgs(t: ProcessedTable, ms: seq<ProcessedMsgs>): ProcessedTable
  {
    if |ms| == 0 then t else DeleteProcessedMsgs(t, ms[..|ms| - 1]) - {ms[|ms| - 1].timestamp}
  }

  function SaveProcessedMsgs(t: ProcessedTable, ms: seq<ProcessedMsgs>): ProcessedTable
  {
    if |ms| == 0 then t
    else
      var t' := SaveProcessedMsgs(t, ms[..|ms| - 1]);
      var m := ms[|ms| - 1];
      if m.save then t'[m.timestamp := m] else t'
  }

  // ----- Errors -----

  /** A failed attempt, as its message is classified. */
  datatype MsgError =
    | SequenceMismatch(expected: nat, got: nat)
    | OutputIndex(expectedIndex: int, gotIndex: int)
    | Ignorable
    | RequestFailed
    | Other

  datatype Verdict = Drop | Again | Discard

  /** What the broadcast loop does with the batch. */
  function Judge(e: MsgError, save: bool): Verdict
  {
    match e
    case SequenceMismatch(_, _) => Again
    case OutputIndex(expected, got) => if expected > got then Drop else if save then Again else Discard
    case Ignorable => Drop
    case RequestFailed => Again
    case Other => if save then Again else Discard
  }

  /** The account sequence after an error. */
  function Resequenced(q: seq<PendingTx>, addr: Address, current: nat, e: MsgError): nat
  {
    if e.SequenceMismatch? && (e.expected > e.got || e.expected > LastSequence(q, addr)) then e.expected else current
  }

  // ----- Restart -----

  /** What the chain answers for a stored pending tx. */
  datatype Answer = Included | FailedOnChain | TimedOut | Unknown

  /**
   Which of the stored txs have to be processed again, given the answers in the order they arrive (an Unknown answer is
   asked again); None if the process gives up or runs out of answers.
   */
  function ToReprocess(txs: seq<PendingTx>, answers: seq<Answer>): Option<seq<PendingTx>>
    decreases |answers|
  {
    if |txs| == 0 then Some([])
    else if |answers| == 0 then None
    else
      match answers[0]
      case Included => ToReprocess(txs[1..], answers[1..])
      case FailedOnChain =>
        var rest := ToReprocess(txs[1..], answers[1..]);
        if rest.Some? then Some([txs[0]] + rest.value) else None
      case TimedOut => Some(txs)
      case Unknown => ToReprocess(txs, answers[1..])
  }

  /** The answers that decide something. */
  function Heard(answers: seq<Answer>): seq<Answer>
  {
    if |answers| == 0 then []
    else if answers[0] == Unknown then Heard(answers[1..])
    else [answers[0]] + Heard(answers[1..])
  }

  /** Stored tx k was found on chain: its own answer says so, and no tx before it timed out. */
  predicate Found(heard: seq<Answer>, k: nat)
  {
    k < |heard| && heard[k] == Included && forall j :: 0 <= j < k ==> heard[j] != TimedOut
  }

  /** The list r consists of the txs at these places, in order. */
  predicate Selects(txs: seq<PendingTx>, places: seq<nat>, r: seq<PendingTx>)
  {
    && |places| == |r|
    && (forall i :: 0 <= i < |places| ==> places[i] < |txs| && r[i] == txs[places[i]])
    && (forall i, j :: 0 <= i < j < |places| ==> places[i] < places[j])
  }

  /** The places are those of the txs not found on chain. */
  predicate Unfound(places: seq<nat>, heard: seq<Answer>, n: nat)
  {
    forall k :: 0 <= k < n ==> (k in places <==> !Found(heard, k))
  }

  function Shifted(places: seq<nat>): (r: seq<nat>)
    ensures |r| == |places| && forall i :: 0 <= i < |r| ==> r[i] == places[i] + 1
  {
    seq(|places|, i requires 0 <= i < |places| => places[i] + 1)
  }

  /**
   The stored txs that come back are those not found on chain, in order. There is no result if and only if the answers
   run out before every tx is decided and none timed out.
   */
  lemma {:induction false} ReprocessIff(txs: seq<PendingTx>, answers: seq<Answer>) returns (places: seq<nat>)
    ensures var r, heard := ToReprocess(txs, answers), Heard(answers);
            && (r.Some? <==> |txs| <= |heard| || TimedOut in heard)
            && (r.Some? ==> Selects(txs, places, r.value) && Unfound(places, heard, |txs|))
    decreases |answers|
  {
    hide Selects, Unfound;
    if |txs| == 0 || |answers| == 0 || answers[0] == TimedOut {
      places := seq(|txs|, i => i);
      AllPlaces(txs, places, Heard(answers));
    } else {
      var answer, rest := answers[0], answers[1..];
      if answer == Unknown {
        places := ReprocessIff(txs, rest);
      } else {
        var ps := ReprocessIff(txs[1..], rest);
        places := (if answer == Included then [] else [0]) + Shifted(ps);
        var r := ToReprocess(txs[1..], rest);
        if r.Some? {
          SelectsLater(txs, ps, r.value);
          if answer == Included {
            assert places == Shifted(ps);
          } else {
            SelectsFirst(txs, Shifted(ps), r.value);
          }
          UnfoundNext(answer, Heard(rest), |txs|, ps);
        }
      }
    }
  }

  lemma AllPlaces(txs: seq<PendingTx>, places: seq<nat>, heard: seq<Answer>)
    requires places == seq(|txs|, i => i) && (|txs| > 0 && |heard| > 0 ==> heard[0] == TimedOut)
    ensures Selects(txs, places, txs) && Unfound(places, heard, |txs|)
  {
    forall k | 0 <= k < |txs|
      ensures places[k] == k && !Found(heard, k)
    {
      assert |heard| > 0 ==> heard[0] == TimedOut;
    }
  }

  lemma SelectsLater(txs: seq<PendingTx>, ps: seq<nat>, r: seq<PendingTx>)
    requires |txs| > 0 && Selects(txs[1..], ps, r)
    ensures Selects(txs, Shifted(ps), r)
  {
    forall i | 0 <= i < |ps|
      ensures Shifted(ps)[i] < |txs| && r[i] == txs[Shifted(ps)[i]]
    {
      assert r[i] == txs[1..][ps[i]];
    }
  }

  lemma SelectsFirst(txs: seq<PendingTx>, ps: seq<nat>, r: seq<PendingTx>)
    requires |txs| > 0 && Selects(txs, ps, r) && forall i :: 0 <= i < |ps| ==> ps[i] > 0
    ensures Selects(txs, [0] + ps, [txs[0]] + r)
  {
    var places := [0] + ps;
    forall i, j | 0 <= i < j < |places|
      ensures places[i] < places[j]
    {
      assert places[j] == ps[j - 1] && (i > 0 ==> places[i] == ps[i - 1]);
    }
  }

  /** One more answer in front. */
  lemma UnfoundNext(answer: Answer, heard: seq<Answer>, n: nat, ps: seq<nat>)
    requires answer.Included? || answer.FailedOnChain?
    requires n > 0 && Unfound(ps, heard, n - 1)
    ensures Unfound((if answer == Included then [] else [0]) + Shifted(ps), [answer] + heard, n)
  {
    var places, all := (if answer == Included then [] else [0]) + Shifted(ps), [answer] + heard;
    forall k | 0 <= k < n
      ensures k in places <==> !Found(all, k)
    {
      if k > 0 {
        FoundNext(answer, heard, k - 1);
        ShiftedHas(ps, k - 1);
      }
    }
  }

  lemma FoundNext(answer: Answer, heard: seq<Answer>, k: nat)
    requires answer != TimedOut
    ensures Found([answer] + heard, k + 1) <==> Found(heard, k)
  {
    var all := [answer] + heard;
    assert forall j :: 0 <= j < |heard| ==> all[j + 1] == heard[j];
    assert Found(heard, k) ==> forall j :: 0 < j <= k ==> all[j] == heard[j - 1];
  }

  lemma ShiftedHas(ps: seq<nat>, k: nat)
    ensures k in ps <==> k + 1 in Shifted(ps)
    ensures 0 !in Shifted(ps)
  {
    if k in ps {
      var i :| 0 <= i < |ps| && ps[i] == k;
      assert Shifted(ps)[i] == k + 1;
    }
  }

  /** The txs to process again, as batches with new timestamps; all Save. */
  function Restamped(txs: seq<PendingTx>, stamps: seq<nat>): (ms: seq<ProcessedMsgs>)
    requires |stamps| == |txs|
    ensures |ms| == |txs|
    ensures forall i :: 0 <= i < |txs| ==> ms[i] == ProcessedMsgs(txs[i].sender, txs[i].tx.msgs, stamps[i], true)
  {
    seq(|txs|, i requires 0 <= i < |txs| => ProcessedMsgs(txs[i].sender, txs[i].tx.msgs, stamps[i], true))
  }

  function RestampedMsgs(ms: seq<ProcessedMsgs>, stamps: seq<nat>): (r: seq<ProcessedMsgs>)
    requires |stamps| == |ms|
    ensures |r| == |ms|
    ensures forall i :: 0 <= i < |ms| ==> r[i] == ms[i].(timestamp := stamps[i])
  {
    seq(|ms|, i requires 0 <= i < |ms| => ms[i].(timestamp := stamps[i]))
  }

  // ----- The object -----

  class Broadcaster {
    var processed: ProcessedTable
    var pending: PendingTable
    var pendingTxs: seq<PendingTx>
    var sequences: map<Address, nat>
    var pendingProcessedMsgsBatch: seq<ProcessedMsgs>

    constructor (processed: ProcessedTable, pending: PendingTable, sequences: map<Address, nat>)
      ensures this.processed == processed && this.pending == pending && this.sequences == sequences
      ensures pendingTxs == [] && pendingProcessedMsgsBatch == []
    {
      this.processed, this.pending, this.sequences := processed, pending, sequences;
      pendingTxs, pendingProcessedMsgsBatch := [], [];
    }

    /** A successful broadcast: batch out, transaction in, in one commit; the queue follows separately. */
    method CommitBroadcast(data: ProcessedMsgs, tx: Tx) returns (pendingTx: PendingTx)
      requires data.sender in sequences
      modifies this`processed, this`pending, this`sequences
      ensures pendingTx == PendingTx(data.sender, old(sequences)[data.sender], tx, data.timestamp, data.save)
      ensures sequences == old(sequences)[data.sender := old(sequences)[data.sender] + 1]
      ensures processed == DeleteProcessedMsgs(old(processed), [data])
      ensures pending == SavePendingTxs(old(pending), [pendingTx])
    {
      var sequence := sequences[data.sender];
      var processed' := processed - {data.timestamp};
      var pending' := pending;
      sequences := sequences[data.sender := sequence + 1];
      pendingTx := PendingTx(data.sender, sequence, tx, data.timestamp, data.save);
      if pendingTx.save {
        pending' := pending'[pendingTx.timestamp := pendingTx];
      }
      processed, pending := processed', pending';
    }

    method EnqueueLocalPendingTx(tx: PendingTx)
      modifies this`pendingTxs
      ensures pendingTxs == old(pendingTxs) + [tx]
    {
      pendingTxs := pendingTxs + [tx];
    }

    method PeekLastSequenceInLocalPendingTx(addr: Address) returns (sequence: nat)
      ensures sequence == LastSequence(pendingTxs, addr)
    {
      var i := |pendingTxs|;
      assert pendingTxs[..i] == pendingTxs;
      while i > 0
        invariant 0 <= i <= |pendingTxs|
        invariant LastSequence(pendingTxs, addr) == LastSequence(pendingTxs[..i], addr)
      {
        i := i - 1;
        assert pendingTxs[..i + 1][..i] == pendingTxs[..i];
        if pendingTxs[i].sender == addr {
          return pendingTxs[i].sequence;
        }
      }
      return 0;
    }

    /** Error handling of the broadcast loop. */
    method HandleMsgError(data: ProcessedMsgs, e: MsgError) returns (v: Verdict)
      requires data.sender in sequences
      modifies this`processed, this`sequences
      ensures v == Drop <==> e.Ignorable? || (e.OutputIndex? && e.expectedIndex > e.gotIndex)
      ensures v == Discard <==> !data.save && (e.Other? || (e.OutputIndex? && e.expectedIndex <= e.gotIndex))
      ensures sequences == if e.SequenceMismatch? && (e.expected > e.got || PastLast(pendingTxs, data.sender, e.expected))
                           then old(sequences)[data.sender := e.expected] else old(sequences)
      ensures v == Judge(e, data.save)
      ensures sequences == old(sequences)[data.sender := Resequenced(pendingTxs, data.sender, old(sequences)[data.sender], e)]
      ensures processed == if v == Again then old(processed) else DeleteProcessedMsgs(old(processed), [data])
    {
      v := Again;
      match e {
        case SequenceMismatch(expected, got) =>
          var last := PeekLastSequenceInLocalPendingTx(data.sender);
          PastLastIff(pendingTxs, data.sender, expected);
          if expected > got || expected > last {
            sequences := sequences[data.sender := expected];
          } else {
            assert sequences == sequences[data.sender := sequences[data.sender]];
          }
          return;
        case OutputIndex(expected, got) =>
          v := if expected > got then Drop else if data.save then Again else Discard;
        case Ignorable => v := Drop;
        case RequestFailed =>
        case Other => v := if data.save then Again else Discard;
      }
      assert sequences == sequences[data.sender := sequences[data.sender]];
      if v != Again {
        processed := processed - {data.timestamp};
      }
    }

    /** First the table, then the queue. */
    method RemovePendingTx(tx: PendingTx)
      requires |pendingTxs| > 0
      modifies this`pending, this`pendingTxs
      ensures pending == DeletePendingTxs(old(pending), [tx])
      ensures pendingTxs == old(pendingTxs)[1..]
    {
      pending := pending - {tx.timestamp};
      pendingTxs := pendingTxs[1..];
    }

    method RemovePendingTxsUntil(until: nat)
      modifies this`pending, this`pendingTxs
      ensures var n := Leading(old(pendingTxs), until);
              pendingTxs == old(pendingTxs)[n..] && pending == DeletePendingTxs(old(pending), old(pendingTxs)[..n])
    {
      var start := 0;
      var staged := pending;
      assert pendingTxs[0..] == pendingTxs;
      while start < |pendingTxs| && pendingTxs[start].sequence <= until
        invariant 0 <= start <= |pendingTxs|
        invariant Leading(pendingTxs, until) == start + Leading(pendingTxs[start..], until)
        invariant staged == DeletePendingTxs(pending, pendingTxs[..start])
      {
        staged := staged - {pendingTxs[start].timestamp};
        assert pendingTxs[..start + 1][..start] == pendingTxs[..start];
        assert pendingTxs[start..][1..] == pendingTxs[start + 1..];
        start := start + 1;
      }
      pending := staged;
      pendingTxs := pendingTxs[start..];
    }

    method RebuildPendingTxs(memos: seq<nat>) returns (first: Option<PendingTx>)
      requires |memos| == |pendingTxs|
      modifies this`pending, this`pendingTxs
      ensures old(pendingTxs) == [] ==> first == None && pendingTxs == [] && pending == old(pending)
      ensures old(pendingTxs) != [] ==>
                && pendingTxs == Rebuilt(old(pendingTxs), memos) && first == Some(pendingTxs[0])
                && pending == SavePendingTxs(DeletePendingTxs(old(pending), old(pendingTxs)), pendingTxs)
    {
      if |pendingTxs| == 0 {
        return None;
      }
      var newPendingTxs: seq<PendingTx> := [];
      var staged := DeletePendingTxs(pending, pendingTxs);
      ghost var start := staged;
      for i := 0 to |pendingTxs|
        invariant newPendingTxs == Rebuilt(pendingTxs, memos)[..i]
        invariant staged == SavePendingTxs(start, newPendingTxs)
      {
        var tx := pendingTxs[i].(tx := Tx(pendingTxs[i].tx.msgs, memos[i]));
        assert (newPendingTxs + [tx])[..i] == newPendingTxs;
        newPendingTxs := newPendingTxs + [tx];
        if tx.save {
          staged := staged[tx.timestamp := tx];
        }
      }
      pending := staged;
      pendingTxs := newPendingTxs;
      return Some(pendingTxs[0]);
    }

    /** The polling loop over the stored txs. */
    method LoadPendingTxs(txs: seq<PendingTx>, answers: seq<Answer>) returns (reprocess: Option<seq<PendingTx>>)
      ensures reprocess == ToReprocess(txs, answers)
    {
      var again: seq<PendingTx> := [];
      var txIndex, asked := 0, 0;
      ghost var whole := ToReprocess(txs, answers);
      assert txs[0..] == txs && answers[0..] == answers;
      assert whole.Some? ==> [] + whole.value == whole.value;
      while txIndex < |txs|
        invariant 0 <= txIndex <= |txs| && 0 <= asked <= |answers|
        invariant var rest := ToReprocess(txs[txIndex..], answers[asked..]);
                  && whole.None? == rest.None?
                  && (whole.Some? ==> whole.value == again + rest.value)
        decreases |answers| - asked
      {
        ghost var rest := ToReprocess(txs[txIndex..], answers[asked..]);
        if asked == |answers| {
          return None;
        }
        var answer := answers[asked];
        asked := asked + 1;
        assert answers[asked - 1..][1..] == answers[asked..];
        assert txs[txIndex..][1..] == txs[txIndex + 1..];
        match answer {
          case Included => txIndex := txIndex + 1;
          case FailedOnChain =>
            ghost var rest' := ToReprocess(txs[txIndex + 1..], answers[asked..]);
            assert rest'.Some? ==> again + ([txs[txIndex]] + rest'.value) == again + [txs[txIndex]] + rest'.value;
            again := again + [txs[txIndex]];
            txIndex := txIndex + 1;
          case TimedOut => return Some(again + txs[txIndex..]);
          case Unknown =>
        }
      }
      assert again + [] == again;
      return Some(again);
    }

    static method SaveProcessedMsgsBatch(t: ProcessedTable, ms: seq<ProcessedMsgs>) returns (r: ProcessedTable)
      ensures r == SaveProcessedMsgs(t, ms)
    {
      r := t;
      for i := 0 to |ms|
        invariant r == SaveProcessedMsgs(t, ms[..i])
      {
        assert ms[..i + 1][..i] == ms[..i];
        if ms[i].save {
          r := r[ms[i].timestamp := ms[i]];
        }
      }
      assert ms[..|ms|] == ms;
    }

    /** Start-up: both tables are loaded, everything still to do is saved again under new timestamps, in one commit. */
    method PrepareBroadcaster(txs: seq<PendingTx>, ms: seq<ProcessedMsgs>, answers: seq<Answer>, stamps: seq<nat>) returns (ok: bool)
      requires |stamps| == |txs| + |ms|
      modifies this`processed, this`pending, this`pendingProcessedMsgsBatch
      ensures var again := ToReprocess(txs, answers);
              && ok == again.Some?
              && (!ok ==> processed == old(processed) && pending == old(pending))
              && (ok ==>
                    && |again.value| <= |txs|
                    && pendingProcessedMsgsBatch == Restamped(again.value, stamps[..|again.value|]) + RestampedMsgs(ms, stamps[|txs|..])
                    && pending == DeletePendingTxs(old(pending), txs)
                    && processed == SaveProcessedMsgs(DeleteProcessedMsgs(old(processed), ms), pendingProcessedMsgsBatch))
    {
      hide ToReprocess, DeleteProcessedMsgs, DeletePendingTxs, SaveProcessedMsgs;
      var again := LoadPendingTxs(txs, answers);
      if again.None? {
        return false;
      }
      ToReprocessShorter(txs, answers);
      pendingProcessedMsgsBatch := Restamped(again.value, stamps[..|again.value|]) + RestampedMsgs(ms, stamps[|txs|..]);
      var staged := SaveProcessedMsgsBatch(DeleteProcessedMsgs(processed, ms), pendingProcessedMsgsBatch);
      processed, pending := staged, DeletePendingTxs(pending, txs);
      return true;
    }
  }

  lemma {:induction false} ToReprocessShorter(txs: seq<PendingTx>, answers: seq<Answer>)
    ensures var r := ToReprocess(txs, answers); r.Some? ==> |r.value| <= |txs| && forall tx :: tx in r.value ==> tx in txs
    decreases |answers|
  {
    if |txs| > 0 && |answers| > 0 {
      match answers[0]
      case Included => ToReprocessShorter(txs[1..], answers[1..]);
      case FailedOnChain => ToReprocessShorter(txs[1..], answers[1..]);
      case TimedOut =>
      case Unknown => ToReprocessShorter(txs, answers[1..]);
    }
  }
}
