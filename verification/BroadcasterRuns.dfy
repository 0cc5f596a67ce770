/**
 The broadcast loop and the tx checker as interleaved atomic steps on the shared queue and the two tables, with process
 restarts anywhere in between.
 */
module BroadcasterRuns {
  import opened Prelude
  import opened Broadcaster

  /** The broadcast loop: waiting, working on a batch, or with its transaction committed but not queued yet. */
  datatype Producer = Waiting | Working(batch: ProcessedMsgs) | Committed(tx: PendingTx)

  /**
   The tx checker: before a check, with a tx peeked, with that tx deleted from the table but still queued, after a tx was
   not found, and inside the two operations that commit before they change the queue (both hold the queue's mutex).
   */
  datatype Checker =
    | Polling
    | Peeked(tx: PendingTx)
    | Deleted(tx: PendingTx)
    | Missing(sender: Address)
    | Truncating(count: nat)
    | Rebuilding(queue: seq<PendingTx>, sender: Address)

  /**
   How a batch leaves both tables: seen on chain, dropped on an error that is to be ignored, or dropped because the
   account's on-chain sequence had reached onChain.
   */
  datatype Fate = OnChain | Ignored(error: MsgError) | Consumed(tx: PendingTx, account: Address, onChain: nat)

  datatype Sys = Sys(
    processed: ProcessedTable,
    pending: PendingTable,
    queue: seq<PendingTx>,
    sequences: map<Address, nat>,
    channel: seq<ProcessedMsgs>,
    producer: Producer,
    checker: Checker,
    saved: set<nat>,
    fates: map<nat, Fate>)

  datatype Action =
    | Save(batch: ProcessedMsgs)
    | Take
    | Broadcast(memo: nat)
    | CommitFails
    | Fail(error: MsgError)
    | Enqueue
    | Peek
    | Settle(included: bool)
    | Dequeue
    | NotFound
    | Rebuild(memos: seq<nat>)
    | PublishRebuild
    | Truncate(onChain: nat)
    | PublishTruncate
    | Continue
    | Restart(answers: seq<Answer>, stamps: seq<nat>, loaded: map<Address, nat>)

  // ----- What the two tables should hold -----

  /** The transactions in flight: the queue as the checker's unfinished operation leaves it, then the one not queued yet. */
  function Live(s: Sys): seq<PendingTx>
  {
    Kept(s) + (if s.producer.Committed? then [s.producer.tx] else [])
  }

  function Kept(s: Sys): seq<PendingTx>
  {
    match s.checker
    case Deleted(_) => if |s.queue| > 0 then s.queue[1..] else []
    case Truncating(n) => if n <= |s.queue| then s.queue[n..] else []
    case Rebuilding(q, _) => q
    case _ => s.queue
  }

  /** The batches still to broadcast: the one being worked on, then those in the channel. */
  function Inbox(s: Sys): seq<ProcessedMsgs>
  {
    (if s.producer.Working? then [s.producer.batch] else []) + s.channel
  }

  /** A batch wherever it is: its key, its messages, and whether it is saved. */
  datatype Token = Token(stamp: nat, msgs: nat, save: bool)

  function TxToken(tx: PendingTx): Token { Token(tx.timestamp, tx.tx.msgs, tx.save) }

  function BatchToken(m: ProcessedMsgs): Token { Token(m.timestamp, m.msgs, m.save) }

  function TxTokens(txs: seq<PendingTx>): (ts: seq<Token>)
    ensures |ts| == |txs| && forall i :: 0 <= i < |txs| ==> ts[i] == TxToken(txs[i])
  {
    seq(|txs|, i requires 0 <= i < |txs| => TxToken(txs[i]))
  }

  function BatchTokens(ms: seq<ProcessedMsgs>): (ts: seq<Token>)
    ensures |ts| == |ms| && forall i :: 0 <= i < |ms| ==> ts[i] == BatchToken(ms[i])
  {
    seq(|ms|, i requires 0 <= i < |ms| => BatchToken(ms[i]))
  }

  function TokensOf(txs: seq<PendingTx>, ms: seq<ProcessedMsgs>): seq<Token>
  {
    TxTokens(txs) + BatchTokens(ms)
  }

  function Tokens(s: Sys): seq<Token>
  {
    TokensOf(Live(s), Inbox(s))
  }

  // ----- The steps -----

  predicate MutexFree(s: Sys)
  {
    !s.checker.Truncating? && !s.checker.Rebuilding?
  }

  /** A new batch: timestamps are never reused, and the token stands for these messages only. */
  predicate Fresh(s: Sys, m: ProcessedMsgs)
  {
    && (forall i :: 0 <= i < |Tokens(s)| ==> Tokens(s)[i].stamp != m.timestamp)
    && m.msgs !in s.saved
  }

  function Values<V>(t: map<nat, V>, keys: seq<nat>): (vs: seq<V>)
    requires forall i :: 0 <= i < |keys| ==> keys[i] in t
    ensures |vs| == |keys| && forall i :: 0 <= i < |keys| ==> vs[i] == t[keys[i]]
  {
    seq(|keys|, i requires 0 <= i < |keys| => t[keys[i]])
  }

  predicate Least(k: nat, keys: set<nat>)
  {
    k in keys && forall x :: x in keys ==> k <= x
  }

  /** The keys of a table in iteration order. */
  function Ascending(keys: set<nat>): (ks: seq<nat>)
    ensures forall k :: k in keys <==> k in ks
    ensures forall i, j :: 0 <= i < j < |ks| ==> ks[i] < ks[j]
  {
    if keys == {} then []
    else
      LeastExists(keys);
      var k :| Least(k, keys);
      var rest := Ascending(keys - {k});
      assert forall i :: 0 <= i < |rest| ==> rest[i] in keys - {k};
      [k] + rest
  }

  lemma {:induction false} LeastExists(keys: set<nat>)
    requires keys != {}
    ensures exists k :: Least(k, keys)
  {
    var a :| a in keys;
    if keys != {a} {
      var rest := keys - {a};
      LeastExists(rest);
      var k :| Least(k, rest);
      var least := if a < k then a else k;
      assert Least(least, keys) by {
        forall x | x in keys ensures least <= x {
          assert x == a || x in rest;
        }
      }
    } else {
      assert Least(a, keys);
    }
  }

  function LoadedTxs(s: Sys): seq<PendingTx> { Values(s.pending, Ascending(s.pending.Keys)) }

  function LoadedMsgs(s: Sys): seq<ProcessedMsgs> { Values(s.processed, Ascending(s.processed.Keys)) }

  predicate Distinct(stamps: seq<nat>)
  {
    forall i, j :: 0 <= i < j < |stamps| ==> stamps[i] != stamps[j]
  }

  predicate Enabled(s: Sys, a: Action)
  {
    match a
    case Save(m) => Fresh(s, m)
    case Take => s.producer.Waiting? && |s.channel| > 0 && s.channel[0].sender in s.sequences
    case Broadcast(_) => s.producer.Working? && s.producer.batch.sender in s.sequences
    case CommitFails => s.producer.Working? && s.producer.batch.sender in s.sequences
    // only a sequence mismatch looks at the queue
    case Fail(e) => s.producer.Working? && s.producer.batch.sender in s.sequences && (e.SequenceMismatch? ==> MutexFree(s))
    case Enqueue => s.producer.Committed? && MutexFree(s)
    case Peek => s.checker.Polling? && |s.queue| > 0
    // not included: it failed on chain with an error to be ignored, or need not be saved and the query failed
    case Settle(_) => s.checker.Peeked?
    case Dequeue => s.checker.Deleted? && |s.queue| > 0
    case NotFound => s.checker.Peeked?
    case Rebuild(memos) => s.checker.Peeked? && |memos| == |s.queue|
    case PublishRebuild => s.checker.Rebuilding?
    case Truncate(onChain) => s.checker.Missing? && onChain >= 1
    case PublishTruncate => s.checker.Truncating? && s.checker.count <= |s.queue|
    case Continue => s.checker.Missing?
    case Restart(answers, stamps, _) => CanRestart(s, answers, stamps)
  }

  function Failed(s: Sys, e: MsgError): Sys
    requires s.producer.Working? && s.producer.batch.sender in s.sequences
  {
    var m := s.producer.batch;
    var s1 := s.(sequences := s.sequences[m.sender := Resequenced(s.queue, m.sender, s.sequences[m.sender], e)]);
    if Judge(e, m.save) == Again then s1
    else s1.(processed := DeleteProcessedMsgs(s.processed, [m]), producer := Waiting,
             fates := if m.save then s.fates[m.msgs := Ignored(e)] else s.fates)
  }

  function RebuiltSys(s: Sys, memos: seq<nat>): Sys
    requires s.checker.Peeked? && |memos| == |s.queue|
  {
    var q := Rebuilt(s.queue, memos);
    s.(pending := SavePendingTxs(DeletePendingTxs(s.pending, s.queue), q), checker := Rebuilding(q, s.checker.tx.sender))
  }

  function TruncatedSys(s: Sys, onChain: nat): Sys
    requires s.checker.Missing? && onChain >= 1
  {
    var n := Leading(s.queue, onChain - 1);
    s.(pending := DeletePendingTxs(s.pending, s.queue[..n]), checker := Truncating(n),
       fates := Settled(s.fates, s.queue[..n], s.checker.sender, onChain))
  }

  predicate CanRestart(s: Sys, answers: seq<Answer>, stamps: seq<nat>)
  {
    && ToReprocess(LoadedTxs(s), answers).Some?
    && |stamps| == |LoadedTxs(s)| + |LoadedMsgs(s)| && Distinct(stamps)
  }

  function Restarted(s: Sys, answers: seq<Answer>, stamps: seq<nat>, loaded: map<Address, nat>): Sys
    requires CanRestart(s, answers, stamps)
  {
    var txs, ms := LoadedTxs(s), LoadedMsgs(s);
    var again := ToReprocess(txs, answers).value;
    ToReprocessShorter(txs, answers);
    var batch := Restamped(again, stamps[..|again|]) + RestampedMsgs(ms, stamps[|txs|..]);
    s.(processed := SaveProcessedMsgs(DeleteProcessedMsgs(s.processed, ms), batch),
       pending := DeletePendingTxs(s.pending, txs),
       queue := [], sequences := loaded, channel := batch, producer := Waiting, checker := Polling,
       fates := Reloaded(s.fates, txs, again))
  }

  function Next(s: Sys, a: Action): Sys
    requires Enabled(s, a)
  {
    match a
    case Save(m) =>
      s.(processed := SaveProcessedMsgs(s.processed, [m]), channel := s.channel + [m],
         saved := if m.save then s.saved + {m.msgs} else s.saved)
    case Take => s.(producer := Working(s.channel[0]), channel := s.channel[1..])
    case Broadcast(memo) =>
      var m := s.producer.batch;
      var tx := PendingTx(m.sender, s.sequences[m.sender], Tx(m.msgs, memo), m.timestamp, m.save);
      s.(processed := DeleteProcessedMsgs(s.processed, [m]), pending := SavePendingTxs(s.pending, [tx]),
         sequences := s.sequences[m.sender := s.sequences[m.sender] + 1], producer := Committed(tx))
    case CommitFails =>
      var addr := s.producer.batch.sender;
      s.(sequences := s.sequences[addr := s.sequences[addr] + 1])
    case Fail(e) => Failed(s, e)
    case Enqueue => s.(queue := s.queue + [s.producer.tx], producer := Waiting)
    case Peek => s.(checker := Peeked(s.queue[0]))
    case Settle(included) =>
      var tx := s.checker.tx;
      s.(pending := DeletePendingTxs(s.pending, [tx]), checker := Deleted(tx),
         fates := if tx.save then s.fates[tx.tx.msgs := if included then OnChain else Ignored(Ignorable)] else s.fates)
    case Dequeue => s.(queue := s.queue[1..], checker := Polling)
    case NotFound => s.(checker := Missing(s.checker.tx.sender))
    case Rebuild(memos) => RebuiltSys(s, memos)
    case PublishRebuild => s.(queue := s.checker.queue, checker := Missing(s.checker.sender))
    case Truncate(onChain) => TruncatedSys(s, onChain)
    case PublishTruncate => s.(queue := s.queue[s.checker.count..], checker := Polling)
    case Continue => s.(checker := Polling)
    case Restart(answers, stamps, loaded) => Restarted(s, answers, stamps, loaded)
  }

  /** The truncated txs, those saved, are accounted for by the on-chain sequence. */
  function Settled(fates: map<nat, Fate>, txs: seq<PendingTx>, account: Address, onChain: nat): map<nat, Fate>
  {
    if |txs| == 0 then fates
    else
      var f := Settled(fates, txs[..|txs| - 1], account, onChain);
      var tx := txs[|txs| - 1];
      if tx.save then f[tx.tx.msgs := Consumed(tx, account, onChain)] else f
  }

  /** At start-up the stored txs that are not processed again were found on chain. */
  function Reloaded(fates: map<nat, Fate>, txs: seq<PendingTx>, again: seq<PendingTx>): map<nat, Fate>
  {
    if |txs| == 0 then fates
    else
      var f := Reloaded(fates, txs[..|txs| - 1], again);
      var tx := txs[|txs| - 1];
      if tx.save && tx !in again then f[tx.tx.msgs := OnChain] else f
  }

  ghost predicate Run(states: seq<Sys>, actions: seq<Action>)
  {
    && |states| == |actions| + 1
    && forall i :: 0 <= i < |actions| ==> Enabled(states[i], actions[i]) && states[i + 1] == Next(states[i], actions[i])
  }

  // ----- The invariant -----

  /** The batch with these messages is among the tokens that are saved. */
  predicate Holds(ts: seq<Token>, l: nat)
  {
    exists i :: 0 <= i < |ts| && ts[i].save && ts[i].msgs == l
  }

  /** Keys are distinct, and every saved batch is in exactly one place or has met its fate. */
  ghost predicate Conserved(ts: seq<Token>, saved: set<nat>, fates: map<nat, Fate>)
  {
    && (forall i, j :: 0 <= i < j < |ts| ==> ts[i].stamp != ts[j].stamp)
    && (forall i, j :: 0 <= i < j < |ts| && ts[i].save && ts[j].save ==> ts[i].msgs != ts[j].msgs)
    && (forall i :: 0 <= i < |ts| && ts[i].save ==> ts[i].msgs in saved && ts[i].msgs !in fates)
    && (forall l :: l in saved ==> l in fates || Holds(ts, l))
    && (forall l :: l in fates ==> l in saved)
  }

  /** The table holds the saved txs of the list and nothing else. */
  predicate MirrorsTxs(t: PendingTable, q: seq<PendingTx>)
  {
    && (forall i :: 0 <= i < |q| && q[i].save ==> Get(t, q[i].timestamp) == Some(q[i]))
    && (forall k :: k in t ==> t[k] in q && t[k].save && t[k].timestamp == k)
  }

  predicate MirrorsMsgs(t: ProcessedTable, ms: seq<ProcessedMsgs>)
  {
    && (forall i :: 0 <= i < |ms| && ms[i].save ==> Get(t, ms[i].timestamp) == Some(ms[i]))
    && (forall k :: k in t ==> t[k] in ms && t[k].save && t[k].timestamp == k)
  }

  /** The same txs, with other memos. */
  predicate SameButMemo(q: seq<PendingTx>, q': seq<PendingTx>)
  {
    && |q'| == |q|
    && forall i :: 0 <= i < |q| ==> q'[i] == q[i].(tx := q'[i].tx) && q'[i].tx.msgs == q[i].tx.msgs
  }

  /** What the checker remembers is still at the head of the queue. */
  predicate CheckerOk(s: Sys)
  {
    match s.checker
    case Peeked(tx) => |s.queue| > 0 && s.queue[0] == tx
    case Deleted(tx) => |s.queue| > 0 && s.queue[0] == tx
    case Truncating(n) => n <= |s.queue|
    case Rebuilding(q, _) => SameButMemo(s.queue, q)
    case _ => true
  }

  /** The errors a saved batch is given up on. */
  predicate IgnoreRule(e: MsgError)
  {
    e.Ignorable? || (e.OutputIndex? && e.expectedIndex > e.gotIndex)
  }

  predicate FatesOk(fates: map<nat, Fate>)
  {
    && (forall l :: l in fates && fates[l].Consumed? ==> fates[l].tx.sequence < fates[l].onChain)
    && (forall l :: l in fates && fates[l].Ignored? ==> IgnoreRule(fates[l].error))
  }

  ghost predicate Inv(s: Sys)
  {
    && Conserved(Tokens(s), s.saved, s.fates)
    && MirrorsTxs(s.pending, Live(s))
    && MirrorsMsgs(s.processed, Inbox(s))
    && CheckerOk(s)
    && (s.producer.Working? ==> s.producer.batch.sender in s.sequences)
    && FatesOk(s.fates)
  }

  // ----- Tokens -----

  lemma HoldsAt(ts: seq<Token>, l: nat) returns (i: nat)
    requires Holds(ts, l)
    ensures i < |ts| && ts[i].save && ts[i].msgs == l
  {
    i :| 0 <= i < |ts| && ts[i].save && ts[i].msgs == l;
  }

  /** Taking one token away with its fate recorded. */
  lemma ConservedRemove(ts: seq<Token>, k: nat, saved: set<nat>, fates: map<nat, Fate>, f: Fate)
    requires Conserved(ts, saved, fates) && k < |ts|
    ensures Conserved(ts[..k] + ts[k + 1..], saved, if ts[k].save then fates[ts[k].msgs := f] else fates)
  {
    var ts' := ts[..k] + ts[k + 1..];
    var fates' := if ts[k].save then fates[ts[k].msgs := f] else fates;
    forall i | 0 <= i < |ts'|
      ensures ts'[i] == ts[if i < k then i else i + 1]
    {}
    forall l | l in saved
      ensures l in fates' || Holds(ts', l)
    {
      if l !in fates' {
        var i := HoldsAt(ts, l);
        var i' := if i < k then i else i - 1;
        assert ts'[i'] == ts[i];
      }
    }
  }

  lemma ConservedAppend(ts: seq<Token>, t: Token, saved: set<nat>, fates: map<nat, Fate>)
    requires Conserved(ts, saved, fates) && t.msgs !in saved
    requires forall i :: 0 <= i < |ts| ==> ts[i].stamp != t.stamp
    ensures Conserved(ts + [t], if t.save then saved + {t.msgs} else saved, fates)
  {
    var ts', saved' := ts + [t], if t.save then saved + {t.msgs} else saved;
    forall l | l in saved'
      ensures l in fates || Holds(ts', l)
    {
      if l in saved && l !in fates {
        var i := HoldsAt(ts, l);
        assert ts'[i] == ts[i];
      } else if l !in saved {
        assert ts'[|ts|] == t;
      }
    }
  }

  // ----- Tables -----

  /** Deleting takes out the keys listed and nothing else. */
  lemma {:induction false} DeletedTxs(t: PendingTable, txs: seq<PendingTx>)
    ensures var r := DeletePendingTxs(t, txs);
            && (forall k :: k in r <==> k in t && forall i :: 0 <= i < |txs| ==> txs[i].timestamp != k)
            && (forall k :: k in r ==> r[k] == t[k])
  {
    if |txs| > 0 {
      DeletedTxs(t, txs[..|txs| - 1]);
      assert txs == txs[..|txs| - 1] + [txs[|txs| - 1]];
    }
  }

  /** Saving puts in the txs marked Save under their keys and changes nothing else. */
  lemma {:induction false} SavedTxs(t: PendingTable, txs: seq<PendingTx>)
    requires forall i, j :: 0 <= i < j < |txs| ==> txs[i].timestamp != txs[j].timestamp
    ensures var r := SavePendingTxs(t, txs);
            && (forall i :: 0 <= i < |txs| && txs[i].save ==> Get(r, txs[i].timestamp) == Some(txs[i]))
            && (forall k :: k in t ==> k in r)
            && (forall k :: k in r ==> (k in t && r[k] == t[k]) || (r[k] in txs && r[k].save && r[k].timestamp == k))
            && (forall k :: k in t && (forall i :: 0 <= i < |txs| ==> txs[i].timestamp != k) ==> r[k] == t[k])
  {
    if |txs| > 0 {
      SavedTxs(t, txs[..|txs| - 1]);
      assert txs == txs[..|txs| - 1] + [txs[|txs| - 1]];
    }
  }

  lemma {:induction false} DeletedMsgs(t: ProcessedTable, ms: seq<ProcessedMsgs>)
    ensures var r := DeleteProcessedMsgs(t, ms);
            && (forall k :: k in r <==> k in t && forall i :: 0 <= i < |ms| ==> ms[i].timestamp != k)
            && (forall k :: k in r ==> r[k] == t[k])
  {
    if |ms| > 0 {
      DeletedMsgs(t, ms[..|ms| - 1]);
      assert ms == ms[..|ms| - 1] + [ms[|ms| - 1]];
    }
  }

  lemma {:induction false} SavedMsgs(t: ProcessedTable, ms: seq<ProcessedMsgs>)
    requires forall i, j :: 0 <= i < j < |ms| ==> ms[i].timestamp != ms[j].timestamp
    ensures var r := SaveProcessedMsgs(t, ms);
            && (forall i :: 0 <= i < |ms| && ms[i].save ==> Get(r, ms[i].timestamp) == Some(ms[i]))
            && (forall k :: k in t ==> k in r)
            && (forall k :: k in r ==> (k in t && r[k] == t[k]) || (r[k] in ms && r[k].save && r[k].timestamp == k))
            && (forall k :: k in t && (forall i :: 0 <= i < |ms| ==> ms[i].timestamp != k) ==> r[k] == t[k])
  {
    if |ms| > 0 {
      SavedMsgs(t, ms[..|ms| - 1]);
      assert ms == ms[..|ms| - 1] + [ms[|ms| - 1]];
    }
  }

  predicate DistinctTxs(txs: seq<PendingTx>)
  {
    forall i, j :: 0 <= i < j < |txs| ==> txs[i].timestamp != txs[j].timestamp
  }

  predicate DistinctMsgs(ms: seq<ProcessedMsgs>)
  {
    forall i, j :: 0 <= i < j < |ms| ==> ms[i].timestamp != ms[j].timestamp
  }

  lemma MirrorsDrop(t: PendingTable, q: seq<PendingTx>, n: nat)
    requires MirrorsTxs(t, q) && DistinctTxs(q) && n <= |q|
    ensures MirrorsTxs(DeletePendingTxs(t, q[..n]), q[n..])
  {
    var r := DeletePendingTxs(t, q[..n]);
    DeletedTxs(t, q[..n]);
    forall i | 0 <= i < |q[n..]| && q[n..][i].save
      ensures Get(r, q[n..][i].timestamp) == Some(q[n..][i])
    {
      assert q[n..][i] == q[n + i];
      assert forall j :: 0 <= j < n ==> q[..n][j] == q[j];
    }
    forall k | k in r
      ensures r[k] in q[n..]
    {
      assert forall j :: 0 <= j < n ==> q[..n][j] == q[j];
      var i :| 0 <= i < |q| && q[i] == t[k];
      assert i >= n;
      assert q[n..][i - n] == t[k];
    }
  }

  lemma MirrorsTxAppend(t: PendingTable, q: seq<PendingTx>, tx: PendingTx)
    requires MirrorsTxs(t, q) && DistinctTxs(q + [tx])
    ensures MirrorsTxs(SavePendingTxs(t, [tx]), q + [tx])
  {
    var q' := q + [tx];
    SavedTxs(t, [tx]);
    assert [tx][0] == tx && q'[|q|] == tx;
    forall i | 0 <= i < |q'| && q'[i].save
      ensures Get(SavePendingTxs(t, [tx]), q'[i].timestamp) == Some(q'[i])
    {
      if i < |q| {
        assert q'[i] == q[i] && q'[i].timestamp != q'[|q|].timestamp;
      }
    }
  }

  lemma MirrorsTxPrepend(t: PendingTable, q: seq<PendingTx>, fl: seq<PendingTx>)
    requires MirrorsTxs(t, fl) && DistinctTxs(q + fl)
    ensures MirrorsTxs(SavePendingTxs(t, q), q + fl)
  {
    var r, all := SavePendingTxs(t, q), q + fl;
    assert forall i :: 0 <= i < |q| ==> all[i] == q[i];
    SavedTxs(t, q);
    forall i | 0 <= i < |all| && all[i].save
      ensures Get(r, all[i].timestamp) == Some(all[i])
    {
      if i >= |q| {
        assert all[i] == fl[i - |q|];
        assert all[i].timestamp in t;
      }
    }
    forall k | k in r
      ensures r[k] in all && r[k].save && r[k].timestamp == k
    {}
  }

  /** A rebuild replaces the front of the list. */
  lemma MirrorsRebuild(t: PendingTable, q: seq<PendingTx>, fl: seq<PendingTx>, q': seq<PendingTx>)
    requires MirrorsTxs(t, q + fl) && DistinctTxs(q + fl) && SameButMemo(q, q')
    ensures MirrorsTxs(SavePendingTxs(DeletePendingTxs(t, q), q'), q' + fl)
  {
    hide MirrorsTxs;
    assert (q + fl)[..|q|] == q && (q + fl)[|q|..] == fl;
    MirrorsDrop(t, q + fl, |q|);
    assert forall i :: 0 <= i < |q + fl| ==> (q' + fl)[i].timestamp == (q + fl)[i].timestamp;
    MirrorsTxPrepend(DeletePendingTxs(t, q), q', fl);
  }

  lemma MirrorsMsgAppend(t: ProcessedTable, ms: seq<ProcessedMsgs>, m: ProcessedMsgs)
    requires MirrorsMsgs(t, ms) && DistinctMsgs(ms + [m])
    ensures MirrorsMsgs(SaveProcessedMsgs(t, [m]), ms + [m])
  {
    var ms' := ms + [m];
    SavedMsgs(t, [m]);
    assert [m][0] == m && ms'[|ms|] == m;
    forall i | 0 <= i < |ms'| && ms'[i].save
      ensures Get(SaveProcessedMsgs(t, [m]), ms'[i].timestamp) == Some(ms'[i])
    {
      if i < |ms| {
        assert ms'[i] == ms[i] && ms'[i].timestamp != ms'[|ms|].timestamp;
      }
    }
  }

  lemma MirrorsMsgDrop(t: ProcessedTable, ms: seq<ProcessedMsgs>)
    requires MirrorsMsgs(t, ms) && DistinctMsgs(ms) && |ms| > 0
    ensures MirrorsMsgs(DeleteProcessedMsgs(t, [ms[0]]), ms[1..])
  {
    var r := DeleteProcessedMsgs(t, [ms[0]]);
    DeletedMsgs(t, [ms[0]]);
    forall k | k in r
      ensures r[k] in ms[1..]
    {
      assert [ms[0]][0] == ms[0];
      var i :| 0 <= i < |ms| && ms[i] == t[k];
      assert i > 0;
      assert ms[1..][i - 1] == t[k];
    }
  }

  // ----- Each step keeps the invariant -----

  lemma DistinctKeys(l: seq<PendingTx>, b: seq<ProcessedMsgs>, saved: set<nat>, fates: map<nat, Fate>)
    requires Conserved(TokensOf(l, b), saved, fates)
    ensures DistinctTxs(l) && DistinctMsgs(b)
  {
    var ts := TokensOf(l, b);
    forall i, j | 0 <= i < j < |l|
      ensures l[i].timestamp != l[j].timestamp
    {
      assert ts[i] == TxToken(l[i]) && ts[j] == TxToken(l[j]);
    }
    forall i, j | 0 <= i < j < |b|
      ensures b[i].timestamp != b[j].timestamp
    {
      assert ts[|l| + i] == BatchToken(b[i]) && ts[|l| + j] == BatchToken(b[j]);
    }
  }

  lemma TokensAppend(l: seq<PendingTx>, b: seq<ProcessedMsgs>, m: ProcessedMsgs)
    ensures TokensOf(l, b + [m]) == TokensOf(l, b) + [BatchToken(m)]
  {
    assert BatchTokens(b + [m]) == BatchTokens(b) + [BatchToken(m)];
  }

  lemma SaveKeeps(s: Sys, m: ProcessedMsgs)
    requires Inv(s) && Fresh(s, m)
    ensures Inv(Next(s, Save(m)))
  {
    var s' := Next(s, Save(m));
    hide Conserved, MirrorsTxs, MirrorsMsgs, TokensOf, SaveProcessedMsgs;
    assert Live(s') == Live(s);
    assert Inbox(s') == Inbox(s) + [m];
    TokensAppend(Live(s), Inbox(s), m);
    ConservedAppend(Tokens(s), BatchToken(m), s.saved, s.fates);
    DistinctKeys(Live(s'), Inbox(s'), s'.saved, s'.fates);
    MirrorsMsgAppend(s.processed, Inbox(s), m);
  }

  lemma TakeKeeps(s: Sys)
    requires Inv(s) && Enabled(s, Take)
    ensures Inv(Next(s, Take))
  {
    var s' := Next(s, Take);
    hide Conserved, MirrorsTxs, MirrorsMsgs, TokensOf;
    assert Inbox(s') == Inbox(s);
    assert Live(s') == Live(s);
  }

  lemma BroadcastKeeps(s: Sys, memo: nat)
    requires Inv(s) && Enabled(s, Broadcast(memo))
    ensures Inv(Next(s, Broadcast(memo)))
  {
    var s' := Next(s, Broadcast(memo));
    var m, tx := s.producer.batch, s'.producer.tx;
    hide Conserved, MirrorsTxs, MirrorsMsgs, TokensOf, SavePendingTxs, DeleteProcessedMsgs;
    assert Kept(s') == Kept(s);
    assert Live(s') == Live(s) + [tx];
    assert Inbox(s) == [m] + Inbox(s');
    assert Tokens(s') == Tokens(s) by {
      assert TxToken(tx) == BatchToken(m);
      assert BatchTokens(Inbox(s)) == [BatchToken(m)] + BatchTokens(Inbox(s'));
      assert TxTokens(Live(s')) == TxTokens(Live(s)) + [BatchToken(m)];
    }
    DistinctKeys(Live(s), Inbox(s), s.saved, s.fates);
    DistinctKeys(Live(s'), Inbox(s'), s'.saved, s'.fates);
    MirrorsTxAppend(s.pending, Live(s), tx);
    MirrorsMsgDrop(s.processed, Inbox(s));
    assert Inbox(s)[1..] == Inbox(s');
  }

  /** An attempt whose commit fails uses up a sequence and nothing else. */
  lemma CommitFailsKeeps(s: Sys)
    requires Inv(s) && s.producer.Working?
    ensures var addr := s.producer.batch.sender; Inv(s.(sequences := s.sequences[addr := s.sequences[addr] + 1]))
  {
    var addr := s.producer.batch.sender;
    var s' := s.(sequences := s.sequences[addr := s.sequences[addr] + 1]);
    hide Conserved, MirrorsTxs, MirrorsMsgs, TokensOf;
    assert Live(s') == Live(s) && Inbox(s') == Inbox(s);
  }

  /** The batch being worked on is given up. */
  lemma DropBatch(t: ProcessedTable, l: seq<PendingTx>, b: seq<ProcessedMsgs>, saved: set<nat>, fates: map<nat, Fate>, e: MsgError)
    requires Conserved(TokensOf(l, b), saved, fates) && MirrorsMsgs(t, b) && |b| > 0
    ensures MirrorsMsgs(DeleteProcessedMsgs(t, [b[0]]), b[1..])
    ensures Conserved(TokensOf(l, b[1..]), saved, if b[0].save then fates[b[0].msgs := Ignored(e)] else fates)
  {
    hide Conserved, MirrorsMsgs, DeleteProcessedMsgs;
    var k, ts := |l|, TokensOf(l, b);
    DistinctKeys(l, b, saved, fates);
    MirrorsMsgDrop(t, b);
    assert ts[k] == BatchToken(b[0]);
    ConservedRemove(ts, k, saved, fates, Ignored(e));
    assert TokensOf(l, b[1..]) == ts[..k] + ts[k + 1..];
  }

  lemma FailKeeps(s: Sys, e: MsgError)
    requires Inv(s) && s.producer.Working?
    ensures Inv(Failed(s, e))
  {
    assert Judge(e, true) == Again || IgnoreRule(e);
    hide Conserved, MirrorsTxs, MirrorsMsgs, TokensOf, Resequenced, DeleteProcessedMsgs, SameButMemo, Judge, IgnoreRule;
    var s' := Failed(s, e);
    if Judge(e, s.producer.batch.save) == Again {
      assert Kept(s') == Kept(s) && Live(s') == Live(s) && Inbox(s') == Inbox(s);
    } else {
      DropKeeps(s, s'.sequences, e);
    }
  }

  /** Giving up the batch at hand. */
  lemma DropKeeps(s: Sys, sequences: map<Address, nat>, e: MsgError)
    requires Inv(s) && s.producer.Working? && (s.producer.batch.save ==> IgnoreRule(e))
    ensures var m := s.producer.batch;
            Inv(s.(sequences := sequences, processed := DeleteProcessedMsgs(s.processed, [m]), producer := Waiting,
                   fates := if m.save then s.fates[m.msgs := Ignored(e)] else s.fates))
  {
    hide Conserved, MirrorsTxs, MirrorsMsgs, TokensOf, DeleteProcessedMsgs, SameButMemo;
    assert Inbox(s)[0] == s.producer.batch && Inbox(s)[1..] == s.channel == [] + s.channel;
    DropBatch(s.processed, Live(s), Inbox(s), s.saved, s.fates, e);
  }

  lemma EnqueueKeeps(s: Sys)
    requires Inv(s) && Enabled(s, Enqueue)
    ensures Inv(Next(s, Enqueue))
  {
    var s' := Next(s, Enqueue);
    hide Conserved, MirrorsTxs, MirrorsMsgs, TokensOf;
    assert Kept(s') == Kept(s) + [s.producer.tx];
    assert Live(s') == Live(s);
    assert Inbox(s') == Inbox(s) by {
      assert [] + s.channel == s.channel;
    }
  }

  /** Taking the first tokens away, with their fates recorded. */
  lemma ConservedDrop(ts: seq<Token>, n: nat, saved: set<nat>, fates: map<nat, Fate>, fates': map<nat, Fate>)
    requires Conserved(ts, saved, fates) && n <= |ts|
    requires forall l :: l in fates' <==> l in fates || Holds(ts[..n], l)
    ensures Conserved(ts[n..], saved, fates')
  {
    var ts' := ts[n..];
    assert forall i :: 0 <= i < |ts'| ==> ts'[i] == ts[n + i];
    assert forall i :: 0 <= i < n ==> ts[..n][i] == ts[i];
    forall l | l in saved
      ensures l in fates' || Holds(ts', l)
    {
      if l !in fates' {
        var i := HoldsAt(ts, l);
        assert i >= n;
        assert ts'[i - n] == ts[i];
      }
    }
    forall l | l in fates'
      ensures l in saved
    {
      if l !in fates {
        var j := HoldsAt(ts[..n], l);
        assert ts[j] == ts[..n][j];
      }
    }
  }

  lemma {:induction false} SettledIs(fates: map<nat, Fate>, txs: seq<PendingTx>, account: Address, onChain: nat)
    ensures var r := Settled(fates, txs, account, onChain);
            && (forall l :: l in r <==> l in fates || Holds(TxTokens(txs), l))
            && (forall l :: l in r ==> (l in fates && r[l] == fates[l]) ||
                                       (r[l].Consumed? && r[l].tx in txs && r[l].account == account && r[l].onChain == onChain))
  {
    if |txs| > 0 {
      var init, last := txs[..|txs| - 1], txs[|txs| - 1];
      SettledIs(fates, init, account, onChain);
      HoldsLast(init, last);
      assert txs == init + [last];
    }
  }

  lemma HoldsLast(txs: seq<PendingTx>, tx: PendingTx)
    ensures forall l :: Holds(TxTokens(txs + [tx]), l) <==> Holds(TxTokens(txs), l) || (tx.save && tx.tx.msgs == l)
  {
    var ts, ts' := TxTokens(txs), TxTokens(txs + [tx]);
    assert ts' == ts + [TxToken(tx)];
    forall l
      ensures Holds(ts', l) <==> Holds(ts, l) || (tx.save && tx.tx.msgs == l)
    {
      if Holds(ts', l) {
        var i := HoldsAt(ts', l);
        assert i < |ts| ==> ts[i] == ts'[i];
      }
      if Holds(ts, l) {
        var i := HoldsAt(ts, l);
        assert ts'[i] == ts[i];
      } else if tx.save && tx.tx.msgs == l {
        assert ts'[|ts|] == TxToken(tx);
      }
    }
  }

  /** The first n of the txs in flight are deleted and their fates recorded. */
  lemma DropLive(t: PendingTable, l: seq<PendingTx>, b: seq<ProcessedMsgs>, n: nat,
                 saved: set<nat>, fates: map<nat, Fate>, fates': map<nat, Fate>)
    requires Conserved(TokensOf(l, b), saved, fates) && MirrorsTxs(t, l) && n <= |l|
    requires forall x :: x in fates' <==> x in fates || Holds(TxTokens(l[..n]), x)
    ensures MirrorsTxs(DeletePendingTxs(t, l[..n]), l[n..])
    ensures Conserved(TokensOf(l[n..], b), saved, fates')
  {
    hide Conserved, MirrorsTxs, DeletePendingTxs, Holds;
    DistinctKeys(l, b, saved, fates);
    MirrorsDrop(t, l, n);
    var ts := TokensOf(l, b);
    assert ts[..n] == TxTokens(l[..n]);
    assert TokensOf(l[n..], b) == ts[n..];
    ConservedDrop(ts, n, saved, fates, fates');
  }

  lemma SettleKeeps(s: Sys, included: bool)
    requires Inv(s) && Enabled(s, Settle(included))
    ensures Inv(Next(s, Settle(included)))
  {
    var s' := Next(s, Settle(included));
    var tx := s.checker.tx;
    assert FatesOk(s'.fates);
    hide Conserved, MirrorsTxs, MirrorsMsgs, TokensOf, DeletePendingTxs, Holds, FatesOk;
    assert Live(s)[0] == tx && Live(s') == Live(s)[1..];
    assert Live(s)[..1] == [] + [tx];
    HoldsLast([], tx);
    DropLive(s.pending, Live(s), Inbox(s), 1, s.saved, s.fates, s'.fates);
    assert Inbox(s') == Inbox(s);
  }

  lemma DequeueKeeps(s: Sys)
    requires Inv(s) && Enabled(s, Dequeue)
    ensures Inv(Next(s, Dequeue))
  {
    var s' := Next(s, Dequeue);
    hide Conserved, MirrorsTxs, MirrorsMsgs, TokensOf;
    assert Live(s') == Live(s) && Inbox(s') == Inbox(s);
  }

  lemma RebuildKeeps(s: Sys, memos: seq<nat>)
    requires Inv(s) && s.checker.Peeked? && |memos| == |s.queue|
    ensures Inv(RebuiltSys(s, memos))
  {
    var s' := RebuiltSys(s, memos);
    var q, fl := s'.checker.queue, if s.producer.Committed? then [s.producer.tx] else [];
    hide Conserved, MirrorsTxs, MirrorsMsgs, TokensOf, DeletePendingTxs, SavePendingTxs;
    assert Live(s) == s.queue + fl && Live(s') == q + fl;
    DistinctKeys(Live(s), Inbox(s), s.saved, s.fates);
    MirrorsRebuild(s.pending, s.queue, fl, q);
    assert TxTokens(Live(s')) == TxTokens(Live(s));
    assert Inbox(s') == Inbox(s);
  }

  lemma PublishRebuildKeeps(s: Sys)
    requires Inv(s) && s.checker.Rebuilding?
    ensures Inv(s.(queue := s.checker.queue, checker := Missing(s.checker.sender)))
  {
    var s' := s.(queue := s.checker.queue, checker := Missing(s.checker.sender));
    hide Conserved, MirrorsTxs, MirrorsMsgs, TokensOf;
    assert Live(s') == Live(s) && Inbox(s') == Inbox(s);
  }

  lemma TruncateShape(s: Sys, onChain: nat)
    requires s.checker.Missing? && onChain >= 1
    ensures var s', n := TruncatedSys(s, onChain), Leading(s.queue, onChain - 1);
            && n <= |Live(s)| && Live(s)[..n] == s.queue[..n] && Live(s') == Live(s)[n..]
            && Inbox(s') == Inbox(s) && CheckerOk(s')
  {
    hide DeletePendingTxs, Settled;
    var q, n := s.queue, Leading(s.queue, onChain - 1);
    var fl := if s.producer.Committed? then [s.producer.tx] else [];
    assert (q + fl)[n..] == q[n..] + fl;
  }

  lemma TruncateFates(fates: map<nat, Fate>, q: seq<PendingTx>, n: nat, account: Address, onChain: nat)
    requires FatesOk(fates) && n <= |q| && forall i :: 0 <= i < n ==> q[i].sequence < onChain
    ensures FatesOk(Settled(fates, q[..n], account, onChain))
  {
    hide Settled;
    SettledIs(fates, q[..n], account, onChain);
  }

  lemma TruncateKeeps(s: Sys, onChain: nat)
    requires Inv(s) && s.checker.Missing? && onChain >= 1
    ensures Inv(TruncatedSys(s, onChain))
  {
    var s' := TruncatedSys(s, onChain);
    var n := Leading(s.queue, onChain - 1);
    hide Conserved, MirrorsTxs, MirrorsMsgs, TokensOf, DeletePendingTxs, Settled, Holds, Live, Inbox, FatesOk;
    TruncateShape(s, onChain);
    SettledIs(s.fates, s.queue[..n], s.checker.sender, onChain);
    TruncateFates(s.fates, s.queue, n, s.checker.sender, onChain);
    DropLive(s.pending, Live(s), Inbox(s), n, s.saved, s.fates, s'.fates);
  }

  lemma PublishTruncateKeeps(s: Sys)
    requires Inv(s) && Enabled(s, PublishTruncate)
    ensures Inv(Next(s, PublishTruncate))
  {
    var s' := Next(s, PublishTruncate);
    hide Conserved, MirrorsTxs, MirrorsMsgs, TokensOf;
    assert Live(s') == Live(s) && Inbox(s') == Inbox(s);
  }

  // ----- Restart -----

  /** A restart loads exactly the saved txs in flight. */
  lemma LoadsLive(t: PendingTable, q: seq<PendingTx>)
    requires MirrorsTxs(t, q)
    ensures var xs := Values(t, Ascending(t.Keys));
            && DistinctTxs(xs)
            && (forall x :: x in xs ==> x in q && x.save)
            && (forall x :: x in q && x.save ==> x in xs)
  {
    var keys := Ascending(t.Keys);
    var xs := Values(t, keys);
    assert forall i :: 0 <= i < |keys| ==> keys[i] in t.Keys;
    hide Ascending, Values;
    forall x | x in q && x.save
      ensures x in xs
    {
      var j :| 0 <= j < |q| && q[j] == x;
      assert Get(t, q[j].timestamp) == Some(q[j]);
      ValuesHas(t, keys, x.timestamp);
    }
  }

  lemma ValuesHas<V>(t: map<nat, V>, keys: seq<nat>, k: nat)
    requires (forall i :: 0 <= i < |keys| ==> keys[i] in t) && k in keys
    ensures k in t && t[k] in Values(t, keys)
  {
    var i :| 0 <= i < |keys| && keys[i] == k;
    assert Values(t, keys)[i] == t[k];
  }

  /** Deleting what was loaded empties the table. */
  lemma LoadedTxsDeleted(t: PendingTable)
    requires forall k :: k in t ==> t[k].timestamp == k
    ensures DeletePendingTxs(t, Values(t, Ascending(t.Keys))) == map[]
  {
    var keys := Ascending(t.Keys);
    var xs := Values(t, keys);
    var r := DeletePendingTxs(t, xs);
    DeletedTxs(t, xs);
    hide DeletePendingTxs;
    forall k
      ensures k !in r
    {
      if k in keys {
        var i :| 0 <= i < |keys| && keys[i] == k;
        assert xs[i].timestamp == k;
      }
    }
  }

  lemma LoadsInbox(t: ProcessedTable, b: seq<ProcessedMsgs>)
    requires MirrorsMsgs(t, b)
    ensures var ms := Values(t, Ascending(t.Keys));
            && DistinctMsgs(ms)
            && (forall m :: m in ms ==> m in b && m.save)
            && (forall m :: m in b && m.save ==> m in ms)
  {
    var keys := Ascending(t.Keys);
    var ms := Values(t, keys);
    assert forall i :: 0 <= i < |keys| ==> keys[i] in t.Keys;
    hide Ascending, Values;
    forall m | m in b && m.save
      ensures m in ms
    {
      var j :| 0 <= j < |b| && b[j] == m;
      assert Get(t, b[j].timestamp) == Some(b[j]);
      ValuesHas(t, keys, m.timestamp);
    }
  }

  lemma LoadedMsgsDeleted(t: ProcessedTable)
    requires forall k :: k in t ==> t[k].timestamp == k
    ensures DeleteProcessedMsgs(t, Values(t, Ascending(t.Keys))) == map[]
  {
    var keys := Ascending(t.Keys);
    var ms := Values(t, keys);
    var r := DeleteProcessedMsgs(t, ms);
    DeletedMsgs(t, ms);
    hide DeleteProcessedMsgs;
    forall k
      ensures k !in r
    {
      if k in keys {
        var i :| 0 <= i < |keys| && keys[i] == k;
        assert ms[i].timestamp == k;
      }
    }
  }

  /** No two of these stand for the same messages. */
  predicate Unrepeated(xs: seq<PendingTx>, ms: seq<ProcessedMsgs>)
  {
    && (forall i, j :: 0 <= i < j < |xs| ==> xs[i].tx.msgs != xs[j].tx.msgs)
    && (forall i, j :: 0 <= i < j < |ms| ==> ms[i].msgs != ms[j].msgs)
    && (forall i, j :: 0 <= i < |xs| && 0 <= j < |ms| ==> xs[i].tx.msgs != ms[j].msgs)
  }

  lemma LoadedUnrepeated(l: seq<PendingTx>, b: seq<ProcessedMsgs>, saved: set<nat>, fates: map<nat, Fate>,
                         xs: seq<PendingTx>, ms: seq<ProcessedMsgs>)
    requires Conserved(TokensOf(l, b), saved, fates)
    requires DistinctTxs(xs) && (forall x :: x in xs ==> x in l && x.save)
    requires DistinctMsgs(ms) && (forall m :: m in ms ==> m in b && m.save)
    ensures Unrepeated(xs, ms)
    ensures forall x :: x in xs ==> x.tx.msgs in saved && x.tx.msgs !in fates
    ensures forall m :: m in ms ==> m.msgs in saved && m.msgs !in fates
  {
    var ts := TokensOf(l, b);
    forall x | x in xs
      ensures exists i :: 0 <= i < |l| && ts[i] == TxToken(x)
    {
      var i :| 0 <= i < |l| && l[i] == x;
      assert ts[i] == TxToken(x);
    }
    forall m | m in ms
      ensures exists i :: |l| <= i < |ts| && ts[i] == BatchToken(m)
    {
      var i :| 0 <= i < |b| && b[i] == m;
      assert ts[|l| + i] == BatchToken(m);
    }
    forall i, j | 0 <= i < j < |xs|
      ensures xs[i].tx.msgs != xs[j].tx.msgs
    {
      assert xs[i] in xs && xs[j] in xs;
    }
    forall i, j | 0 <= i < j < |ms|
      ensures ms[i].msgs != ms[j].msgs
    {
      assert ms[i] in ms && ms[j] in ms;
    }
    forall i, j | 0 <= i < |xs| && 0 <= j < |ms|
      ensures xs[i].tx.msgs != ms[j].msgs
    {
      assert xs[i] in xs && ms[j] in ms;
    }
  }

  lemma {:induction false} ReprocessUnrepeated(xs: seq<PendingTx>, ms: seq<ProcessedMsgs>, answers: seq<Answer>)
    requires Unrepeated(xs, ms)
    ensures var r := ToReprocess(xs, answers); r.Some? ==> Unrepeated(r.value, ms)
    decreases |answers|
  {
    if |xs| > 0 && |answers| > 0 {
      match answers[0]
      case Included => ReprocessUnrepeated(xs[1..], ms, answers[1..]);
      case FailedOnChain =>
        ReprocessUnrepeated(xs[1..], ms, answers[1..]);
        var rest := ToReprocess(xs[1..], answers[1..]);
        if rest.Some? {
          ToReprocessShorter(xs[1..], answers[1..]);
          forall i | 0 <= i < |rest.value|
            ensures rest.value[i].tx.msgs != xs[0].tx.msgs
          {
            assert rest.value[i] in xs[1..];
          }
        }
      case TimedOut =>
      case Unknown => ReprocessUnrepeated(xs, ms, answers[1..]);
    }
  }

  /** One of the txs not processed again carried these messages. */
  predicate Gone(txs: seq<PendingTx>, again: seq<PendingTx>, l: nat)
  {
    exists i :: 0 <= i < |txs| && txs[i].save && txs[i] !in again && txs[i].tx.msgs == l
  }

  lemma {:induction false} ReloadedIs(fates: map<nat, Fate>, txs: seq<PendingTx>, again: seq<PendingTx>)
    ensures var r := Reloaded(fates, txs, again);
            && (forall l :: l in r <==> l in fates || Gone(txs, again, l))
            && (forall l :: l in r ==> (l in fates && r[l] == fates[l]) || r[l] == OnChain)
  {
    if |txs| > 0 {
      var init, last := txs[..|txs| - 1], txs[|txs| - 1];
      ReloadedIs(fates, init, again);
      forall l
        ensures Gone(txs, again, l) <==> Gone(init, again, l) || (last.save && last !in again && last.tx.msgs == l)
      {
        if Gone(init, again, l) {
          var i :| 0 <= i < |init| && init[i].save && init[i] !in again && init[i].tx.msgs == l;
          assert txs[i] == init[i];
        }
        if Gone(txs, again, l) {
          var i :| 0 <= i < |txs| && txs[i].save && txs[i] !in again && txs[i].tx.msgs == l;
          assert i < |init| ==> init[i] == txs[i];
        }
      }
    }
  }

  /** The batches saved again carry the same messages, under distinct new keys. */
  lemma RestampedTokens(again: seq<PendingTx>, ms: seq<ProcessedMsgs>, stamps: seq<nat>, n: nat)
    requires |again| <= n && |stamps| == n + |ms| && Distinct(stamps) && Unrepeated(again, ms)
    requires forall m :: m in ms ==> m.save
    ensures var batch := Restamped(again, stamps[..|again|]) + RestampedMsgs(ms, stamps[n..]);
            var ts := BatchTokens(batch);
            && DistinctMsgs(batch) && (forall m :: m in batch ==> m.save)
            && (forall i, j :: 0 <= i < j < |ts| ==> ts[i].stamp != ts[j].stamp && ts[i].msgs != ts[j].msgs)
            && |ts| == |again| + |ms|
            && (forall i :: 0 <= i < |ts| ==>
                  ts[i].save && ts[i].msgs == if i < |again| then again[i].tx.msgs else ms[i - |again|].msgs)
  {
    var batch := Restamped(again, stamps[..|again|]) + RestampedMsgs(ms, stamps[n..]);
    forall i | 0 <= i < |batch|
      ensures batch[i].save
      ensures batch[i].timestamp == stamps[if i < |again| then i else i - |again| + n]
      ensures batch[i].msgs == if i < |again| then again[i].tx.msgs else ms[i - |again|].msgs
    {
      if i >= |again| {
        assert ms[i - |again|] in ms;
      }
    }
  }

  lemma RestartTokens(l: seq<PendingTx>, b: seq<ProcessedMsgs>, saved: set<nat>, fates: map<nat, Fate>,
                      xs: seq<PendingTx>, ms: seq<ProcessedMsgs>, again: seq<PendingTx>, ts: seq<Token>)
    requires Conserved(TokensOf(l, b), saved, fates)
    requires forall x :: x in again ==> x in xs
    requires Unrepeated(xs, ms)
    requires forall x :: x in xs ==> x.tx.msgs in saved && x.tx.msgs !in fates
    requires forall m :: m in ms ==> m.msgs in saved && m.msgs !in fates
    requires forall x :: x in l && x.save ==> x in xs
    requires forall m :: m in b && m.save ==> m in ms
    requires |ts| == |again| + |ms|
    requires forall i, j :: 0 <= i < j < |ts| ==> ts[i].stamp != ts[j].stamp && ts[i].msgs != ts[j].msgs
    requires forall i :: 0 <= i < |ts| ==>
               ts[i].save && ts[i].msgs == if i < |again| then again[i].tx.msgs else ms[i - |again|].msgs
    ensures Conserved(ts, saved, Reloaded(fates, xs, again))
  {
    var fates' := Reloaded(fates, xs, again);
    ReloadedIs(fates, xs, again);
    hide Reloaded;
    forall i | 0 <= i < |ts|
      ensures ts[i].msgs in saved && ts[i].msgs !in fates'
    {
      if i < |again| {
        assert again[i] in xs;
        AgainNotGone(xs, ms, again, again[i]);
      } else {
        assert ms[i - |again|] in ms;
        BatchNotGone(xs, ms, again, i - |again|);
      }
    }
    forall k | k in saved
      ensures k in fates' || Holds(ts, k)
    {
      if k !in fates' {
        StillHeld(l, b, saved, fates, xs, ms, again, ts, k);
      }
    }
    forall k | k in fates'
      ensures k in saved
    {
      if Gone(xs, again, k) {
        var i :| 0 <= i < |xs| && xs[i].save && xs[i] !in again && xs[i].tx.msgs == k;
        assert xs[i] in xs;
      }
    }
  }

  lemma AgainNotGone(xs: seq<PendingTx>, ms: seq<ProcessedMsgs>, again: seq<PendingTx>, x: PendingTx)
    requires Unrepeated(xs, ms) && x in again && x in xs
    ensures !Gone(xs, again, x.tx.msgs)
  {
    var j :| 0 <= j < |xs| && xs[j] == x;
  }

  lemma BatchNotGone(xs: seq<PendingTx>, ms: seq<ProcessedMsgs>, again: seq<PendingTx>, i: nat)
    requires Unrepeated(xs, ms) && i < |ms|
    ensures !Gone(xs, again, ms[i].msgs)
  {
  }

  lemma StillHeld(l: seq<PendingTx>, b: seq<ProcessedMsgs>, saved: set<nat>, fates: map<nat, Fate>,
                  xs: seq<PendingTx>, ms: seq<ProcessedMsgs>, again: seq<PendingTx>, ts: seq<Token>, k: nat)
    requires forall x :: x in l && x.save ==> x in xs
    requires forall m :: m in b && m.save ==> m in ms
    requires |ts| == |again| + |ms|
    requires forall i :: 0 <= i < |ts| ==>
               ts[i].save && ts[i].msgs == if i < |again| then again[i].tx.msgs else ms[i - |again|].msgs
    requires k in saved && k !in fates && Conserved(TokensOf(l, b), saved, fates) && !Gone(xs, again, k)
    ensures Holds(ts, k)
  {
    var i := HoldsAt(TokensOf(l, b), k);
    if i < |l| {
      assert TokensOf(l, b)[i] == TxToken(l[i]);
      assert l[i] in xs;
      var j :| 0 <= j < |xs| && xs[j] == l[i];
      assert xs[j] in again;
      var j' :| 0 <= j' < |again| && again[j'] == l[i];
      assert ts[j'].msgs == k;
    } else {
      var m := b[i - |l|];
      assert TokensOf(l, b)[i] == BatchToken(m);
      assert m in ms;
      var j :| 0 <= j < |ms| && ms[j] == m;
      assert ts[|again| + j].msgs == k;
    }
  }

  lemma RestartFates(fates: map<nat, Fate>, txs: seq<PendingTx>, again: seq<PendingTx>)
    requires FatesOk(fates)
    ensures FatesOk(Reloaded(fates, txs, again))
  {
    ReloadedIs(fates, txs, again);
  }

  lemma MirrorsMsgAll(batch: seq<ProcessedMsgs>)
    requires DistinctMsgs(batch)
    ensures MirrorsMsgs(SaveProcessedMsgs(map[], batch), batch)
  {
    SavedMsgs(map[], batch);
  }

  lemma RestartKeeps(s: Sys, answers: seq<Answer>, stamps: seq<nat>, loaded: map<Address, nat>)
    requires Inv(s) && CanRestart(s, answers, stamps)
    ensures Inv(Restarted(s, answers, stamps, loaded))
  {
    var s' := Restarted(s, answers, stamps, loaded);
    var xs, ms := LoadedTxs(s), LoadedMsgs(s);
    var again := ToReprocess(xs, answers).value;
    hide Conserved, DistinctTxs, DistinctMsgs, Unrepeated, Reloaded, FatesOk, Live, Inbox, Distinct, BatchTokens,
      SaveProcessedMsgs, DeleteProcessedMsgs, DeletePendingTxs, ToReprocess, Gone, Holds;
    ToReprocessShorter(xs, answers);
    LoadsLive(s.pending, Live(s));
    LoadsInbox(s.processed, Inbox(s));
    LoadedTxsDeleted(s.pending);
    LoadedMsgsDeleted(s.processed);
    hide MirrorsTxs, MirrorsMsgs, Values, Ascending;
    LoadedUnrepeated(Live(s), Inbox(s), s.saved, s.fates, xs, ms);
    ReprocessUnrepeated(xs, ms, answers);
    RestampedTokens(again, ms, stamps, |xs|);
    RestartTokens(Live(s), Inbox(s), s.saved, s.fates, xs, ms, again, BatchTokens(s'.channel));
    RestartFates(s.fates, xs, again);
    MirrorsMsgAll(s'.channel);
    RestartedShape(s');
  }

  lemma RestartedShape(s: Sys)
    requires s.queue == [] && s.producer == Waiting && s.checker == Polling && s.pending == map[]
    ensures Live(s) == [] && Inbox(s) == s.channel && CheckerOk(s)
    ensures TokensOf(Live(s), Inbox(s)) == BatchTokens(s.channel)
    ensures MirrorsTxs(s.pending, Live(s))
  {
    assert Inbox(s) == s.channel;
    assert TxTokens([]) + BatchTokens(s.channel) == BatchTokens(s.channel);
  }

  lemma StepKeeps(s: Sys, a: Action)
    requires Inv(s) && Enabled(s, a)
    ensures Inv(Next(s, a))
  {
    hide Inv;
    match a
    case Save(m) => SaveKeeps(s, m);
    case Take => TakeKeeps(s);
    case Broadcast(memo) => BroadcastKeeps(s, memo);
    case CommitFails => CommitFailsKeeps(s);
    case Fail(e) => FailKeeps(s, e);
    case Enqueue => EnqueueKeeps(s);
    case Peek => MoveKeeps(s, a);
    case Settle(included) => SettleKeeps(s, included);
    case Dequeue => DequeueKeeps(s);
    case NotFound => MoveKeeps(s, a);
    case Rebuild(memos) => RebuildKeeps(s, memos);
    case PublishRebuild => PublishRebuildKeeps(s);
    case Truncate(onChain) => TruncateKeeps(s, onChain);
    case PublishTruncate => PublishTruncateKeeps(s);
    case Continue => MoveKeeps(s, a);
    case Restart(answers, stamps, loaded) => RestartKeeps(s, answers, stamps, loaded);
  }

  /** Steps that only move the checker. */
  lemma MoveKeeps(s: Sys, a: Action)
    requires Inv(s) && Enabled(s, a) && (a.Peek? || a.NotFound? || a.Continue?)
    ensures Inv(Next(s, a))
  {
    hide Conserved, MirrorsTxs, MirrorsMsgs, TokensOf;
    var s' := Next(s, a);
    assert Live(s') == Live(s) && Inbox(s') == Inbox(s);
  }

  /** A fresh database and no work. */
  predicate Initial(s: Sys)
  {
    && s.processed == map[] && s.pending == map[] && s.queue == [] && s.channel == []
    && s.producer == Waiting && s.checker == Polling && s.saved == {} && s.fates == map[]
  }

  lemma InitialInv(s: Sys)
    requires Initial(s)
    ensures Inv(s)
  {
    RestartedShape(s);
    assert BatchTokens(s.channel) == [];
  }

  lemma {:induction false} RunKeeps(states: seq<Sys>, actions: seq<Action>)
    requires Run(states, actions) && Initial(states[0])
    ensures forall i :: 0 <= i < |states| ==> Inv(states[i])
  {
    hide Inv, Enabled, Next, Initial;
    var n := |actions|;
    if n == 0 {
      InitialInv(states[0]);
    } else {
      RunKeeps(states[..n], actions[..n - 1]);
      assert states[..n][n - 1] == states[n - 1];
      StepKeeps(states[n - 1], actions[n - 1]);
      forall i | 0 <= i < |states| ensures Inv(states[i]) {
        if i < n {
          assert states[..n][i] == states[i];
        }
      }
    }
  }
}
