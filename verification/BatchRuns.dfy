/**
 The batch submitter (executor/batchsubmitter) over whole runs: blocks are appended to the batch file until the batch is
 finalized; attempts fail, the process restarts, the file is found corrupted, the batch destination changes.
 */
module BatchRuns {
  import opened Prelude
  import opened ByteOrder
  import opened BatchCodec
  import opened BatchPipeline

  /** LocalBatchInfo: end is 0 while the batch is open. */
  datatype Info = Info(start: nat, end: nat)

  /** What is written to the batch file. */
  datatype Record = Block(height: nat) | Commit(height: nat)

  datatype Batch = Batch(start: nat, end: nat, records: seq<Record>)

  /**
   info and stored (the synced height, 0 if there is none) are in the database, height is the synced height in memory.
   base: first block of the current destination; batches: what was published to it; down: the process has to be started.
   */
  datatype State = State(info: Info, stored: nat, height: nat, file: seq<Record>, base: nat, batches: seq<Batch>, down: bool)

  // ----- The steps -----

  function Appended(s: State, h: nat): (Info, seq<Record>)
  {
    if s.info.end != 0 then (Info(h, 0), [Block(h)]) else (s.info, s.file + [Block(h)])
  }

  /** A block handled to the end. */
  function Handled(s: State, finalize: bool): State
  {
    var h := s.height + 1;
    var (info, file) := Appended(s, h);
    if finalize then
      var file' := file + [Commit(h)];
      s.(info := Info(info.start, h), stored := h, height := h, file := file', batches := s.batches + [Batch(info.start, h, file')])
    else s.(info := info, stored := h, height := h, file := file)
  }

  /** A block whose handling fails after it was written: the database keeps what it had, the file does not. */
  function Failed(s: State, finalize: bool): State
  {
    var h := s.height + 1;
    var file := Appended(s, h).1;
    s.(file := if finalize then file + [Commit(h)] else file)
  }

  /** No height is stored: batching starts after the block the node is told to start from. */
  function Fresh(s: State, processed: nat): State
  {
    s.(info := Info(processed + 1, 0), height := processed, file := [], base := processed + 1, batches := [], down := false)
  }

  /** The file is corrupted: the batch starts over. The stored height stays until the next block is committed. */
  function StartedOver(s: State): State
    requires s.info.start >= 1
  {
    s.(info := Info(s.info.start, 0), height := s.info.start - 1, file := [], down := false)
  }

  function Restarted(s: State, corrupted: bool, processed: nat): State
    requires s.info.start >= 1
  {
    if s.stored == 0 then Fresh(s, processed)
    else if corrupted && s.file != [] then StartedOver(s)
    else s.(height := s.stored, down := false)
  }

  /** The next batch info took effect at block n: batching starts over behind it, with a new process. */
  function Switched(s: State, n: nat): State
  {
    s.(info := Info(n + 1, 0), stored := n, file := [], base := n + 1, batches := [], down := true)
  }

  // ----- The object -----

  class BatchSubmitter {
    var dbInfo: Info
    var dbSyncedHeight: nat
    var syncedHeight: nat
    var batchFile: seq<Record>
    var localBatchInfo: Info
    ghost var base: nat
    ghost var batches: seq<Batch>
    ghost var down: bool

    ghost function View(): State
      reads this
    {
      State(dbInfo, dbSyncedHeight, syncedHeight, batchFile, base, batches, down)
    }

    /** A first start: nothing is stored. */
    constructor (processed: nat)
      ensures View() == State(Info(processed + 1, 0), 0, processed, [], processed + 1, [], false)
    {
      dbInfo, localBatchInfo := Info(processed + 1, 0), Info(processed + 1, 0);
      dbSyncedHeight, syncedHeight, batchFile := 0, processed, [];
      base, batches, down := processed + 1, [], false;
    }

    /** A restart. Whether the file was found corrupted is the caller's finding; an empty file never is. */
    method Initialize(corrupted: bool, processed: nat)
      requires dbInfo.start >= 1
      modifies this
      ensures View() == Restarted(old(View()), corrupted, processed)
    {
      localBatchInfo := dbInfo;
      syncedHeight := dbSyncedHeight;
      down := false;
      if syncedHeight == 0 {
        localBatchInfo := Info(processed + 1, 0);
        dbInfo, batchFile := localBatchInfo, [];
        syncedHeight := processed;
        base, batches := processed + 1, [];
      } else if |batchFile| != 0 && corrupted {
        localBatchInfo := Info(localBatchInfo.start, 0);
        dbInfo, batchFile := localBatchInfo, [];
        syncedHeight := localBatchInfo.start - 1;
      }
    }

    /** switched: the batch info changed and the process has to start again. */
    method PrepareBatch(blockHeight: nat, next: Option<nat>) returns (switched: bool)
      modifies this
      ensures switched == (next.Some? && next.value < old(dbInfo).start)
      ensures switched ==> dbInfo == Info(next.value + 1, 0) && dbSyncedHeight == next.value && batchFile == []
      ensures switched ==> View() == Switched(old(View()), next.value)
      ensures !switched ==>
                && View() == old(View()).(file := if old(dbInfo).end != 0 then [] else old(batchFile))
                && localBatchInfo == if old(dbInfo).end != 0 then Info(blockHeight, 0) else old(dbInfo)
    {
      localBatchInfo := dbInfo;
      if next.Some? && next.value < localBatchInfo.start {
        batchFile := [];
        localBatchInfo := Info(next.value + 1, 0);
        dbInfo, dbSyncedHeight := localBatchInfo, next.value;
        base, batches, down := next.value + 1, [], true;
        return true;
      }
      if localBatchInfo.end != 0 {
        batchFile := [];
        localBatchInfo := Info(blockHeight, 0);
      }
      return false;
    }

    /** finalize is checkBatch's answer; commits: whether everything after the writing succeeds. */
    method HandleRawBlock(next: Option<nat>, finalize: bool, commits: bool) returns (switched: bool)
      modifies this
      ensures switched == (next.Some? && next.value < old(dbInfo).start)
      ensures View() == if switched then Switched(old(View()), next.value)
                        else if commits then Handled(old(View()), finalize)
                        else Failed(old(View()), finalize)
    {
      var blockHeight := syncedHeight + 1;
      switched := PrepareBatch(blockHeight, next);
      if switched {
        return;
      }
      assert [] + [Block(blockHeight)] == [Block(blockHeight)];
      batchFile := batchFile + [Block(blockHeight)];
      if finalize {
        localBatchInfo := localBatchInfo.(end := blockHeight);
        batchFile := batchFile + [Commit(blockHeight)];
      }
      if !commits {
        return;
      }
      dbInfo, dbSyncedHeight, syncedHeight := localBatchInfo, blockHeight, blockHeight;
      if finalize {
        batches := batches + [Batch(localBatchInfo.start, localBatchInfo.end, batchFile)];
      }
    }
  }

  // ----- Runs -----

  datatype Action = Handle(finalize: bool) | Fail(finalize: bool) | Restart(corrupted: bool, processed: nat) | Switch(n: nat)

  predicate Enabled(s: State, a: Action)
  {
    match a
    case Handle(_) => !s.down
    case Fail(_) => !s.down
    case Restart(_, _) => s.info.start >= 1
    case Switch(n) => !s.down && n < s.info.start
  }

  function Next(s: State, a: Action): State
    requires Enabled(s, a)
  {
    match a
    case Handle(finalize) => Handled(s, finalize)
    case Fail(finalize) => Failed(s, finalize)
    case Restart(corrupted, processed) => Restarted(s, corrupted, processed)
    case Switch(n) => Switched(s, n)
  }

  ghost predicate Run(states: seq<State>, actions: seq<Action>)
  {
    && |states| == |actions| + 1
    && forall i :: 0 <= i < |actions| ==> Enabled(states[i], actions[i]) && states[i + 1] == Next(states[i], actions[i])
  }

  predicate Initial(s: State)
  {
    s.base >= 1 && s == State(Info(s.base, 0), 0, s.base - 1, [], s.base, [], false)
  }

  // ----- What a batch should hold -----

  function Blocks(start: nat, end: nat): (bs: seq<Record>)
    requires start <= end + 1
    ensures |bs| == end + 1 - start && forall i :: 0 <= i < |bs| ==> bs[i] == Block(start + i)
  {
    seq(end + 1 - start, i requires 0 <= i => Block(start + i))
  }

  /** Exactly the blocks of the range, and the commit of the last one. */
  predicate Whole(b: Batch)
  {
    1 <= b.start <= b.end && b.records == Blocks(b.start, b.end) + [Commit(b.end)]
  }

  /**
   What happened to the file since it was last emptied. Intact: every attempt succeeded. Retried: the first attempt after
   starting over failed, for the very block the stored height is at. Spoiled: anything else.
   */
  datatype Track = Intact | Retried | Spoiled

  /** How a step changes that. Only the attempts and the heights matter, not the contents of the file. */
  function Tracks(s: State, a: Action, t: Track): Track
  {
    if s.info.end != 0 then Intact
    else
      match a
      case Handle(_) => if t == Intact then Intact else Spoiled
      case Fail(finalize) =>
        if t == Intact && !finalize && s.height + 1 == s.info.start == s.stored then Retried else Spoiled
      case Restart(corrupted, _) =>
        if s.stored == 0 || s.down || (corrupted && s.file != []) || t == Retried then Intact
        else if s.height == s.stored then t
        else Spoiled
      case Switch(_) => Intact
  }

  function TrackAt(states: seq<State>, actions: seq<Action>, i: nat): Track
    requires |states| == |actions| + 1 && i <= |actions|
  {
    if i == 0 then Intact else Tracks(states[i - 1], actions[i - 1], TrackAt(states, actions, i - 1))
  }

  /** Some record is not the block that belongs there. */
  predicate Misplaced(file: seq<Record>, start: nat)
  {
    exists i :: 0 <= i < |file| && file[i] != Block(start + i)
  }

  /** Whatever happens next short of emptying the file, it will not hold the blocks up to the height. */
  predicate WrongForGood(s: State)
  {
    || Misplaced(s.file, s.info.start)
    || (s.height == s.stored && |s.file| != s.height + 1 - s.info.start)
    || (s.height + 1 == s.info.start && s.stored != s.info.start && s.file == [Block(s.info.start)])
  }

  predicate TrackOk(s: State, t: Track)
  {
    && s.info.start >= 1
    && if s.down then s.info == Info(s.stored + 1, 0) && s.file == [] && t == Intact
       else if s.info.end != 0 then s.height == s.stored == s.info.end && s.info.start <= s.info.end
       else
         && s.info.start <= s.height + 1
         && (s.height == s.stored || (s.height + 1 == s.info.start && (s.stored == 0 || s.info.start <= s.stored)))
         && match t
            case Intact => s.file == Blocks(s.info.start, s.height)
            case Retried => s.file == [Block(s.info.start)] && s.height + 1 == s.info.start == s.stored
            case Spoiled => WrongForGood(s)
  }

  lemma MisplacedStays(file: seq<Record>, more: seq<Record>, start: nat)
    requires Misplaced(file, start)
    ensures Misplaced(file + more, start)
  {
    var i :| 0 <= i < |file| && file[i] != Block(start + i);
    assert (file + more)[i] == file[i];
  }

  lemma MisplacedAt(file: seq<Record>, start: nat, i: nat)
    requires i < |file| && file[i] != Block(start + i)
    ensures Misplaced(file, start)
  {
  }

  /** A wrong file does not hold the blocks. */
  lemma WrongIsWrong(s: State)
    requires WrongForGood(s) && 1 <= s.info.start <= s.height + 1
    ensures s.file != Blocks(s.info.start, s.height)
  {
    if Misplaced(s.file, s.info.start) {
      var i :| 0 <= i < |s.file| && s.file[i] != Block(s.info.start + i);
    }
  }

  /** Appending the next block, and then perhaps its commit, to a wrong file leaves it wrong. */
  lemma WrongStays(s: State, more: seq<Record>)
    requires WrongForGood(s) && 1 <= s.info.start <= s.height + 1
    ensures Misplaced(s.file + [Block(s.height + 1)] + more, s.info.start) || |s.file| > s.height + 1 - s.info.start
    ensures s.height != s.stored ==> Misplaced(s.file + [Block(s.height + 1)] + more, s.info.start)
  {
    var file := s.file + [Block(s.height + 1)] + more;
    if Misplaced(s.file, s.info.start) {
      MisplacedStays(s.file, [Block(s.height + 1)] + more, s.info.start);
      assert file == s.file + ([Block(s.height + 1)] + more);
    } else if |s.file| != s.height + 1 - s.info.start && |s.file| <= s.height + 1 - s.info.start {
      MisplacedAt(file, s.info.start, |s.file|);
    } else if s.height + 1 == s.info.start && s.file == [Block(s.info.start)] {
      MisplacedAt(file, s.info.start, 1);
    }
  }

  lemma HandleTracks(s: State, finalize: bool, t: Track)
    requires TrackOk(s, t) && !s.down
    ensures TrackOk(Handled(s, finalize), Tracks(s, Handle(finalize), t))
  {
    var s' := Handled(s, finalize);
    if s.info.end == 0 && !finalize {
      match t
      case Intact =>
      case Retried => MisplacedAt(s'.file, s.info.start, 1);
      case Spoiled => WrongStays(s, []);
    }
  }

  lemma FailTracks(s: State, finalize: bool, t: Track)
    requires TrackOk(s, t) && !s.down
    ensures TrackOk(Failed(s, finalize), Tracks(s, Fail(finalize), t))
  {
    if s.info.end == 0 {
      var s', more := Failed(s, finalize), if finalize then [Commit(s.height + 1)] else [];
      assert s'.file == s.file + [Block(s.height + 1)] + more;
      match t
      case Intact =>
        if s.height != s.stored && finalize { MisplacedAt(s'.file, s.info.start, 1); }
      case Retried => MisplacedAt(s'.file, s.info.start, 1);
      case Spoiled => WrongStays(s, more);
    }
  }

  lemma StepTracks(s: State, a: Action, t: Track)
    requires TrackOk(s, t) && Enabled(s, a)
    ensures TrackOk(Next(s, a), Tracks(s, a, t))
  {
    match a
    case Handle(finalize) => HandleTracks(s, finalize, t);
    case Fail(finalize) => FailTracks(s, finalize, t);
    case Restart(corrupted, processed) =>
    case Switch(n) =>
  }

  lemma {:induction false} RunTracks(states: seq<State>, actions: seq<Action>, i: nat)
    requires Run(states, actions) && Initial(states[0]) && i <= |actions|
    ensures TrackOk(states[i], TrackAt(states, actions, i))
  {
    if i > 0 {
      hide Enabled, Next, TrackOk, Tracks, Initial;
      RunTracks(states, actions, i - 1);
      StepTracks(states[i - 1], actions[i - 1], TrackAt(states, actions, i - 1));
      assert states[i - 1 + 1] == Next(states[i - 1], actions[i - 1]);
    }
  }

  /** The batch a finalizing block publishes. */
  function Published(s: State): Batch
  {
    var h := s.height + 1;
    var (info, file) := Appended(s, h);
    Batch(info.start, h, file + [Commit(h)])
  }

  lemma PublishedWholeIff(s: State, t: Track)
    requires TrackOk(s, t) && !s.down
    ensures Whole(Published(s)) <==> s.info.end != 0 || t == Intact
  {
    var h, b := s.height + 1, Published(s);
    if s.info.end == 0 {
      var blocks := Blocks(s.info.start, h);
      assert blocks[..|blocks| - 1] == Blocks(s.info.start, s.height);
      assert b.records[..|b.records| - 1] == s.file + [Block(h)];
      assert (s.file + [Block(h)])[..|s.file|] == s.file;
      if Whole(b) {
        assert b.records[..|b.records| - 1] == blocks;
        assert s.file == Blocks(s.info.start, s.height);
      }
      if t == Spoiled { WrongIsWrong(s); }
    } else {
      assert b.records == Blocks(h, h) + [Commit(h)];
    }
  }

  /**
   A published batch holds exactly the blocks of its range if and only if it is a batch of one block written right after
   another batch, or the file is intact: since it was last emptied no attempt failed and no restart went to another
   height, but for one failed attempt that such a restart made good.
   */
  lemma RunWholeIff(states: seq<State>, actions: seq<Action>, i: nat)
    requires Run(states, actions) && Initial(states[0]) && i < |actions| && actions[i] == Handle(true)
    ensures states[i + 1].batches == states[i].batches + [Published(states[i])]
    ensures Whole(Published(states[i])) <==> states[i].info.end != 0 || TrackAt(states, actions, i) == Intact
  {
    RunTracks(states, actions, i);
    assert Enabled(states[i], actions[i]) && states[i + 1] == Next(states[i], actions[i]);
    PublishedWholeIff(states[i], TrackAt(states, actions, i));
  }

  /** The step leaves the open file as it is: it neither empties it nor moves to another height. */
  predicate Quiet(s: State, a: Action)
  {
    && s.info.end == 0 && !a.Switch?
    && (a.Restart? ==> !s.down && s.stored != 0 && s.height == s.stored && !(a.corrupted && s.file != []))
  }

  /** While the file is neither emptied nor passed over by a restart, it stays intact if and only if no attempt fails. */
  lemma {:induction false} RunIntactIff(states: seq<State>, actions: seq<Action>, e: nat, i: nat)
    requires Run(states, actions) && Initial(states[0]) && e <= i <= |actions|
    requires TrackAt(states, actions, e) == Intact
    requires forall k :: e <= k < i ==> Quiet(states[k], actions[k])
    ensures TrackAt(states, actions, i) == Intact <==> forall k :: e <= k < i ==> !actions[k].Fail?
    decreases i
  {
    if e < i {
      RunIntactIff(states, actions, e, i - 1);
      RunTracks(states, actions, i - 1);
      assert Quiet(states[i - 1], actions[i - 1]);
    }
  }

  // ----- Ranges -----

  /** First block not published yet. */
  function Unpublished(base: nat, batches: seq<Batch>): nat
  {
    if |batches| == 0 then base else batches[|batches| - 1].end + 1
  }

  predicate ChainedRanges(base: nat, batches: seq<Batch>)
  {
    forall k :: 0 <= k < |batches| ==>
      1 <= batches[k].start <= batches[k].end && batches[k].start == Unpublished(base, batches[..k])
  }

  /** Each range starts where the one before ended, and so does the batch now open. */
  predicate Ranged(s: State)
  {
    && s.base >= 1 && ChainedRanges(s.base, s.batches) && (s.stored == 0 ==> s.batches == [])
    && if s.info.end == 0 then
         && s.info.start == Unpublished(s.base, s.batches)
         && (s.down || s.info.start <= s.height + 1) && (s.stored == 0 || s.info.start <= s.stored + 1)
       else
         && |s.batches| > 0 && s.height == s.stored == s.info.end
         && s.info == Info(s.batches[|s.batches| - 1].start, s.batches[|s.batches| - 1].end)
  }

  lemma RangesAppend(base: nat, batches: seq<Batch>, b: Batch)
    requires ChainedRanges(base, batches) && 1 <= b.start <= b.end && b.start == Unpublished(base, batches)
    ensures ChainedRanges(base, batches + [b])
  {
    var all := batches + [b];
    forall k | 0 <= k < |all|
      ensures 1 <= all[k].start <= all[k].end && all[k].start == Unpublished(base, all[..k])
    {
      if k < |batches| {
        assert all[..k] == batches[..k];
      } else {
        assert all[..k] == batches;
      }
    }
  }

  lemma HandledRanged(s: State, finalize: bool)
    requires Ranged(s) && !s.down
    ensures Ranged(Handled(s, finalize))
    ensures 1 <= Published(s).start <= Published(s).end && Published(s).start == Unpublished(s.base, s.batches)
  {
    assert 1 <= Unpublished(s.base, s.batches);
    if finalize {
      hide ChainedRanges;
      RangesAppend(s.base, s.batches, Published(s));
    }
  }

  /** The file is found corrupted after its batch was published and before the next one was begun. */
  predicate StartsOverBehind(s: State, a: Action)
  {
    a.Restart? && a.corrupted && s.stored != 0 && s.file != [] && s.info.end != 0
  }

  /** Failed attempts and other restarts do not matter to the ranges. */
  lemma StepRangesIff(s: State, a: Action)
    requires Ranged(s) && Enabled(s, a)
    ensures Ranged(Next(s, a)) <==> !StartsOverBehind(s, a)
  {
    match a
    case Handle(finalize) => HandledRanged(s, finalize);
    case Fail(_) =>
    case Restart(_, _) => assert |s.batches| > 0 ==> s.batches[|s.batches| - 1].start <= s.batches[|s.batches| - 1].end;
    case Switch(_) =>
  }

  /** Batching begins anew: for another destination, or at a start with no height stored. */
  predicate Begins(s: State, a: Action)
  {
    a.Switch? || (a.Restart? && s.stored == 0)
  }

  /** The run begins, or batching begins anew, with state m. */
  predicate BegunAt(states: seq<State>, actions: seq<Action>, m: nat)
    requires |states| == |actions| + 1 && m <= |actions|
  {
    m == 0 || Begins(states[m - 1], actions[m - 1])
  }

  lemma BegunRanged(states: seq<State>, actions: seq<Action>, m: nat)
    requires Run(states, actions) && Initial(states[0]) && m <= |actions| && BegunAt(states, actions, m)
    ensures Ranged(states[m]) && states[m].batches == []
  {
    if m > 0 {
      assert states[m - 1 + 1] == Next(states[m - 1], actions[m - 1]);
    }
  }

  /** However often handlers fail and the process restarts, each range starts where the one before ended. */
  lemma {:induction false} RunRanges(states: seq<State>, actions: seq<Action>, m: nat, i: nat)
    requires Run(states, actions) && Initial(states[0]) && m <= i <= |actions| && BegunAt(states, actions, m)
    requires forall k :: m <= k < i ==> !StartsOverBehind(states[k], actions[k])
    ensures Ranged(states[i])
    decreases i
  {
    hide Enabled, Next, Ranged, Initial, BegunAt;
    if m < i {
      RunRanges(states, actions, m, i - 1);
      StepRangesIff(states[i - 1], actions[i - 1]);
      assert states[i - 1 + 1] == Next(states[i - 1], actions[i - 1]);
    } else {
      BegunRanged(states, actions, m);
    }
  }

  // ----- Where batching begins -----

  /** Batching begins after block n. */
  predicate BeginsAfter(s: State, a: Action, n: nat)
  {
    a == Switch(n) || (a.Restart? && s.stored == 0 && a.processed == n)
  }

  /** The first batch is, or will be, the one that starts with block n + 1. */
  predicate FirstAfter(s: State, n: nat)
  {
    s.base == n + 1 && if s.batches == [] then s.info == Info(n + 1, 0) else s.batches[0].start == n + 1
  }

  lemma StepFirstAfter(s: State, a: Action, n: nat)
    requires Enabled(s, a)
    ensures BeginsAfter(s, a, n) ==> FirstAfter(Next(s, a), n)
    ensures FirstAfter(s, n) && !Begins(s, a) ==> FirstAfter(Next(s, a), n)
  {
  }

  /** Once batching began after block n, and until it begins anew, the first batch published starts with block n + 1. */
  lemma {:induction false} RunBegins(states: seq<State>, actions: seq<Action>, j: nat, i: nat, n: nat)
    requires Run(states, actions) && j < i <= |actions| && BeginsAfter(states[j], actions[j], n)
    requires forall k :: j < k < i ==> !Begins(states[k], actions[k])
    ensures states[i].base == n + 1
    ensures if states[i].batches == [] then states[i].info == Info(n + 1, 0) else states[i].batches[0].start == n + 1
    decreases i
  {
    hide Enabled, Next, BeginsAfter, Begins;
    if j + 1 < i {
      RunBegins(states, actions, j, i - 1, n);
    }
    StepFirstAfter(states[i - 1], actions[i - 1], n);
    assert states[i - 1 + 1] == Next(states[i - 1], actions[i - 1]);
  }

  // ----- Every block once -----

  predicate AllWhole(batches: seq<Batch>)
  {
    forall k :: 0 <= k < |batches| ==> Whole(batches[k])
  }

  /** The blocks of the batches, one after the other. */
  function BlocksOf(batches: seq<Batch>): seq<Record>
  {
    if |batches| == 0 then []
    else
      var b := batches[|batches| - 1];
      BlocksOf(batches[..|batches| - 1]) + (if |b.records| > 0 then b.records[..|b.records| - 1] else [])
  }

  lemma {:induction false} ChainedCovers(base: nat, batches: seq<Batch>)
    requires base >= 1 && ChainedRanges(base, batches) && AllWhole(batches)
    ensures base <= Unpublished(base, batches) && BlocksOf(batches) == Blocks(base, Unpublished(base, batches) - 1)
  {
    if |batches| > 0 {
      hide *;
      var init, b := batches[..|batches| - 1], batches[|batches| - 1];
      ChainedFront(base, batches);
      ChainedCovers(base, init);
      WholeBlocks(batches);
      BlocksConcat(base, b.start, b.end);
    }
  }

  lemma ChainedFront(base: nat, batches: seq<Batch>)
    requires |batches| > 0 && ChainedRanges(base, batches) && AllWhole(batches)
    ensures var init, b := batches[..|batches| - 1], batches[|batches| - 1];
            && ChainedRanges(base, init) && AllWhole(init)
            && b.start == Unpublished(base, init) && Unpublished(base, batches) == b.end + 1
  {
    var init := batches[..|batches| - 1];
    forall k | 0 <= k < |init|
      ensures 1 <= init[k].start <= init[k].end && init[k].start == Unpublished(base, init[..k])
    {
      assert init[k] == batches[k] && init[..k] == batches[..k];
    }
  }

  lemma WholeBlocks(batches: seq<Batch>)
    requires |batches| > 0 && AllWhole(batches)
    ensures var init, b := batches[..|batches| - 1], batches[|batches| - 1];
            1 <= b.start <= b.end && BlocksOf(batches) == BlocksOf(init) + Blocks(b.start, b.end)
  {
    hide Blocks;
    var b := batches[|batches| - 1];
    assert Whole(b) && b.records[..|b.records| - 1] == Blocks(b.start, b.end);
  }

  lemma BlocksConcat(a: nat, b: nat, c: nat)
    requires 1 <= a <= b <= c + 1
    ensures Blocks(a, b - 1) + Blocks(b, c) == Blocks(a, c)
  {
  }

  /** Every batch published in between was written to an intact file. */
  ghost predicate AllIntact(states: seq<State>, actions: seq<Action>, m: nat, i: nat)
    requires |states| == |actions| + 1 && m <= i <= |actions|
  {
    forall k :: m <= k < i && actions[k] == Handle(true) ==> states[k].info.end != 0 || TrackAt(states, actions, k) == Intact
  }

  lemma {:induction false} RunAllWhole(states: seq<State>, actions: seq<Action>, m: nat, i: nat)
    requires Run(states, actions) && Initial(states[0]) && m <= i <= |actions| && BegunAt(states, actions, m)
    requires AllIntact(states, actions, m, i)
    ensures AllWhole(states[i].batches)
    decreases i
  {
    if m == i {
      BegunRanged(states, actions, m);
    } else {
      RunAllWhole(states, actions, m, i - 1);
      var s, a := states[i - 1], actions[i - 1];
      assert Enabled(s, a) && states[i - 1 + 1] == Next(s, a);
      if a == Handle(true) {
        RunWholeIff(states, actions, i - 1);
      }
    }
  }

  /**
   If, since batching began, every batch was written to an intact file and the file was never found corrupted behind a
   published batch, then what was published, followed by the open file while it is intact, is every block from the base
   on, once and in order.
   */
  lemma RunCovers(states: seq<State>, actions: seq<Action>, m: nat, i: nat)
    requires Run(states, actions) && Initial(states[0]) && m <= i <= |actions| && !states[i].down && BegunAt(states, actions, m)
    requires AllIntact(states, actions, m, i) && forall k :: m <= k < i ==> !StartsOverBehind(states[k], actions[k])
    requires states[i].info.end != 0 || TrackAt(states, actions, i) == Intact
    ensures var s := states[i];
            && s.base <= s.height + 1
            && BlocksOf(s.batches) + (if s.info.end == 0 then s.file else []) == Blocks(s.base, s.height)
  {
    RunRanges(states, actions, m, i);
    RunAllWhole(states, actions, m, i);
    RunTracks(states, actions, i);
    StateCovers(states[i], TrackAt(states, actions, i));
  }

  /** The same from the block batching began after: no block behind n is left out, and none up to n is there. */
  lemma RunCoversAfter(states: seq<State>, actions: seq<Action>, j: nat, i: nat, n: nat)
    requires Run(states, actions) && Initial(states[0]) && j < i <= |actions| && !states[i].down
    requires BeginsAfter(states[j], actions[j], n) && forall k :: j < k < i ==> !Begins(states[k], actions[k])
    requires AllIntact(states, actions, j + 1, i) && forall k :: j < k < i ==> !StartsOverBehind(states[k], actions[k])
    requires states[i].info.end != 0 || TrackAt(states, actions, i) == Intact
    ensures var s := states[i];
            && n <= s.height
            && BlocksOf(s.batches) + (if s.info.end == 0 then s.file else []) == Blocks(n + 1, s.height)
  {
    assert BegunAt(states, actions, j + 1);
    RunBegins(states, actions, j, i, n);
    hide Run, Initial, TrackAt, AllIntact, BlocksOf, Blocks;
    RunCovers(states, actions, j + 1, i);
  }

  lemma StateCovers(s: State, t: Track)
    requires Ranged(s) && AllWhole(s.batches) && TrackOk(s, t) && !s.down && (s.info.end != 0 || t == Intact)
    ensures s.base <= s.height + 1
    ensures BlocksOf(s.batches) + (if s.info.end == 0 then s.file else []) == Blocks(s.base, s.height)
  {
    ChainedCovers(s.base, s.batches);
    hide ChainedRanges, AllWhole, BlocksOf;
    if s.info.end == 0 {
      BlocksConcat(s.base, s.info.start, s.height);
    } else {
      assert BlocksOf(s.batches) + [] == BlocksOf(s.batches);
    }
  }

  // ----- What the published messages contain -----

  /** The bytes of the records. */
  function BytesOf(block: nat -> Bytes, commit: nat -> Bytes, records: seq<Record>): (rs: seq<Bytes>)
    ensures |rs| == |records|
    ensures forall i :: 0 <= i < |records| ==>
              rs[i] == match records[i] { case Block(h) => block(h) case Commit(h) => commit(h) }
  {
    seq(|records|, i requires 0 <= i < |records| => match records[i] { case Block(h) => block(h) case Commit(h) => commit(h) })
  }

  function BlockBytes(block: nat -> Bytes, start: nat, end: nat): (bs: seq<Bytes>)
    requires start <= end + 1
    ensures |bs| == end + 1 - start && forall i :: 0 <= i < |bs| ==> bs[i] == block(start + i)
  {
    seq(end + 1 - start, i requires 0 <= i => block(start + i))
  }

  lemma WholeBytes(b: Batch, block: nat -> Bytes, commit: nat -> Bytes)
    requires Whole(b)
    ensures BytesOf(block, commit, b.records) == BlockBytes(block, b.start, b.end) + [commit(b.end)]
  {
  }

  /** The messages of a batch read back as exactly what was written to the file. */
  lemma RecordsReadBack(start: nat, end: nat, records: seq<Record>, sum: Sum, deflate: Bytes -> Bytes, inflate: Inflate,
                        block: nat -> Bytes, commit: nat -> Bytes, contents: seq<Bytes>, maxChunkSize: nat)
    requires start <= end < U64 && |records| > 0
    requires IsSum(sum) && Lossless(deflate, inflate) && maxChunkSize > 0
    requires var rs := BytesOf(block, commit, records);
             Short(rs) && Concat(contents) == Framed(rs) && |Concat(Each(deflate, contents))| < U64
    ensures Reconstruct(sum, inflate, BatchMsgs(sum, start, end, Concat(Each(deflate, contents)), maxChunkSize))
            == Some(BytesOf(block, commit, records))
  {
    hide Lossless, IsSum, Reconstruct, BatchMsgs, Framed, Concat, Each, Short;
    var rs := BytesOf(block, commit, records);
    var last := |rs| - 1;
    assert rs == rs[..last] + [rs[last]];
    BlocksReadBack(sum, deflate, inflate, start, end, contents, rs[..last], rs[last], maxChunkSize);
  }

  /**
   In every run the messages of a published batch read back as what was written to the file; if the file was intact, that
   is exactly the blocks of its range and the commit of the last one.
   */
  lemma RunReadsBack(states: seq<State>, actions: seq<Action>, i: nat,
                     sum: Sum, deflate: Bytes -> Bytes, inflate: Inflate,
                     block: nat -> Bytes, commit: nat -> Bytes, contents: seq<Bytes>, maxChunkSize: nat)
    requires Run(states, actions) && Initial(states[0]) && i < |actions| && actions[i] == Handle(true)
    requires IsSum(sum) && Lossless(deflate, inflate) && maxChunkSize > 0 && states[i].height + 1 < U64
    requires var records := BytesOf(block, commit, Published(states[i]).records);
             Short(records) && Concat(contents) == Framed(records) && |Concat(Each(deflate, contents))| < U64
    ensures var b := Published(states[i]);
            var read := Reconstruct(sum, inflate, BatchMsgs(sum, b.start, b.end, Concat(Each(deflate, contents)), maxChunkSize));
            && b.start <= b.end
            && read == Some(BytesOf(block, commit, b.records))
            && (states[i].info.end != 0 || TrackAt(states, actions, i) == Intact ==>
                  read == Some(BlockBytes(block, b.start, b.end) + [commit(b.end)]))
  {
    RunTracks(states, actions, i);
    RunWholeIff(states, actions, i);
    var b := Published(states[i]);
    assert b.start <= b.end && |b.records| > 0;
    hide Run, Initial, TrackOk, Lossless, IsSum, Reconstruct, BatchMsgs, Framed, Concat, Each, Short, Published;
    RecordsReadBack(b.start, b.end, b.records, sum, deflate, inflate, block, commit, contents, maxChunkSize);
    if Whole(b) { WholeBytes(b, block, commit); }
  }

  // ----- The harmful runs -----

  /** A block retried within an open batch is published twice. */
  lemma RetryDuplicates() returns (states: seq<State>, actions: seq<Action>)
    ensures Run(states, actions) && Initial(states[0])
    ensures states[|actions|].batches == [Batch(1, 2, [Block(1), Block(2), Block(2), Commit(2)])]
  {
    var s0 := State(Info(1, 0), 0, 0, [], 1, [], false);
    var s1 := Handled(s0, false);
    assert s1.file == [Block(1)];
    var s2 := Failed(s1, false);
    assert s2.file == [Block(1), Block(2)];
    var s3 := Handled(s2, true);
    assert s3.file == [Block(1), Block(2), Block(2), Commit(2)];
    states, actions := [s0, s1, s2, s3], [Handle(false), Fail(false), Handle(true)];
  }

  /** Found corrupted after a batch was published, the file takes the next batch back to where the last one started. */
  lemma StartOverOverlaps() returns (states: seq<State>, actions: seq<Action>)
    ensures Run(states, actions) && Initial(states[0])
    ensures var batches := states[|actions|].batches; |batches| == 2 && batches[0].start == batches[1].start == batches[0].end == 1
  {
    var s0 := State(Info(1, 0), 0, 0, [], 1, [], false);
    var s1 := Handled(s0, true);
    var s2 := Failed(s1, false);
    var s3 := Restarted(s2, true, 0);
    var s4 := Handled(s3, true);
    states, actions := [s0, s1, s2, s3, s4], [Handle(true), Fail(false), Restart(true, 0), Handle(true)];
  }

  /**
   A process that stops between starting over and the next committed block goes on where it had been before: the blocks
   in between are missing from the batch, though its range says they are there.
   */
  lemma RestartLosesBlocks() returns (states: seq<State>, actions: seq<Action>)
    ensures Run(states, actions) && Initial(states[0]) && forall k :: 0 <= k < |actions| ==> !actions[k].Fail?
    ensures states[|actions|].batches == [Batch(1, 4, [Block(4), Commit(4)])]
  {
    var s0 := State(Info(1, 0), 0, 0, [], 1, [], false);
    var s1 := Handled(s0, false);
    var s2 := Handled(s1, false);
    var s3 := Handled(s2, false);
    assert s3.file == [Block(1), Block(2), Block(3)];
    var s4 := Restarted(s3, true, 0);
    var s5 := Restarted(s4, false, 0);
    var s6 := Handled(s5, true);
    assert s6.file == [Block(4), Commit(4)];
    states := [s0, s1, s2, s3, s4, s5, s6];
    actions := [Handle(false), Handle(false), Handle(false), Restart(true, 0), Restart(false, 0), Handle(true)];
  }
}
