/**
 From blocks to published messages and back: length-prefixed records, the compressed batch file, its chunks, the header
 with their checksums (executor/batchsubmitter/batch.go), and the reader that puts the blocks together again.
 */
module BatchPipeline {
  import opened Prelude
  import opened ByteOrder
  import opened BatchCodec

  // ----- Records -----

  function PrependLength(data: Bytes): Bytes
  {
    LittleEndian(|data|, 8) + data
  }

  /** The batch file's content before compression. */
  function Framed(records: seq<Bytes>): Bytes
  {
    if |records| == 0 then [] else PrependLength(records[0]) + Framed(records[1..])
  }

  function Unframed(content: Bytes): Option<seq<Bytes>>
    decreases |content|
  {
    if |content| == 0 then Some([])
    else if |content| < 8 then None
    else
      var n := FromLittleEndian(content[..8]);
      if |content| - 8 < n then None
      else
        var rest := Unframed(content[8 + n..]);
        if rest.None? then None else Some([content[8..8 + n]] + rest.value)
  }

  /** One step of the reader. */
  lemma UnframedStep(content: Bytes, offset: nat, length: nat)
    requires offset + 8 + length <= |content| && length == FromLittleEndian(content[offset..offset + 8])
    ensures var rest := Unframed(content[offset + 8 + length..]);
            Unframed(content[offset..]) ==
            if rest.None? then None else Some([content[offset + 8..offset + 8 + length]] + rest.value)
  {
    var tail := content[offset..];
    assert tail[..8] == content[offset..offset + 8];
    assert tail[8..8 + length] == content[offset + 8..offset + 8 + length];
    assert tail[8 + length..] == content[offset + 8 + length..];
  }

  /** The reader's loop over the records. */
  method SplitRecords(content: Bytes) returns (records: Option<seq<Bytes>>)
    ensures records == Unframed(content)
  {
    var found: seq<Bytes> := [];
    var offset := 0;
    assert content[0..] == content;
    assert Unframed(content).Some? ==> [] + Unframed(content).value == Unframed(content).value;
    while offset < |content|
      invariant 0 <= offset <= |content|
      invariant var rest := Unframed(content[offset..]);
                Unframed(content) == if rest.None? then None else Some(found + rest.value)
    {
      assert |content| - offset >= 8 ==> content[offset..][..8] == content[offset..offset + 8];
      if |content| - offset < 8 {
        return None;
      }
      var length := FromLittleEndian(content[offset..offset + 8]);
      if |content| - offset - 8 < length {
        return None;
      }
      UnframedStep(content, offset, length);
      var record := content[offset + 8..offset + 8 + length];
      offset := offset + 8 + length;
      ghost var rest := Unframed(content[offset..]);
      hide Unframed;
      assert rest.Some? ==> found + ([record] + rest.value) == found + [record] + rest.value;
      found := found + [record];
    }
    assert found + [] == found;
    return Some(found);
  }

  predicate Short(records: seq<Bytes>)
  {
    forall i :: 0 <= i < |records| ==> |records[i]| < U64
  }

  lemma {:induction false} FramedAppend(records: seq<Bytes>, data: Bytes)
    ensures Framed(records + [data]) == Framed(records) + PrependLength(data)
  {
    hide PrependLength;
    var all := records + [data];
    if |records| == 0 {
      assert all[1..] == [] && PrependLength(data) + [] == PrependLength(data) == [] + PrependLength(data);
    } else {
      FramedAppend(records[1..], data);
      assert all[1..] == records[1..] + [data];
      assert PrependLength(records[0]) + (Framed(records[1..]) + PrependLength(data))
             == PrependLength(records[0]) + Framed(records[1..]) + PrependLength(data);
    }
  }

  lemma {:induction false} FramedRoundTrip(records: seq<Bytes>)
    requires Short(records)
    ensures Unframed(Framed(records)) == Some(records)
  {
    if |records| > 0 {
      var data, rest := records[0], Framed(records[1..]);
      FramedRoundTrip(records[1..]);
      Pow256Eight();
      LittleEndianRoundTrip(|data|, 8);
      var content := Framed(records);
      assert content[..8] == LittleEndian(|data|, 8) && content[8..8 + |data|] == data && content[8 + |data|..] == rest;
      assert records == [data] + records[1..];
    }
  }

  /** Content that splits into records is those records framed. */
  lemma {:induction false} UnframedBack(content: Bytes)
    requires Unframed(content).Some?
    ensures Framed(Unframed(content).value) == content
    decreases |content|
  {
    hide Framed, LittleEndian, FromLittleEndian;
    if |content| > 0 {
      var n := FromLittleEndian(content[..8]);
      var rest, record := content[8 + n..], content[8..8 + n];
      assert Unframed(rest).Some? && Unframed(content).value == [record] + Unframed(rest).value;
      hide Unframed;
      UnframedBack(rest);
      FromLittleEndianRoundTrip(content[..8]);
      FramedFront(record, Unframed(rest).value);
      Rejoined(content, 8, 8 + n);
    } else {
      FramedNone();
    }
  }

  lemma FramedNone()
    ensures Framed([]) == []
  {
  }

  lemma Rejoined(content: Bytes, m: nat, n: nat)
    requires m <= n <= |content|
    ensures content[..m] + content[m..n] + content[n..] == content
  {
  }

  lemma FramedFront(data: Bytes, records: seq<Bytes>)
    ensures Framed([data] + records) == LittleEndian(|data|, 8) + data + Framed(records)
  {
    hide LittleEndian;
    assert ([data] + records)[1..] == records;
  }

  // ----- Chunks -----

  function Chunks(file: Bytes, maxChunkSize: nat): seq<Bytes>
    requires maxChunkSize > 0
    decreases |file|
  {
    if |file| == 0 then []
    else if |file| <= maxChunkSize then [file]
    else [file[..maxChunkSize]] + Chunks(file[maxChunkSize..], maxChunkSize)
  }

  /** The read loop of finalizeBatch: full reads until a short or an empty one. */
  method ReadChunks(file: Bytes, maxChunkSize: nat) returns (chunks: seq<Bytes>)
    requires maxChunkSize > 0
    ensures chunks == Chunks(file, maxChunkSize)
  {
    chunks := [];
    var offset := 0;
    assert file[0..] == file && [] + Chunks(file, maxChunkSize) == Chunks(file, maxChunkSize);
    while true
      invariant 0 <= offset <= |file|
      invariant chunks + Chunks(file[offset..], maxChunkSize) == Chunks(file, maxChunkSize)
      decreases |file| - offset
    {
      ghost var rest := file[offset..];
      var readLength := if |file| - offset < maxChunkSize then |file| - offset else maxChunkSize;
      if readLength == 0 {
        assert rest == [] && chunks + [] == chunks;
        return;
      }
      var chunk := file[offset..offset + readLength];
      assert chunk == rest[..readLength];
      if readLength < maxChunkSize {
        assert rest[..readLength] == rest;
        chunks := chunks + [chunk];
        return;
      }
      assert rest[readLength..] == file[offset + readLength..];
      assert |rest| == maxChunkSize ==> chunk == rest && rest[readLength..] == [];
      assert chunks + [chunk] + Chunks(rest[readLength..], maxChunkSize)
             == chunks + ([chunk] + Chunks(rest[readLength..], maxChunkSize));
      chunks := chunks + [chunk];
      offset := offset + readLength;
    }
  }

  predicate ChunkShape(chunks: seq<Bytes>, maxChunkSize: nat)
  {
    && (forall i :: 0 <= i < |chunks| ==> 0 < |chunks[i]| <= maxChunkSize)
    && (forall i :: 0 <= i < |chunks| - 1 ==> |chunks[i]| == maxChunkSize)
  }

  lemma {:induction false} ConcatFront(part: Bytes, parts: seq<Bytes>)
    ensures Concat([part] + parts) == part + Concat(parts)
  {
    var all := [part] + parts;
    if |parts| == 0 {
      assert all[..0] == [] && all == [part];
    } else {
      var last := parts[|parts| - 1];
      ConcatFront(part, parts[..|parts| - 1]);
      assert all[..|all| - 1] == [part] + parts[..|parts| - 1];
    }
  }

  /** The chunks are the file, cut into full pieces but the last. */
  lemma {:induction false} ChunksWhole(file: Bytes, maxChunkSize: nat)
    requires maxChunkSize > 0
    ensures Concat(Chunks(file, maxChunkSize)) == file
    ensures ChunkShape(Chunks(file, maxChunkSize), maxChunkSize)
    ensures |Chunks(file, maxChunkSize)| <= |file|
    decreases |file|
  {
    if 0 < |file| <= maxChunkSize {
      assert [file][..0] == [];
    } else if |file| > 0 {
      var first, rest := file[..maxChunkSize], Chunks(file[maxChunkSize..], maxChunkSize);
      assert Chunks(file, maxChunkSize) == [first] + rest && |rest| > 0;
      hide *;
      ChunksWhole(file[maxChunkSize..], maxChunkSize);
      ConcatFront(first, rest);
      ShapeFront(first, rest, maxChunkSize);
      assert file == first + file[maxChunkSize..];
    }
  }

  lemma ShapeFront(first: Bytes, rest: seq<Bytes>, maxChunkSize: nat)
    requires |first| == maxChunkSize > 0 && |rest| > 0 && ChunkShape(rest, maxChunkSize)
    ensures ChunkShape([first] + rest, maxChunkSize)
  {
    var all := [first] + rest;
    forall i | 0 < i < |all|
      ensures all[i] == rest[i - 1]
    {
    }
  }

  lemma Quotient(a: nat, d: nat, q: nat, r: nat)
    requires r < d && a == q * d + r
    ensures a / d == q
  {
    var p, s := a / d, a % d;
    assert a == p * d + s;
    if p < q {
      NextStart(p, d);
      Monotone(p + 1, q, d);
    } else if q < p {
      NextStart(q, d);
      Monotone(q + 1, p, d);
    }
  }

  lemma {:induction false} Monotone(p: nat, q: nat, d: nat)
    requires p <= q
    ensures p * d <= q * d
    decreases q
  {
    if p < q {
      Monotone(p, q - 1, d);
      NextStart(q - 1, d);
    }
  }

  lemma DivStep(x: nat, d: nat)
    requires d > 0
    ensures (x + d) / d == x / d + 1
  {
    NextStart(x / d, d);
    Quotient(x + d, d, x / d + 1, x % d);
  }

  lemma {:induction false} ChunkCount(file: Bytes, maxChunkSize: nat)
    requires maxChunkSize > 0
    ensures |Chunks(file, maxChunkSize)| == (|file| + maxChunkSize - 1) / maxChunkSize
    decreases |file|
  {
    if 0 < |file| <= maxChunkSize {
      DivStep(|file| - 1, maxChunkSize);
    } else if |file| > 0 {
      ChunkCount(file[maxChunkSize..], maxChunkSize);
      DivStep(|file| - 1, maxChunkSize);
    }
  }

  /** Chunk i is the piece of the file that starts at i chunk sizes. */
  lemma {:induction false} ChunkAt(file: Bytes, maxChunkSize: nat, i: nat)
    requires maxChunkSize > 0 && i < |Chunks(file, maxChunkSize)|
    ensures var start := i * maxChunkSize;
            var end := if start + maxChunkSize > |file| then |file| else start + maxChunkSize;
            start < end && Chunks(file, maxChunkSize)[i] == file[start..end]
    decreases i
  {
    if i == 0 {
      assert file[0..|file|] == file;
    } else {
      var rest := file[maxChunkSize..];
      assert Chunks(file, maxChunkSize) == [file[..maxChunkSize]] + Chunks(rest, maxChunkSize);
      hide Chunks;
      ChunkAt(rest, maxChunkSize, i - 1);
      NextStart(i - 1, maxChunkSize);
      SliceSlice(file, maxChunkSize, (i - 1) * maxChunkSize);
    }
  }

  lemma SliceSlice(file: Bytes, n: nat, start: nat)
    requires n + start <= |file|
    ensures forall end :: start <= end <= |file| - n ==> file[n..][start..end] == file[n + start..n + end]
  {
  }

  /** The genesis is cut by index instead of by reading on; the pieces are the same and each says how many there are. */
  method SubmitGenesis(genesis: Bytes, maxChunkSize: nat) returns (msgs: seq<Bytes>)
    requires maxChunkSize > 0
    ensures var chunks := Chunks(genesis, maxChunkSize);
            && |msgs| == |chunks|
            && forall i :: 0 <= i < |chunks| ==> msgs[i] == GenesisBytes(Genesis(i, |chunks|, chunks[i]))
  {
    var chunkLength := (|genesis| + maxChunkSize - 1) / maxChunkSize;
    ghost var chunks := Chunks(genesis, maxChunkSize);
    ChunkCount(genesis, maxChunkSize);
    hide Chunks, GenesisBytes;
    msgs := [];
    var i := 0;
    while i < chunkLength
      invariant 0 <= i <= chunkLength && |msgs| == i
      invariant forall k :: 0 <= k < i ==> msgs[k] == GenesisBytes(Genesis(k, chunkLength, chunks[k]))
    {
      ChunkAt(genesis, maxChunkSize, i);
      var start := i * maxChunkSize;
      var end := start + maxChunkSize;
      if end > |genesis| {
        end := |genesis|;
      }
      var chunk := genesis[start..end];
      if |chunk| == 0 {
        break;
      }
      msgs := msgs + [GenesisBytes(Genesis(i, chunkLength, chunk))];
      i := i + 1;
    }
  }

  lemma NextStart(i: nat, d: nat)
    ensures (i + 1) * d == i * d + d
  {
  }

  // ----- Publishing -----

  function ChunkMsgs(start: nat, end: nat, chunks: seq<Bytes>): (msgs: seq<Bytes>)
    ensures |msgs| == |chunks|
    ensures forall i :: 0 <= i < |chunks| ==> msgs[i] == ChunkBytes(Chunk(start, end, i, |chunks|, chunks[i]))
  {
    seq(|chunks|, i requires 0 <= i < |chunks| => ChunkBytes(Chunk(start, end, i, |chunks|, chunks[i])))
  }

  type Sum = Bytes -> Bytes

  /** sum stands for SHA-256: all that matters is that its results have 32 bytes. */
  ghost predicate IsSum(sum: Sum)
  {
    forall x :: |sum(x)| == CHECKSUM_SIZE
  }

  function Each(f: Bytes -> Bytes, parts: seq<Bytes>): (r: seq<Bytes>)
    ensures |r| == |parts| && forall i :: 0 <= i < |parts| ==> r[i] == f(parts[i])
  {
    seq(|parts|, i requires 0 <= i < |parts| => f(parts[i]))
  }

  /** The messages of a batch: the header, then the chunks. */
  function BatchMsgs(sum: Sum, start: nat, end: nat, file: Bytes, maxChunkSize: nat): (msgs: seq<Bytes>)
    requires maxChunkSize > 0
    ensures |msgs| == 1 + |Chunks(file, maxChunkSize)|
  {
    var chunks := Chunks(file, maxChunkSize);
    [HeaderBytes(Header(start, end, Each(sum, chunks)))] + ChunkMsgs(start, end, chunks)
  }

  method FinalizeBatch(sum: Sum, start: nat, end: nat, file: Bytes, maxChunkSize: nat) returns (msgs: seq<Bytes>)
    requires maxChunkSize > 0
    ensures msgs == BatchMsgs(sum, start, end, file, maxChunkSize)
  {
    var chunks := ReadChunks(file, maxChunkSize);
    var headerData := MarshalBatchDataHeader(start, end, Each(sum, chunks));
    msgs := [headerData];
    hide Chunks, HeaderBytes, ChunkBytes, Each, ChunkMsgs;
    ghost var all := ChunkMsgs(start, end, chunks);
    for i := 0 to |chunks|
      invariant |msgs| == 1 + i && msgs[0] == headerData
      invariant forall k :: 0 < k <= i ==> msgs[k] == all[k - 1]
    {
      msgs := msgs + [ChunkBytes(Chunk(start, end, i, |chunks|, chunks[i]))];
    }
    assert msgs == [headerData] + all;
  }

  // ----- Reading back -----

  /** The reader takes the i-th chunk message as part of the header's batch. */
  predicate Fits(sum: Sum, h: Header, msg: Bytes, i: nat)
    requires i < |h.checksums|
  {
    var c := ParseChunk(msg);
    && c.Ok? && msg[0] == TYPE_CHUNK
    && c.value.start == h.start && c.value.end == h.end
    && c.value.index == i && c.value.length == |h.checksums|
    && sum(c.value.data) == h.checksums[i]
  }

  predicate AllFit(sum: Sum, h: Header, msgs: seq<Bytes>)
  {
    |msgs| == |h.checksums| && forall i :: 0 <= i < |msgs| ==> Fits(sum, h, msgs[i], i)
  }

  function DataOf(sum: Sum, h: Header, msgs: seq<Bytes>): (data: seq<Bytes>)
    requires AllFit(sum, h, msgs)
    ensures |data| == |msgs| && forall i :: 0 <= i < |msgs| ==> Fits(sum, h, msgs[i], i) && data[i] == ParseChunk(msgs[i]).value.data
  {
    seq(|msgs|, i requires 0 <= i < |msgs| => assert Fits(sum, h, msgs[i], i); ParseChunk(msgs[i]).value.data)
  }

  type Inflate = Bytes -> Option<Bytes>

  function Reconstruct(sum: Sum, inflate: Inflate, msgs: seq<Bytes>): Option<seq<Bytes>>
  {
    if |msgs| == 0 then None
    else
      var h := ParseHeader(msgs[0]);
      if h.Invalid? || msgs[0][0] != TYPE_HEADER || !AllFit(sum, h.value, msgs[1..]) then None
      else
        var content := inflate(Concat(DataOf(sum, h.value, msgs[1..])));
        if content.None? then None else Unframed(content.value)
  }

  /**
   The file is one compressed member, or several where the process was restarted in between; reading concatenated
   members gives the concatenated contents.
   */
  ghost predicate Lossless(deflate: Bytes -> Bytes, inflate: Inflate)
  {
    forall contents :: inflate(Concat(Each(deflate, contents))) == Some(Concat(contents))
  }

  lemma BatchMsgsFit(sum: Sum, start: nat, end: nat, file: Bytes, maxChunkSize: nat)
    requires IsSum(sum) && maxChunkSize > 0 && start <= end < U64 && |file| < U64
    ensures var msgs := BatchMsgs(sum, start, end, file, maxChunkSize);
            var h := Header(start, end, Each(sum, Chunks(file, maxChunkSize)));
            && ParseHeader(msgs[0]) == Ok(h) && msgs[0] == HeaderBytes(h) && msgs[0][0] == TYPE_HEADER && AllFit(sum, h, msgs[1..])
            && DataOf(sum, h, msgs[1..]) == Chunks(file, maxChunkSize)
  {
    var chunks := Chunks(file, maxChunkSize);
    var msgs := BatchMsgs(sum, start, end, file, maxChunkSize);
    var h := Header(start, end, Each(sum, chunks));
    ChunksWhole(file, maxChunkSize);
    HeaderRoundTrip(h);
    assert msgs[1..] == ChunkMsgs(start, end, chunks);
    hide Chunks, ParseHeader, HeaderBytes, ParseChunk, ChunkBytes;
    forall i | 0 <= i < |chunks|
      ensures Fits(sum, h, msgs[1..][i], i) && ParseChunk(msgs[1..][i]).value.data == chunks[i]
    {
      ChunkRoundTrip(Chunk(start, end, i, |chunks|, chunks[i]));
    }
  }

  lemma Inflates(deflate: Bytes -> Bytes, inflate: Inflate, contents: seq<Bytes>)
    requires Lossless(deflate, inflate)
    ensures inflate(Concat(Each(deflate, contents))) == Some(Concat(contents))
  {
    hide Concat, Each;
  }

  /** Every list of blocks and its commit is read back from the messages it is published in. */
  lemma BlocksReadBack(sum: Sum, deflate: Bytes -> Bytes, inflate: Inflate, start: nat, end: nat,
                       contents: seq<Bytes>, blocks: seq<Bytes>, commit: Bytes, maxChunkSize: nat)
    requires IsSum(sum) && Lossless(deflate, inflate) && maxChunkSize > 0 && start <= end < U64
    requires Short(blocks + [commit]) && Concat(contents) == Framed(blocks + [commit])
    requires |Concat(Each(deflate, contents))| < U64
    ensures Reconstruct(sum, inflate, BatchMsgs(sum, start, end, Concat(Each(deflate, contents)), maxChunkSize))
            == Some(blocks + [commit])
  {
    hide Lossless, IsSum, Short, Framed, Unframed, Concat, Each, Chunks, BatchMsgs, ParseHeader, HeaderBytes, AllFit, DataOf, ChunkShape;
    var file := Concat(Each(deflate, contents));
    Inflates(deflate, inflate, contents);
    BatchMsgsFit(sum, start, end, file, maxChunkSize);
    ChunksWhole(file, maxChunkSize);
    FramedRoundTrip(blocks + [commit]);
  }

  predicate Collision(sum: Sum, a: Bytes, b: Bytes)
  {
    a != b && sum(a) == sum(b)
  }

  /** Chunk messages accepted under a genuine header carry the genuine file, or two chunks collide. */
  lemma AcceptedIsGenuine(sum: Sum, start: nat, end: nat, file: Bytes, maxChunkSize: nat, msgs: seq<Bytes>)
    requires IsSum(sum) && maxChunkSize > 0 && start <= end < U64 && |file| < U64
    requires var h := Header(start, end, Each(sum, Chunks(file, maxChunkSize))); AllFit(sum, h, msgs)
    ensures var h := Header(start, end, Each(sum, Chunks(file, maxChunkSize)));
            || Concat(DataOf(sum, h, msgs)) == file
            || exists i :: 0 <= i < |msgs| && Collision(sum, DataOf(sum, h, msgs)[i], Chunks(file, maxChunkSize)[i])
  {
    var chunks := Chunks(file, maxChunkSize);
    var h := Header(start, end, Each(sum, chunks));
    var data := DataOf(sum, h, msgs);
    ChunksWhole(file, maxChunkSize);
    if data != chunks {
      var i :| 0 <= i < |chunks| && data[i] != chunks[i];
      assert Fits(sum, h, msgs[i], i);
      assert Collision(sum, data[i], chunks[i]);
    }
  }

  lemma GenesisReadBack(genesis: Bytes, maxChunkSize: nat, msgs: seq<Bytes>)
    requires maxChunkSize > 0 && |genesis| < U64
    requires var chunks := Chunks(genesis, maxChunkSize);
             |msgs| == |chunks| && forall i :: 0 <= i < |chunks| ==> msgs[i] == GenesisBytes(Genesis(i, |chunks|, chunks[i]))
    ensures forall i :: 0 <= i < |msgs| ==>
              ParseGenesis(msgs[i]) == Ok(Genesis(i, |msgs|, Chunks(genesis, maxChunkSize)[i]))
    ensures Concat(Chunks(genesis, maxChunkSize)) == genesis
  {
    var chunks := Chunks(genesis, maxChunkSize);
    ChunksWhole(genesis, maxChunkSize);
    forall i | 0 <= i < |msgs|
      ensures ParseGenesis(msgs[i]) == Ok(Genesis(i, |msgs|, chunks[i]))
    {
      GenesisRoundTrip(Genesis(i, |chunks|, chunks[i]));
    }
  }
}
