/** Batch messages as they are published (executor/types/batch.go). */
module BatchCodec {
  import opened Prelude
  import opened ByteOrder

  datatype Result<+T> = Ok(value: T) | Invalid

  datatype Header = Header(start: nat, end: nat, checksums: seq<Bytes>)
  datatype Chunk = Chunk(start: nat, end: nat, index: nat, length: nat, data: Bytes)
  datatype Genesis = Genesis(index: nat, length: nat, data: Bytes)

  const TYPE_HEADER: byte := 0
  const TYPE_CHUNK: byte := 1
  const TYPE_GENESIS: byte := 2

  const CHECKSUM_SIZE: nat := 32

  // ----- Headers -----

  function Concat(parts: seq<Bytes>): Bytes
  {
    if |parts| == 0 then [] else Concat(parts[..|parts| - 1]) + parts[|parts| - 1]
  }

  /** A checksum is a 32-byte array. */
  predicate Sized(checksums: seq<Bytes>)
  {
    forall i :: 0 <= i < |checksums| ==> |checksums[i]| == CHECKSUM_SIZE
  }

  function HeaderPrefix(start: nat, end: nat, count: nat): (bs: Bytes)
    ensures |bs| == 25
  {
    [TYPE_HEADER] + Uint64Key(start) + Uint64Key(end) + Uint64Key(count)
  }

  function HeaderBytes(h: Header): Bytes
  {
    HeaderPrefix(h.start, h.end, |h.checksums|) + Concat(h.checksums)
  }

  method MarshalBatchDataHeader(start: nat, end: nat, checksums: seq<Bytes>) returns (data: Bytes)
    ensures data == HeaderBytes(Header(start, end, checksums))
  {
    data := [TYPE_HEADER];
    data := data + Uint64Key(start);
    data := data + Uint64Key(end);
    data := data + Uint64Key(|checksums|);
    for i := 0 to |checksums|
      invariant data == HeaderPrefix(start, end, |checksums|) + Concat(checksums[..i])
    {
      assert checksums[..i + 1][..i] == checksums[..i];
      data := data + checksums[i];
    }
    assert checksums[..|checksums|] == checksums;
  }

  /** Consecutive 32-byte pieces. */
  function Pieces(data: Bytes): seq<Bytes>
    requires |data| % CHECKSUM_SIZE == 0
  {
    if |data| == 0 then []
    else Pieces(data[..|data| - CHECKSUM_SIZE]) + [data[|data| - CHECKSUM_SIZE..]]
  }

  /** What a header says, if it says anything. */
  function ParseHeader(data: Bytes): Result<Header>
  {
    if |data| < 25 then Invalid
    else
      var start, end, count := FromBigEndian(data[1..9]), FromBigEndian(data[9..17]), FromBigEndian(data[17..25]);
      if start > end || (|data| - 25) % CHECKSUM_SIZE != 0 || (|data| - 25) / CHECKSUM_SIZE != count then Invalid
      else Ok(Header(start, end, Pieces(data[25..])))
  }

  method UnmarshalBatchDataHeader(data: Bytes) returns (r: Result<Header>)
    ensures r == ParseHeader(data)
  {
    if |data| < 25 {
      return Invalid;
    }
    var start := FromBigEndian(data[1..9]);
    var end := FromBigEndian(data[9..17]);
    if start > end {
      return Invalid;
    }
    var length := FromBigEndian(data[17..25]);
    var expectedLength := (|data| - 25) / CHECKSUM_SIZE;
    if (|data| - 25) % CHECKSUM_SIZE != 0 || expectedLength != length {
      return Invalid;
    }
    var checksums: seq<Bytes> := [];
    var i := 25;
    while i < |data|
      invariant 25 <= i <= |data| && (i - 25) % CHECKSUM_SIZE == 0
      invariant checksums == Pieces(data[25..i])
    {
      assert data[25..i + CHECKSUM_SIZE][..i - 25] == data[25..i];
      assert data[25..i + CHECKSUM_SIZE][i - 25..] == data[i..i + CHECKSUM_SIZE];
      checksums := checksums + [data[i..i + CHECKSUM_SIZE]];
      i := i + CHECKSUM_SIZE;
    }
    assert data[25..|data|] == data[25..];
    return Ok(Header(start, end, checksums));
  }

  lemma {:induction false} ConcatPieces(checksums: seq<Bytes>)
    requires Sized(checksums)
    ensures |Concat(checksums)| == CHECKSUM_SIZE * |checksums| && Pieces(Concat(checksums)) == checksums
  {
    if |checksums| > 0 {
      var init, last := checksums[..|checksums| - 1], checksums[|checksums| - 1];
      ConcatPieces(init);
      assert Concat(checksums) == Concat(init) + last;
      assert (Concat(init) + last)[..|Concat(init)|] == Concat(init);
    }
  }

  lemma {:induction false} PiecesConcat(data: Bytes)
    requires |data| % CHECKSUM_SIZE == 0
    ensures Concat(Pieces(data)) == data && |Pieces(data)| == |data| / CHECKSUM_SIZE && Sized(Pieces(data))
  {
    if |data| > 0 {
      var init, last := data[..|data| - CHECKSUM_SIZE], data[|data| - CHECKSUM_SIZE..];
      PiecesConcat(init);
      assert data == init + last;
      assert Pieces(data)[..|Pieces(data)| - 1] == Pieces(init);
    }
  }

  lemma HeaderFields(start: nat, end: nat, count: nat, rest: Bytes)
    requires start < U64 && end < U64 && count < U64
    ensures var data := HeaderPrefix(start, end, count) + rest;
            && FromBigEndian(data[1..9]) == start && FromBigEndian(data[9..17]) == end
            && FromBigEndian(data[17..25]) == count && data[25..] == rest && data[0] == TYPE_HEADER
  {
    var data := HeaderPrefix(start, end, count) + rest;
    assert data[1..9] == Uint64Key(start) && data[9..17] == Uint64Key(end) && data[17..25] == Uint64Key(count);
    Uint64KeyRoundTrip(start);
    Uint64KeyRoundTrip(end);
    Uint64KeyRoundTrip(count);
  }

  /** A header is read back exactly if its range is not inverted. */
  lemma HeaderRoundTrip(h: Header)
    requires h.start < U64 && h.end < U64 && |h.checksums| < U64 && Sized(h.checksums)
    ensures ParseHeader(HeaderBytes(h)) == (if h.start <= h.end then Ok(h) else Invalid)
    ensures HeaderBytes(h)[0] == TYPE_HEADER
  {
    HeaderFields(h.start, h.end, |h.checksums|, Concat(h.checksums));
    ConcatPieces(h.checksums);
  }

  lemma KeyBack(bs: Bytes)
    requires |bs| == 8
    ensures Uint64Key(FromBigEndian(bs)) == bs
  {
    FromBigEndianRoundTrip(bs);
  }

  /** Nothing but the type byte of an accepted header is lost. */
  lemma HeaderParsedBack(data: Bytes)
    requires ParseHeader(data).Ok?
    ensures HeaderBytes(ParseHeader(data).value) == [TYPE_HEADER] + data[1..]
  {
    var h, rest := ParseHeader(data).value, data[25..];
    PiecesConcat(rest);
    hide Pieces, Concat, FromBigEndian, BigEndian;
    KeyBack(data[1..9]);
    KeyBack(data[9..17]);
    KeyBack(data[17..25]);
    assert Uint64Key(|h.checksums|) == data[17..25];
    hide ParseHeader, Uint64Key;
    assert data[1..] == data[1..9] + data[9..17] + data[17..25] + rest;
  }

  // ----- Chunks -----

  function ChunkBytes(c: Chunk): Bytes
  {
    [TYPE_CHUNK] + Uint64Key(c.start) + Uint64Key(c.end) + Uint64Key(c.index) + Uint64Key(c.length) + c.data
  }

  function ParseChunk(data: Bytes): Result<Chunk>
  {
    if |data| < 33 then Invalid
    else
      var start, end := FromBigEndian(data[1..9]), FromBigEndian(data[9..17]);
      if start > end then Invalid
      else Ok(Chunk(start, end, FromBigEndian(data[17..25]), FromBigEndian(data[25..33]), data[33..]))
  }

  lemma ChunkRoundTrip(c: Chunk)
    requires c.start < U64 && c.end < U64 && c.index < U64 && c.length < U64
    ensures ParseChunk(ChunkBytes(c)) == if c.start <= c.end then Ok(c) else Invalid
    ensures ChunkBytes(c)[0] == TYPE_CHUNK
  {
    var data := ChunkBytes(c);
    assert data[1..9] == Uint64Key(c.start) && data[9..17] == Uint64Key(c.end);
    assert data[17..25] == Uint64Key(c.index) && data[25..33] == Uint64Key(c.length) && data[33..] == c.data;
    Uint64KeyRoundTrip(c.start);
    Uint64KeyRoundTrip(c.end);
    Uint64KeyRoundTrip(c.index);
    Uint64KeyRoundTrip(c.length);
  }

  lemma ChunkParsedBack(data: Bytes)
    requires ParseChunk(data).Ok?
    ensures ChunkBytes(ParseChunk(data).value) == [TYPE_CHUNK] + data[1..]
  {
    FromBigEndianRoundTrip(data[1..9]);
    FromBigEndianRoundTrip(data[9..17]);
    FromBigEndianRoundTrip(data[17..25]);
    FromBigEndianRoundTrip(data[25..33]);
    assert data[1..] == data[1..9] + data[9..17] + data[17..25] + data[25..33] + data[33..];
  }

  // ----- Genesis -----

  function GenesisBytes(g: Genesis): Bytes
  {
    [TYPE_GENESIS] + Uint64Key(g.index) + Uint64Key(g.length) + g.data
  }

  function ParseGenesis(data: Bytes): Result<Genesis>
  {
    if |data| < 17 then Invalid
    else Ok(Genesis(FromBigEndian(data[1..9]), FromBigEndian(data[9..17]), data[17..]))
  }

  lemma GenesisRoundTrip(g: Genesis)
    requires g.index < U64 && g.length < U64
    ensures ParseGenesis(GenesisBytes(g)) == Ok(g) && GenesisBytes(g)[0] == TYPE_GENESIS
  {
    var data := GenesisBytes(g);
    assert data[1..9] == Uint64Key(g.index) && data[9..17] == Uint64Key(g.length) && data[17..] == g.data;
    Uint64KeyRoundTrip(g.index);
    Uint64KeyRoundTrip(g.length);
  }

  lemma GenesisParsedBack(data: Bytes)
    requires ParseGenesis(data).Ok?
    ensures GenesisBytes(ParseGenesis(data).value) == [TYPE_GENESIS] + data[1..]
  {
    FromBigEndianRoundTrip(data[1..9]);
    FromBigEndianRoundTrip(data[9..17]);
    assert data[1..] == data[1..9] + data[9..17] + data[17..];
  }
}
