/** The tEXt-chunk reader of `PngParse.read_text_chunk`: the file is a byte
    string, `file.read(n)` returns the next `n` bytes or fewer at the end, and
    the reader walks the chunks (length, type, data, CRC) until IEND,
    collecting keyword/text pairs. CRCs are read but never checked. */
module PngText {
  import opened Wrappers
  import Utf8

  const Signature: seq<byte> := [0x89, 0x50, 0x4E, 0x47, 0x0D, 0x0A, 0x1A, 0x0A]
  const IHDR: seq<byte> := [0x49, 0x48, 0x44, 0x52]
  const PLTE: seq<byte> := [0x50, 0x4C, 0x54, 0x45]
  const TEXT: seq<byte> := [0x74, 0x45, 0x58, 0x74]   // "tEXt"
  const IEND: seq<byte> := [0x49, 0x45, 0x4E, 0x44]

  type TextMap = map<string, string>

  function Min(a: int, b: int): int {
    if a <= b then a else b
  }

  /** `file.read(n)` with the file positioned at `pos`. */
  function Read(bs: seq<byte>, pos: nat, n: nat): (r: seq<byte>)
    requires pos <= |bs|
    ensures |r| == Min(n, |bs| - pos)
    ensures r == bs[pos..pos + |r|]
  {
    bs[pos..Min(pos + n, |bs|)]
  }

  /** One chunk as the loop body reads it, and where the file is left. */
  datatype ChunkRead = ChunkRead(kind: seq<byte>, data: seq<byte>, next: nat)

  /** One pass of the loop body up to the CRC read: `struct.unpack('>I', ...)`
      raises unless exactly four length bytes were read; every later read is
      cut short at the end of the file. */
  function ReadChunk(bs: seq<byte>, pos: nat): (r: Result<ChunkRead>)
    requires pos <= |bs|
    ensures r.Raise? <==> |bs| - pos < 4
    ensures r.Raise? ==> r.error == StructError
    ensures r.Ok? ==> r.value.next == Min(pos + 12 + BigEndian(bs[pos..pos + 4]), |bs|)
    ensures r.Ok? ==> r.value.next <= |bs| && r.value.next >= pos + 4
  {
    if |bs| - pos < 4 then Raise(StructError)
    else
      var length := BigEndian(bs[pos..pos + 4]);
      var p1 := pos + 4;
      var kind := Read(bs, p1, 4);
      var p2 := p1 + |kind|;
      var data := Read(bs, p2, length);
      var p3 := p2 + |data|;
      var crc := Read(bs, p3, 4);
      Ok(ChunkRead(kind, data, p3 + |crc|))
  }

  /** `keyword, text = chunk_data.decode().split('\0', 1)`: strict UTF-8,
      then a split at the first NUL, which must exist. */
  function TextEntry(data: seq<byte>): (r: Result<(string, string)>)
    ensures r.Ok? ==> '\0' !in r.value.0
    ensures r.Ok? ==> Utf8.Decode(data) == Some(r.value.0 + ['\0'] + r.value.1)
    ensures Utf8.Decode(data).None? ==> r == Raise(UnicodeDecodeError)
    ensures Utf8.Decode(data).Some? && '\0' !in Utf8.Decode(data).value ==> r == Raise(ValueError)
  {
    match Utf8.Decode(data)
    case None => Raise(UnicodeDecodeError)
    case Some(s) =>
      if '\0' !in s then Raise(ValueError)
      else
        var i := FirstNul(s);
        assert s == s[..i] + ['\0'] + s[i + 1..];
        Ok((s[..i], s[i + 1..]))
  }

  function FirstNul(s: string): (i: nat)
    requires '\0' in s
    ensures i < |s| && s[i] == '\0'
    ensures forall j :: 0 <= j < i ==> s[j] != '\0'
  {
    if s[0] == '\0' then 0
    else
      assert '\0' in s[1..] by { assert s == [s[0]] + s[1..]; }
      var j := FirstNul(s[1..]);
      assert forall m :: 1 <= m <= j ==> s[m] == s[1..][m - 1];
      j + 1
  }

  /** What the loop does after reading one chunk: go on with the entries
      collected so far, or stop with a result. */
  datatype Step = Continue(acc: TextMap) | Stop(result: Result<TextMap>)

  /** The `if`/`elif` chain on the chunk type: IHDR and PLTE are skipped, a
      tEXt chunk adds (or overwrites) its keyword, IEND ends the loop and
      every other type is skipped. */
  function Dispatch(kind: seq<byte>, data: seq<byte>, acc: TextMap): Step {
    if kind == IHDR || kind == PLTE then Continue(acc)
    else if kind == TEXT then
      match TextEntry(data)
      case Raise(e) => Stop(Raise(e))
      case Ok(entry) => Continue(acc[entry.0 := entry.1])
    else if kind == IEND then Stop(Ok(acc))
    else Continue(acc)
  }

  /** The `while True` loop from `pos` on with `acc` collected so far. */
  function ChunksFrom(bs: seq<byte>, pos: nat, acc: TextMap): Result<TextMap>
    requires pos <= |bs|
    decreases |bs| - pos
  {
    match ReadChunk(bs, pos)
    case Raise(e) => Raise(e)
    case Ok(c) =>
      match Dispatch(c.kind, c.data, acc)
      case Stop(r) => r
      case Continue(acc') => ChunksFrom(bs, c.next, acc')
  }

  /** `read_text_chunk` on the file contents `bs`: no entries without the
      signature; otherwise an answer only once an IEND type field was read,
      and no exceptions but those of the length read and the tEXt decode. */
  function ReadTextChunk(bs: seq<byte>): (r: Result<TextMap>)
    ensures Read(bs, 0, 8) != Signature ==> r == Ok(map[])
    ensures r.Ok? && Read(bs, 0, 8) == Signature ==> exists i :: 8 <= i && EndTypeAt(bs, i)
    ensures r.Raise? ==> r.error in {StructError, UnicodeDecodeError, ValueError}
  {
    if Read(bs, 0, 8) != Signature then Ok(map[])
    else
      ChunksFromNeedsEnd(bs, 8, map[]);
      ChunksFrom(bs, 8, map[])
  }

  /** The loop itself, reading with a cursor; it computes `ReadTextChunk`. */
  method ReadTextChunks(bs: seq<byte>) returns (r: Result<TextMap>)
    ensures r == ReadTextChunk(bs)
  {
    var signature := Read(bs, 0, 8);
    if signature != Signature {
      return Ok(map[]);
    }
    var data: TextMap := map[];
    var pos: nat := |signature|;
    while true
      invariant pos <= |bs|
      invariant ChunksFrom(bs, pos, data) == ReadTextChunk(bs)
      decreases |bs| - pos
    {
      var chunk := ReadChunkAt(bs, pos);
      if chunk.Raise? {
        return Raise(chunk.error);
      }
      ChunksFromStep(bs, pos, chunk.value, data);
      var chunkType, chunkData := chunk.value.kind, chunk.value.data;
      pos := chunk.value.next;
      if chunkType == IHDR || chunkType == PLTE {
        continue;
      } else if chunkType == TEXT {
        var entry := TextEntry(chunkData);
        if entry.Raise? {
          return Raise(entry.error);
        }
        data := data[entry.value.0 := entry.value.1];
      } else if chunkType == IEND {
        return Ok(data);
      }
    }
  }

  /** The four reads of one loop pass, with the file positioned at `pos`. */
  method ReadChunkAt(bs: seq<byte>, pos: nat) returns (r: Result<ChunkRead>)
    requires pos <= |bs|
    ensures r == ReadChunk(bs, pos)
  {
    if |bs| - pos < 4 {
      return Raise(StructError);
    }
    var length := BigEndian(bs[pos..pos + 4]);
    var cursor := pos + 4;
    var chunkType := Read(bs, cursor, 4);
    cursor := cursor + |chunkType|;
    var chunkData := Read(bs, cursor, length);
    cursor := cursor + |chunkData|;
    var crc := Read(bs, cursor, 4);
    cursor := cursor + |crc|;
    return Ok(ChunkRead(chunkType, chunkData, cursor));
  }

  /** A chunk as a writer lays it out; well formed when its length field
      states its data length and its type and CRC are four bytes each. */
  datatype Chunk = Chunk(length: seq<byte>, kind: seq<byte>, data: seq<byte>, crc: seq<byte>)

  predicate WellFormed(c: Chunk) {
    |c.length| == 4 && BigEndian(c.length) == |c.data| && |c.kind| == 4 && |c.crc| == 4
  }

  function Bytes(c: Chunk): seq<byte> {
    c.length + c.kind + c.data + c.crc
  }

  function Serialize(cs: seq<Chunk>): seq<byte> {
    if cs == [] then [] else Bytes(cs[0]) + Serialize(cs[1..])
  }

  /** What reading a chunk list means, chunk by chunk rather than byte by byte. */
  function Collect(cs: seq<Chunk>, acc: TextMap): Result<TextMap> {
    if cs == [] then Raise(StructError)
    else
      match Dispatch(cs[0].kind, cs[0].data, acc)
      case Stop(r) => r
      case Continue(acc') => Collect(cs[1..], acc')
  }

  predicate HasEnd(cs: seq<Chunk>) {
    exists k :: 0 <= k < |cs| && cs[k].kind == IEND
  }

  /** `bs` holds `piece` starting at `pos`. */
  predicate HoldsAt(bs: seq<byte>, pos: nat, piece: seq<byte>) {
    pos + |piece| <= |bs| && bs[pos..pos + |piece|] == piece
  }

  lemma HoldsAtSplit(bs: seq<byte>, pos: nat, a: seq<byte>, b: seq<byte>)
    requires HoldsAt(bs, pos, a + b)
    ensures HoldsAt(bs, pos, a) && HoldsAt(bs, pos + |a|, b)
  {
    assert bs[pos..pos + |a|] == (a + b)[..|a|];
    assert bs[pos + |a|..pos + |a| + |b|] == (a + b)[|a|..];
  }

  /** The reader consumes exactly one serialized chunk per pass. */
  lemma ReadChunkOfBytes(bs: seq<byte>, pos: nat, c: Chunk)
    requires WellFormed(c) && HoldsAt(bs, pos, Bytes(c))
    ensures ReadChunk(bs, pos) == Ok(ChunkRead(c.kind, c.data, pos + |Bytes(c)|))
  {
    HoldsAtSplit(bs, pos, c.length + c.kind + c.data, c.crc);
    HoldsAtSplit(bs, pos, c.length + c.kind, c.data);
    HoldsAtSplit(bs, pos, c.length, c.kind);
  }

  /** One turn of the loop, for a chunk already read. */
  lemma ChunksFromStep(bs: seq<byte>, pos: nat, c: ChunkRead, acc: TextMap)
    requires pos <= |bs| && ReadChunk(bs, pos) == Ok(c)
    ensures c.next <= |bs|
    ensures ChunksFrom(bs, pos, acc) == match Dispatch(c.kind, c.data, acc)
      case Stop(r) => r
      case Continue(acc') => ChunksFrom(bs, c.next, acc')
  {
  }

  /** Reading a serialized chunk list gives what `Collect` says; bytes after
      it matter only when it has no IEND chunk. */
  lemma {:induction false} ChunksFromSerialized(bs: seq<byte>, pos: nat, cs: seq<Chunk>, acc: TextMap)
    requires forall k :: 0 <= k < |cs| ==> WellFormed(cs[k])
    requires HoldsAt(bs, pos, Serialize(cs))
    requires pos + |Serialize(cs)| == |bs| || HasEnd(cs)
    ensures ChunksFrom(bs, pos, acc) == Collect(cs, acc)
    decreases |cs|
  {
    if cs == [] {
      assert ReadChunk(bs, pos).Raise?;
    } else {
      var c := cs[0];
      var next := pos + |Bytes(c)|;
      HoldsAtSplit(bs, pos, Bytes(c), Serialize(cs[1..]));
      ReadChunkOfBytes(bs, pos, c);
      ChunksFromStep(bs, pos, ChunkRead(c.kind, c.data, next), acc);
      var step := Dispatch(c.kind, c.data, acc);
      if step.Continue? {
        assert c.kind != IEND;
        RestOfChunks(cs);
        ChunksFromSerialized(bs, next, cs[1..], step.acc);
      }
    }
  }

  /** The chunks after the first are well formed, and still hold an IEND
      chunk when the first is not one. */
  lemma RestOfChunks(cs: seq<Chunk>)
    requires cs != []
    requires forall k :: 0 <= k < |cs| ==> WellFormed(cs[k])
    ensures forall k :: 0 <= k < |cs[1..]| ==> WellFormed(cs[1..][k])
    ensures HasEnd(cs) && cs[0].kind != IEND ==> HasEnd(cs[1..])
  {
    forall k | 0 <= k < |cs[1..]|
      ensures WellFormed(cs[1..][k])
    {
      assert cs[1..][k] == cs[k + 1];
    }
    if HasEnd(cs) && cs[0].kind != IEND {
      var k :| 0 <= k < |cs| && cs[k].kind == IEND;
      assert k > 0 && cs[1..][k - 1] == cs[k];
    }
  }

  /** Three pieces laid end to end: the first is the prefix, the second sits after it. */
  lemma Concat3(x: seq<byte>, y: seq<byte>, z: seq<byte>)
    ensures (x + y + z)[..|x|] == x
    ensures HoldsAt(x + y + z, |x|, y)
  {
    assert (x + y + z)[..|x|] == x;
    assert (x + y + z)[|x|..|x| + |y|] == y;
  }

  /** A file with the signature is read chunk by chunk from byte 8. */
  lemma SignedFile(bs: seq<byte>)
    requires |bs| >= 8 && bs[..8] == Signature
    ensures ReadTextChunk(bs) == ChunksFrom(bs, 8, map[])
  {
  }

  /** The round trip: a PNG file written as the signature and a chunk list
      ending in IEND reads back to the chunk list's tEXt entries, whatever
      trails the IEND chunk. */
  lemma ReadTextChunkRoundTrip(cs: seq<Chunk>, tail: seq<byte>)
    requires forall k :: 0 <= k < |cs| ==> WellFormed(cs[k])
    requires HasEnd(cs)
    ensures ReadTextChunk(Signature + Serialize(cs) + tail) == Collect(cs, map[])
  {
    var bs := Signature + Serialize(cs) + tail;
    Concat3(Signature, Serialize(cs), tail);
    assert |Signature| == 8;
    SignedFile(bs);
    ChunksFromSerialized(bs, 8, cs, map[]);
  }

  /** At the chunk-list level: a list without an IEND chunk reads as a raise
      (`struct.error` once the list is used up, or the error of a tEXt chunk
      that does not decode). */
  lemma {:induction false} CollectWithoutEnd(cs: seq<Chunk>, acc: TextMap)
    requires !HasEnd(cs)
    ensures Collect(cs, acc).Raise?
    decreases |cs|
  {
    if cs != [] {
      assert cs[0].kind != IEND;
      forall k | 0 <= k < |cs[1..]|
        ensures cs[1..][k].kind != IEND
      {
        assert cs[1..][k] == cs[k + 1];
      }
      if Dispatch(cs[0].kind, cs[0].data, acc).Continue? {
        CollectWithoutEnd(cs[1..], Dispatch(cs[0].kind, cs[0].data, acc).acc);
      }
    }
  }

  /** The four bytes at `i + 4` (the type field of a chunk starting at `i`)
      spell IEND. */
  predicate EndTypeAt(bs: seq<byte>, i: nat) {
    i + 8 <= |bs| && bs[i + 4..i + 8] == IEND
  }

  /** At the byte level, for any file contents: the loop only returns normally
      after reading an IEND type field somewhere at or after `pos`. A file
      that ends before that, whether between chunks or inside one, raises:
      `struct.error` from the length read, or the `UnicodeDecodeError` or
      `ValueError` of a tEXt chunk met on the way. */
  lemma {:induction false} ChunksFromNeedsEnd(bs: seq<byte>, pos: nat, acc: TextMap)
    requires pos <= |bs|
    ensures ChunksFrom(bs, pos, acc).Ok? ==> exists i :: pos <= i && EndTypeAt(bs, i)
    ensures ChunksFrom(bs, pos, acc).Raise? ==>
      ChunksFrom(bs, pos, acc).error in {StructError, UnicodeDecodeError, ValueError}
    decreases |bs| - pos
  {
    var r := ReadChunk(bs, pos);
    if r.Ok? {
      var c := r.value;
      ChunksFromStep(bs, pos, c, acc);
      match Dispatch(c.kind, c.data, acc)
      case Stop(res) =>
        if res.Ok? {
          assert c.kind == IEND;
          assert EndTypeAt(bs, pos);
        }
      case Continue(acc') =>
        ChunksFromNeedsEnd(bs, c.next, acc');
    }
  }

  /** The first NUL of `k + "\0" + t` is the one after `k` when `k` has none. */
  lemma FirstNulAfter(k: string, t: string)
    requires '\0' !in k
    ensures '\0' in k + ['\0'] + t
    ensures FirstNul(k + ['\0'] + t) == |k|
  {
    var s := k + ['\0'] + t;
    assert s[|k|] == '\0';
    assert forall j :: 0 <= j < |k| ==> s[j] == k[j];
  }

  /** Decoding keyword, zero byte and text decodes each part. */
  lemma DecodeEntry(keyword: seq<byte>, text: seq<byte>)
    requires Utf8.Decode(keyword).Some? && Utf8.Decode(text).Some?
    ensures Utf8.Decode(keyword + [0] + text)
         == Some(Utf8.Decode(keyword).value + ['\0'] + Utf8.Decode(text).value)
  {
    var k := Utf8.Decode(keyword).value;
    var t := Utf8.Decode(text).value;
    var zero: seq<byte> := [0];
    Utf8.DecodeAscii(0);
    Utf8.DecodeAppend(zero, text);
    assert Utf8.Decode(zero + text) == Some(['\0'] + t);
    Utf8.DecodeAppend(keyword, zero + text);
    assert keyword + [0] + text == keyword + (zero + text);
    assert k + (['\0'] + t) == k + ['\0'] + t;
  }

  /** A tEXt chunk holding a keyword, a zero byte and a text, each well-formed
      UTF-8 and the keyword free of zero bytes, yields exactly that pair: the
      split is at the keyword's end even when the text holds zero bytes. */
  lemma TextEntryOfKeyword(keyword: seq<byte>, text: seq<byte>)
    requires Utf8.Decode(keyword).Some? && Utf8.Decode(text).Some?
    requires 0 !in keyword
    ensures TextEntry(keyword + [0] + text)
         == Ok((Utf8.Decode(keyword).value, Utf8.Decode(text).value))
  {
    var k := Utf8.Decode(keyword).value;
    var t := Utf8.Decode(text).value;
    Utf8.DecodeNul(keyword);
    DecodeEntry(keyword, text);
    FirstNulAfter(k, t);
    var s := k + ['\0'] + t;
    assert s[..|k|] == k;
    assert s[|k| + 1..] == t;
  }

  /** A file that does not start with the PNG signature reads as no entries. */
  lemma NotPng(bs: seq<byte>)
    requires |bs| < 8 || bs[..8] != Signature
    ensures ReadTextChunk(bs) == Ok(map[])
  {
  }
}
