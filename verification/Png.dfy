/**
 The PNG chunk reader of scripts/public_artifact_guard.py: png_chunks.

 The reader is proved against the format of sections 3.1, 3.2 and 3.4 of RFC 2083, written as
 an encoder of chunk lists.  CRC-32 is an arbitrary function of bytes into 32 bits.
 */
module Png {
  import opened Options
  import opened Posix

  type Bytes = seq<Byte>

  const SIGNATURE: Bytes := [137, 80, 78, 71, 13, 10, 26, 10]
  const IHDR: Bytes := [73, 72, 68, 82]
  const IEND: Bytes := [73, 69, 78, 68]
  const WORD: nat := 0x1_0000_0000

  datatype Chunk = Chunk(kind: Bytes, payload: Bytes)

  datatype Image = Image(width: nat, height: nat, chunks: seq<Chunk>)

  /** Four bytes, most significant first. */
  function Unpack(b: Bytes): (n: nat)
    requires |b| == 4
    ensures n < WORD
  {
    b[0] as int * 0x100_0000 + b[1] as int * 0x1_0000 + b[2] as int * 0x100 + b[3] as int
  }

  function Pack(n: nat): (b: Bytes)
    requires n < WORD
    ensures |b| == 4
  {
    [(n / 0x100_0000) as Byte, (n / 0x1_0000 % 0x100) as Byte, (n / 0x100 % 0x100) as Byte, (n % 0x100) as Byte]
  }

  lemma PackThenUnpack(n: nat)
    requires n < WORD
    ensures Unpack(Pack(n)) == n
  {
    var a := n / 0x100;
    var b := a / 0x100;
    assert n / 0x1_0000 == b && n / 0x100_0000 == b / 0x100;
  }

  lemma UnpackThenPack(b: Bytes)
    requires |b| == 4
    ensures Pack(Unpack(b)) == b
  {
    var n := Unpack(b);
    assert n % 0x100 == b[3] as int;
    assert n / 0x100 == b[0] as int * 0x1_0000 + b[1] as int * 0x100 + b[2] as int;
    assert n / 0x1_0000 == b[0] as int * 0x100 + b[1] as int;
    assert n / 0x100_0000 == b[0] as int;
  }

  ghost predicate Crc32(crc: Bytes -> int) {
    forall b :: 0 <= crc(b) < WORD
  }

  predicate Encodable(c: Chunk) {
    |c.kind| == 4 && |c.payload| < WORD
  }

  function Encode(c: Chunk, crc: Bytes -> int): (b: Bytes)
    requires Encodable(c) && 0 <= crc(c.kind + c.payload) < WORD
    ensures |b| == 12 + |c.payload|
  {
    Pack(|c.payload|) + c.kind + c.payload + Pack(crc(c.kind + c.payload))
  }

  ghost predicate AllEncodable(chunks: seq<Chunk>) {
    forall i :: 0 <= i < |chunks| ==> Encodable(chunks[i])
  }

  ghost function EncodeAll(chunks: seq<Chunk>, crc: Bytes -> int): Bytes
    requires AllEncodable(chunks) && Crc32(crc)
  {
    if chunks == [] then [] else Encode(chunks[0], crc) + EncodeAll(chunks[1..], crc)
  }

  /** Chunk lists of a PNG: one IEND, at the end; IHDR chunks of 13 bytes, at least one. */
  ghost predicate WellFormed(chunks: seq<Chunk>) {
    && AllEncodable(chunks)
    && |chunks| > 0 && chunks[|chunks| - 1].kind == IEND
    && (forall i :: 0 <= i < |chunks| - 1 ==> chunks[i].kind != IEND)
    && (forall i :: 0 <= i < |chunks| ==> HeaderOk(chunks[i]))
    && exists i :: 0 <= i < |chunks| && chunks[i].kind == IHDR
  }

  predicate HeaderOk(c: Chunk) {
    c.kind == IHDR ==> |c.payload| == 13
  }

  /** Width and height come from the last header. */
  ghost predicate Sized(chunks: seq<Chunk>, n: nat, width: nat, height: nat)
    requires n <= |chunks|
  {
    exists i :: 0 <= i < n && chunks[i].kind == IHDR && (forall j :: i < j < n ==> chunks[j].kind != IHDR)
      && |chunks[i].payload| >= 8 && width == Unpack(chunks[i].payload[..4]) && height == Unpack(chunks[i].payload[4..8])
  }

  ghost predicate IsPng(data: Bytes, chunks: seq<Chunk>, crc: Bytes -> int)
    requires Crc32(crc)
  {
    WellFormed(chunks) && data == SIGNATURE + EncodeAll(chunks, crc)
  }

  // ---- One chunk at the start of some bytes ----

  datatype Head = Head(chunk: Chunk, width: nat)

  /** Reads one chunk: length, kind, payload, matching CRC. */
  function ReadChunk(b: Bytes, crc: Bytes -> int): (r: Option<Head>)
    ensures r.Some? ==> 12 <= r.value.width <= |b|
  {
    if |b| < 12 then None
    else
      var length := Unpack(b[..4]);
      if 12 + length > |b| then None
      else
        var kind, payload := b[4..8], b[8..8 + length];
        if Unpack(b[8 + length..12 + length]) != crc(kind + payload) then None
        else Some(Head(Chunk(kind, payload), 12 + length))
  }

  /** What is read is what is encoded there ... */
  lemma ReadIsEncoded(b: Bytes, crc: Bytes -> int)
    requires Crc32(crc) && ReadChunk(b, crc).Some?
    ensures var h := ReadChunk(b, crc).value; Encodable(h.chunk) && b[..h.width] == Encode(h.chunk, crc)
  {
    var length := Unpack(b[..4]);
    UnpackThenPack(b[..4]);
    UnpackThenPack(b[8 + length..12 + length]);
    assert b[..12 + length] == b[..4] + b[4..8] + b[8..8 + length] + b[8 + length..12 + length];
  }

  /** ... and what is encoded is read back, whatever follows. */
  lemma EncodedIsRead(c: Chunk, rest: Bytes, crc: Bytes -> int)
    requires Crc32(crc) && Encodable(c)
    ensures ReadChunk(Encode(c, crc) + rest, crc) == Some(Head(c, 12 + |c.payload|))
  {
    var b, n := Encode(c, crc) + rest, |c.payload|;
    PackThenUnpack(n);
    PackThenUnpack(crc(c.kind + c.payload));
    assert b[..4] == Pack(n) && b[4..8] == c.kind && b[8..8 + n] == c.payload;
    assert b[8 + n..12 + n] == Pack(crc(c.kind + c.payload));
  }

  lemma {:induction false} EncodeAppended(chunks: seq<Chunk>, c: Chunk, crc: Bytes -> int)
    requires AllEncodable(chunks) && Encodable(c) && Crc32(crc)
    ensures EncodeAll(chunks + [c], crc) == EncodeAll(chunks, crc) + Encode(c, crc)
  {
    if chunks == [] {
      assert [c][1..] == [];
    } else {
      EncodeAppended(chunks[1..], c, crc);
      assert (chunks + [c])[1..] == chunks[1..] + [c];
    }
  }

  /** Of every chunk list that the data may be, `read` is the beginning so far. */
  ghost predicate Begins(data: Bytes, offset: nat, read: seq<Chunk>, whole: seq<Chunk>, crc: Bytes -> int)
    requires Crc32(crc)
  {
    && |read| <= |whole| && whole[..|read|] == read && offset <= |data| && AllEncodable(whole)
    && data[offset..] == EncodeAll(whole[|read|..], crc)
  }

  /** The next chunk of such a list is the one that is read next. */
  lemma NextIsRead(data: Bytes, offset: nat, read: seq<Chunk>, whole: seq<Chunk>, crc: Bytes -> int)
    requires Crc32(crc) && Begins(data, offset, read, whole, crc) && offset < |data|
    ensures |read| < |whole|
    ensures var c := whole[|read|];
            && ReadChunk(data[offset..], crc) == Some(Head(c, 12 + |c.payload|))
            && offset + 12 + |c.payload| <= |data|
            && Begins(data, offset + 12 + |c.payload|, read + [c], whole, crc)
  {
    var left := whole[|read|..];
    assert left != [];
    var c := left[0];
    EncodedIsRead(c, EncodeAll(left[1..], crc), crc);
    assert whole[..|read| + 1] == read + [c];
    assert left[1..] == whole[|read| + 1..];
    assert data[offset..][12 + |c.payload|..] == data[offset + 12 + |c.payload|..];
  }

  lemma NothingEncoded(chunks: seq<Chunk>, crc: Bytes -> int)
    requires AllEncodable(chunks) && Crc32(crc)
    ensures EncodeAll(chunks, crc) == [] <==> chunks == []
  {
  }

  /** A list that ends here is complete. */
  lemma NothingLeft(data: Bytes, read: seq<Chunk>, whole: seq<Chunk>, crc: Bytes -> int)
    requires Crc32(crc) && Begins(data, |data|, read, whole, crc)
    ensures read == whole
  {
    NothingEncoded(whole[|read|..], crc);
  }

  lemma NextStep(data: Bytes, offset: nat, read: seq<Chunk>, crc: Bytes -> int)
    requires Crc32(crc) && offset < |data|
    requires forall whole :: IsPng(data, whole, crc) ==> Begins(data, offset, read, whole, crc)
    ensures forall whole :: IsPng(data, whole, crc) ==> NextOf(data, offset, read, whole, crc)
  {
    forall whole | IsPng(data, whole, crc) ensures NextOf(data, offset, read, whole, crc) {
      NextIsRead(data, offset, read, whole, crc);
    }
  }

  ghost predicate NextOf(data: Bytes, offset: nat, read: seq<Chunk>, whole: seq<Chunk>, crc: Bytes -> int)
    requires Crc32(crc) && offset < |data|
  {
    && |read| < |whole| && HeaderOk(whole[|read|])
    && ReadChunk(data[offset..], crc) == Some(Head(whole[|read|], 12 + |whole[|read|].payload|))
    && offset + 12 + |whole[|read|].payload| <= |data|
    && Begins(data, offset + 12 + |whole[|read|].payload|, read + [whole[|read|]], whole, crc)
    && (whole[|read|].kind == IEND ==> |read| == |whole| - 1)
  }

  /** Nothing read so far ends the list, every header is sound, and the size is the last one's. */
  ghost predicate ReadSoFar(chunks: seq<Chunk>, size: Option<(nat, nat)>) {
    && AllEncodable(chunks) && (forall i :: 0 <= i < |chunks| ==> HeaderOk(chunks[i]))
    && (size.None? ==> forall i :: 0 <= i < |chunks| ==> chunks[i].kind != IHDR)
    && (size.Some? ==> Sized(chunks, |chunks|, size.value.0, size.value.1))
  }

  /** The size known once a chunk has been read. */
  function SizeAfter(size: Option<(nat, nat)>, c: Chunk): Option<(nat, nat)>
    requires HeaderOk(c)
  {
    if c.kind == IHDR then Some((Unpack(c.payload[..4]), Unpack(c.payload[4..8]))) else size
  }

  lemma ReadOneMore(chunks: seq<Chunk>, size: Option<(nat, nat)>, c: Chunk)
    requires ReadSoFar(chunks, size) && Encodable(c) && HeaderOk(c)
    ensures ReadSoFar(chunks + [c], SizeAfter(size, c))
  {
    var more := chunks + [c];
    if c.kind == IHDR {
      assert more[|chunks|] == c;
    } else if size.Some? {
      var i :| 0 <= i < |chunks| && chunks[i].kind == IHDR && (forall j :: i < j < |chunks| ==> chunks[j].kind != IHDR)
        && |chunks[i].payload| >= 8 && size.value.0 == Unpack(chunks[i].payload[..4]) && size.value.1 == Unpack(chunks[i].payload[4..8]);
      assert more[i] == chunks[i];
    }
  }

  ghost predicate NoPng(data: Bytes, crc: Bytes -> int)
    requires Crc32(crc)
  {
    forall whole :: !IsPng(data, whole, crc)
  }

  /** Whatever PNG the data is, it begins with the chunks read so far. */
  ghost predicate OnTrack(data: Bytes, offset: nat, chunks: seq<Chunk>, crc: Bytes -> int)
    requires Crc32(crc)
  {
    forall whole :: IsPng(data, whole, crc) ==> Begins(data, offset, chunks, whole, crc)
  }

  /** Whatever PNG the data is, it is exactly these chunks and nothing follows. */
  ghost predicate Ended(data: Bytes, offset: nat, chunks: seq<Chunk>, crc: Bytes -> int)
    requires Crc32(crc)
  {
    forall whole :: IsPng(data, whole, crc) ==> whole == chunks && offset == |data|
  }

  ghost predicate Consumed(data: Bytes, offset: nat, chunks: seq<Chunk>, crc: Bytes -> int)
    requires Crc32(crc)
  {
    AllEncodable(chunks) && offset <= |data| && data[..offset] == SIGNATURE + EncodeAll(chunks, crc)
  }

  lemma ConsumedMore(data: Bytes, offset: nat, chunks: seq<Chunk>, crc: Bytes -> int)
    requires Crc32(crc) && Consumed(data, offset, chunks, crc) && ReadChunk(data[offset..], crc).Some?
    ensures var h := ReadChunk(data[offset..], crc).value;
            Encodable(h.chunk) && offset + h.width <= |data| && Consumed(data, offset + h.width, chunks + [h.chunk], crc)
  {
    var h := ReadChunk(data[offset..], crc).value;
    ReadIsEncoded(data[offset..], crc);
    EncodeAppended(chunks, h.chunk, crc);
    Sliced(data, offset, h.width);
    Regrouped(SIGNATURE, EncodeAll(chunks, crc), Encode(h.chunk, crc));
  }

  lemma Regrouped(a: Bytes, b: Bytes, c: Bytes)
    ensures (a + b) + c == a + (b + c)
  {
  }

  lemma Sliced(data: Bytes, offset: nat, width: nat)
    requires offset + width <= |data|
    ensures data[..offset + width] == data[..offset] + data[offset..][..width]
  {
  }

  /** What reading the next chunk means for every PNG that the data may be. */
  lemma StaysOnTrack(data: Bytes, offset: nat, chunks: seq<Chunk>, crc: Bytes -> int)
    requires Crc32(crc) && offset < |data| && OnTrack(data, offset, chunks, crc)
    ensures ReadChunk(data[offset..], crc).None? ==> NoPng(data, crc)
    ensures ReadChunk(data[offset..], crc).Some? ==>
              var h := ReadChunk(data[offset..], crc).value;
              && (!HeaderOk(h.chunk) ==> NoPng(data, crc))
              && OnTrack(data, offset + h.width, chunks + [h.chunk], crc)
              && (h.chunk.kind == IEND ==> Ended(data, offset + h.width, chunks + [h.chunk], crc))
  {
    NextStep(data, offset, chunks, crc);
    var next := ReadChunk(data[offset..], crc);
    forall whole: seq<Chunk> | IsPng(data, whole, crc)
      ensures next.Some? && HeaderOk(next.value.chunk)
      ensures Begins(data, offset + next.value.width, chunks + [next.value.chunk], whole, crc)
      ensures next.value.chunk.kind == IEND ==> whole == chunks + [next.value.chunk] && offset + next.value.width == |data|
    {
      assert NextOf(data, offset, chunks, whole, crc);
      if next.value.chunk.kind == IEND { NothingEncoded([], crc); }
    }
  }

  /** One turn of the loop: the next chunk, its width, and the size known so far. */
  method TakeChunk(data: Bytes, offset: nat, chunks: seq<Chunk>, size: Option<(nat, nat)>, crc: Bytes -> int)
    returns (c: Chunk, width: nat, newSize: Option<(nat, nat)>, ok: bool)
    requires Crc32(crc) && offset < |data| && ReadSoFar(chunks, size)
    requires Consumed(data, offset, chunks, crc) && OnTrack(data, offset, chunks, crc)
    ensures !ok ==> NoPng(data, crc)
    ensures ok ==> 0 < width && ReadSoFar(chunks + [c], newSize) && Consumed(data, offset + width, chunks + [c], crc)
                   && OnTrack(data, offset + width, chunks + [c], crc)
    ensures ok && c.kind == IEND ==> Ended(data, offset + width, chunks + [c], crc)
  {
    StaysOnTrack(data, offset, chunks, crc);
    c, width, newSize := Chunk([], []), 0, size;
    var head := ReadChunk(data[offset..], crc);
    if head.None? { return c, width, newSize, false; }
    c, width := head.value.chunk, head.value.width;
    if c.kind == IHDR && |c.payload| != 13 { return c, width, newSize, false; }
    ConsumedMore(data, offset, chunks, crc);
    ReadOneMore(chunks, size, c);
    newSize := SizeAfter(size, c);
    ok := true;
  }

  lemma NothingFollows(data: Bytes, chunks: seq<Chunk>, crc: Bytes -> int)
    requires Crc32(crc) && OnTrack(data, |data|, chunks, crc)
    ensures Ended(data, |data|, chunks, crc)
  {
    forall whole | IsPng(data, whole, crc) ensures whole == chunks {
      NothingLeft(data, chunks, whole, crc);
    }
  }

  /** png_chunks: accepts exactly the PNG encodings, and returns the very chunks encoded. */
  method ReadPng(data: Bytes, crc: Bytes -> int) returns (r: Option<Image>)
    requires Crc32(crc)
    ensures r.Some? ==> IsPng(data, r.value.chunks, crc)
    ensures r.Some? ==> Sized(r.value.chunks, |r.value.chunks|, r.value.width, r.value.height)
    ensures forall whole :: IsPng(data, whole, crc) ==> r.Some? && r.value.chunks == whole
  {
    if |data| < 8 || data[..8] != SIGNATURE { return None; }
    var offset: nat, chunks := 8, [];
    var size: Option<(nat, nat)> := None;
    var sawEnd := false;
    StartsOnTrack(data, crc);
    while offset < |data|
      invariant ReadSoFar(chunks, size) && !sawEnd && NoEnd(chunks)
      invariant Consumed(data, offset, chunks, crc) && OnTrack(data, offset, chunks, crc)
      decreases |data| - offset
    {
      var c, width, newSize, ok := TakeChunk(data, offset, chunks, size, crc);
      if !ok { return None; }
      ghost var before := chunks;
      chunks, offset, size := chunks + [c], offset + width, newSize;
      if c.kind == IEND {
        sawEnd := true;
        if offset != |data| { return None; }
        break;
      }
    }
    NothingFollows(data, chunks, crc);
    if !sawEnd || size.None? { return None; }
    assert data[..offset] == data;
    HasHeader(chunks, size.value.0, size.value.1);
    r := Some(Image(size.value.0, size.value.1, chunks));
  }

  ghost predicate NoEnd(chunks: seq<Chunk>) {
    forall i :: 0 <= i < |chunks| ==> chunks[i].kind != IEND
  }

  lemma StartsOnTrack(data: Bytes, crc: Bytes -> int)
    requires Crc32(crc) && |data| >= 8 && data[..8] == SIGNATURE
    ensures Consumed(data, 8, [], crc) && OnTrack(data, 8, [], crc)
  {
    forall whole | IsPng(data, whole, crc) ensures Begins(data, 8, [], whole, crc) {
      assert data[8..] == EncodeAll(whole, crc) && whole[0..] == whole;
    }
  }

  lemma HasHeader(chunks: seq<Chunk>, width: nat, height: nat)
    requires Sized(chunks, |chunks|, width, height)
    ensures exists i :: 0 <= i < |chunks| && chunks[i].kind == IHDR
  {
  }

  /** Encoding what was read gives the data back, and reading an encoding gives the chunks
      back: one list of chunks for one PNG. */
  lemma OneReading(data: Bytes, a: seq<Chunk>, b: seq<Chunk>, crc: Bytes -> int)
    requires Crc32(crc) && IsPng(data, a, crc) && IsPng(data, b, crc)
    ensures a == b
  {
    assert data[8..] == EncodeAll(a, crc) && data[8..] == EncodeAll(b, crc);
    SameEncoding(a, b, crc);
  }

  lemma {:induction false} SameEncoding(a: seq<Chunk>, b: seq<Chunk>, crc: Bytes -> int)
    requires AllEncodable(a) && AllEncodable(b) && Crc32(crc) && EncodeAll(a, crc) == EncodeAll(b, crc)
    ensures a == b
  {
    if a == [] || b == [] {
    } else {
      EncodedIsRead(a[0], EncodeAll(a[1..], crc), crc);
      EncodedIsRead(b[0], EncodeAll(b[1..], crc), crc);
      assert EncodeAll(a, crc)[12 + |a[0].payload|..] == EncodeAll(a[1..], crc);
      assert EncodeAll(b, crc)[12 + |b[0].payload|..] == EncodeAll(b[1..], crc);
      SameEncoding(a[1..], b[1..], crc);
    }
  }
}
