/**
  Recognising a complete PNG file: the signature and the chunk layout of
  RFC 2083 sections 3 and 4.1.1. The checksum is any function of the chunk.
 */
module PngScanner {
  import opened Bytes

  const SIGNATURE: Blob := [0x89, 0x50, 0x4E, 0x47, 0x0D, 0x0A, 0x1A, 0x0A]
  const IHDR: Blob := [0x49, 0x48, 0x44, 0x52]
  const IDAT: Blob := [0x49, 0x44, 0x41, 0x54]
  const IEND: Blob := [0x49, 0x45, 0x4E, 0x44]

  type Checksum = Blob -> nat

  // ----- the grammar -----

  datatype Chunk = Chunk(kind: Blob, data: Blob)

  predicate IsUpper(b: Byte) { 65 <= b <= 90 }

  predicate IsLetter(b: Byte) { IsUpper(b) || 97 <= b <= 122 }

  predicate ValidKind(kind: Blob)
  {
    |kind| == 4 && (forall i | 0 <= i < 4 :: IsLetter(kind[i])) && IsUpper(kind[2])
  }

  /** By the property bits of section 3.3: letters whose case bit is free, but for the reserved third one. */
  lemma {:induction false} KindByBits(kind: Blob)
    ensures ValidKind(kind) <==>
            && |kind| == 4 && kind[2] / 32 == 2
            && forall i | 0 <= i < 4 :: kind[i] / 32 in {2, 3} && 1 <= kind[i] % 32 <= 26
  {
  }

  predicate ValidChunk(c: Chunk)
  {
    ValidKind(c.kind) && |c.data| < 0x1_0000_0000
  }

  predicate ValidDepth(colorType: Byte, depth: Byte)
  {
    match colorType
    case 0 => depth in {1, 2, 4, 8, 16}
    case 2 => depth in {8, 16}
    case 3 => depth in {1, 2, 4, 8}
    case 4 => depth in {8, 16}
    case 6 => depth in {8, 16}
    case _ => false
  }

  /**
    Depths are powers of two up to 16; samples of the colour types other than
    greyscale and palette have at least 8 bits, and palette indices at most 8.
   */
  lemma {:induction false} DepthsByColorType(colorType: Byte, depth: Byte)
    ensures ValidDepth(colorType, depth) <==>
            && colorType in {0, 2, 3, 4, 6} && depth in {1, 2, 4, 8, 16}
            && (colorType != 0 && colorType != 3 ==> depth >= 8)
            && (colorType == 3 ==> depth <= 8)
  {
  }

  predicate ValidHeader(data: Blob)
  {
    && |data| == 13
    && BigEndian(data[..4]) != 0 && BigEndian(data[4..8]) != 0
    && ValidDepth(data[9], data[8])
    && data[10] == 0 && data[11] == 0 && data[12] in {0, 1}
  }

  function Crc(c: Chunk, sum: Checksum): nat
  {
    sum(c.kind + c.data) % 0x1_0000_0000
  }

  function ChunkBytes(c: Chunk, sum: Checksum): Blob
  {
    ToBigEndian(|c.data|, 4) + c.kind + c.data + ToBigEndian(Crc(c, sum), 4)
  }

  function AllBytes(cs: seq<Chunk>, sum: Checksum): Blob
  {
    if cs == [] then [] else ChunkBytes(cs[0], sum) + AllBytes(cs[1..], sum)
  }

  /**
    A valid IHDR first and nowhere else, at least one IDAT, an empty IEND last
    and nowhere else. A list that continues a file begun earlier has first false,
    and saw true if an IDAT came before it.
   */
  ghost predicate WellFormed(cs: seq<Chunk>, first: bool, saw: bool)
  {
    && |cs| > 0
    && (forall i | 0 <= i < |cs| :: ValidChunk(cs[i]))
    && (forall i | 0 <= i < |cs| :: cs[i].kind == IHDR <==> first && i == 0)
    && (first ==> ValidHeader(cs[0].data))
    && (saw || exists i :: 0 <= i < |cs| && cs[i].kind == IDAT)
    && (forall i | 0 <= i < |cs| :: cs[i].kind == IEND <==> i == |cs| - 1)
    && cs[|cs| - 1].data == []
  }

  // ----- the same, one chunk at a time -----

  predicate Fits(c: Chunk, first: bool)
  {
    ValidChunk(c) && if first then c.kind == IHDR && ValidHeader(c.data) else c.kind != IHDR
  }

  predicate Completes(cs: seq<Chunk>, first: bool, saw: bool)
  {
    && cs != [] && Fits(cs[0], first)
    && var saw' := saw || cs[0].kind == IDAT;
       if cs[0].kind == IEND then cs[0].data == [] && saw' && |cs| == 1 else Completes(cs[1..], false, saw')
  }

  ghost predicate CompleteBytes(rest: Blob, first: bool, saw: bool, sum: Checksum)
  {
    exists cs :: Completes(cs, first, saw) && rest == AllBytes(cs, sum)
  }

  ghost predicate IsPng(raw: Blob, sum: Checksum)
  {
    SIGNATURE <= raw && CompleteBytes(raw[8..], true, false, sum)
  }

  lemma {:induction false} WellFormedHead(cs: seq<Chunk>, first: bool, saw: bool)
    requires WellFormed(cs, first, saw)
    ensures Fits(cs[0], first)
    ensures cs[0].kind == IEND ==> |cs| == 1 && cs[0].data == [] && saw
    ensures cs[0].kind != IEND ==> WellFormed(cs[1..], false, saw || cs[0].kind == IDAT)
  {
    var rest := cs[1..];
    assert forall i | 0 <= i < |rest| :: rest[i] == cs[i + 1];
    if cs[0].kind != IEND && !saw && cs[0].kind != IDAT {
      var i :| 0 <= i < |cs| && cs[i].kind == IDAT;
      assert rest[i - 1].kind == IDAT;
    }
  }

  lemma {:induction false} WellFormedCons(cs: seq<Chunk>, first: bool, saw: bool)
    requires cs != [] && Fits(cs[0], first) && cs[0].kind != IEND
    requires WellFormed(cs[1..], false, saw || cs[0].kind == IDAT)
    ensures WellFormed(cs, first, saw)
  {
    var rest := cs[1..];
    assert forall i | 1 <= i < |cs| :: cs[i] == rest[i - 1];
    if !saw && cs[0].kind != IDAT {
      var i :| 0 <= i < |rest| && rest[i].kind == IDAT;
      assert cs[i + 1].kind == IDAT;
    }
  }

  lemma {:induction false} CompletesIsWellFormed(cs: seq<Chunk>, first: bool, saw: bool)
    ensures Completes(cs, first, saw) <==> WellFormed(cs, first, saw)
  {
    if cs == [] {
    } else {
      CompletesIsWellFormed(cs[1..], false, saw || cs[0].kind == IDAT);
      if WellFormed(cs, first, saw) {
        WellFormedHead(cs, first, saw);
      } else if Completes(cs, first, saw) && cs[0].kind != IEND {
        WellFormedCons(cs, first, saw);
      }
    }
  }

  // ----- reading one chunk -----

  // The chunk the length field at the front promises, if the bytes are there.
  predicate HasChunk(rest: Blob)
  {
    |rest| >= 12 && |rest| >= 12 + BigEndian(rest[..4])
  }

  function FrontChunk(rest: Blob): Chunk
    requires HasChunk(rest)
  {
    Chunk(rest[4..8], rest[8..8 + BigEndian(rest[..4])])
  }

  function FrontCrc(rest: Blob): nat
    requires HasChunk(rest)
  {
    var end := 8 + BigEndian(rest[..4]);
    BigEndian(rest[end..end + 4])
  }

  /** Bytes that begin with a chunk's encoding are read back as that chunk and its checksum. */
  lemma {:induction false} ReadsChunk(c: Chunk, more: Blob, sum: Checksum)
    requires ValidChunk(c)
    ensures var rest := ChunkBytes(c, sum) + more;
            && HasChunk(rest) && FrontChunk(rest) == c && FrontCrc(rest) == Crc(c, sum)
            && rest[12 + |c.data|..] == more
  {
    var rest := ChunkBytes(c, sum) + more;
    PowersOf256();
    DecodesBack(|c.data|, 4);
    DecodesBack(Crc(c, sum), 4);
    assert rest[..4] == ToBigEndian(|c.data|, 4);
    assert rest[4..8] == c.kind;
    assert rest[8..8 + |c.data|] == c.data;
    assert rest[8 + |c.data|..12 + |c.data|] == ToBigEndian(Crc(c, sum), 4);
  }

  /** And conversely: a chunk whose checksum is right was encoded there. */
  lemma {:induction false} ChunkWasEncoded(rest: Blob, sum: Checksum)
    requires HasChunk(rest) && ValidKind(FrontChunk(rest).kind) && FrontCrc(rest) == Crc(FrontChunk(rest), sum)
    ensures var c := FrontChunk(rest);
            ValidChunk(c) && rest == ChunkBytes(c, sum) + rest[12 + |c.data|..]
  {
    var c := FrontChunk(rest);
    var end := 8 + |c.data|;
    PowersOf256();
    EncodesBack(rest[..4]);
    EncodesBack(rest[end..end + 4]);
    assert rest == rest[..4] + rest[4..8] + rest[8..end] + rest[end..end + 4] + rest[end + 4..];
  }

  // Any completion begins with a readable chunk, and goes on after it.
  lemma {:induction false} CompletionSplits(rest: Blob, cs: seq<Chunk>, first: bool, saw: bool, sum: Checksum)
    requires Completes(cs, first, saw) && rest == AllBytes(cs, sum)
    ensures HasChunk(rest) && FrontChunk(rest) == cs[0] && FrontCrc(rest) == Crc(cs[0], sum)
    ensures rest[12 + |cs[0].data|..] == AllBytes(cs[1..], sum)
  {
    ReadsChunk(cs[0], AllBytes(cs[1..], sum), sum);
  }

  predicate ReadableAt(rest: Blob, first: bool, sum: Checksum)
  {
    HasChunk(rest) && Fits(FrontChunk(rest), first) && FrontCrc(rest) == Crc(FrontChunk(rest), sum)
  }

  // The chunk list continues after c, or c is a good IEND and nothing follows.
  ghost predicate GoesOn(c: Chunk, rest': Blob, saw': bool, sum: Checksum)
  {
    if c.kind == IEND then c.data == [] && saw' && rest' == [] else CompleteBytes(rest', false, saw', sum)
  }

  lemma {:induction false} CompletionGoesOn(rest: Blob, first: bool, saw: bool, sum: Checksum)
    requires CompleteBytes(rest, first, saw, sum)
    ensures ReadableAt(rest, first, sum)
    ensures var c := FrontChunk(rest); GoesOn(c, rest[12 + |c.data|..], saw || c.kind == IDAT, sum)
  {
    var cs :| Completes(cs, first, saw) && rest == AllBytes(cs, sum);
    CompletionSplits(rest, cs, first, saw, sum);
  }

  lemma {:induction false} GoingOnCompletes(rest: Blob, first: bool, saw: bool, sum: Checksum)
    requires ReadableAt(rest, first, sum)
    requires var c := FrontChunk(rest); GoesOn(c, rest[12 + |c.data|..], saw || c.kind == IDAT, sum)
    ensures CompleteBytes(rest, first, saw, sum)
  {
    var c := FrontChunk(rest);
    var saw', rest' := saw || c.kind == IDAT, rest[12 + |c.data|..];
    ChunkWasEncoded(rest, sum);
    var cs: seq<Chunk> := [];
    if c.kind != IEND {
      cs :| Completes(cs, false, saw') && rest' == AllBytes(cs, sum);
    }
    assert ([c] + cs)[1..] == cs;
    assert AllBytes([c] + cs, sum) == rest;
    assert Completes([c] + cs, first, saw);
  }

  /** One turn of the scanning loop decides the same question about the remaining bytes. */
  lemma {:induction false} OneChunkOn(rest: Blob, first: bool, saw: bool, sum: Checksum)
    ensures CompleteBytes(rest, first, saw, sum) <==>
              ReadableAt(rest, first, sum)
              && var c := FrontChunk(rest); GoesOn(c, rest[12 + |c.data|..], saw || c.kind == IDAT, sum)
  {
    if CompleteBytes(rest, first, saw, sum) {
      CompletionGoesOn(rest, first, saw, sum);
    } else if ReadableAt(rest, first, sum) {
      var c := FrontChunk(rest);
      if GoesOn(c, rest[12 + |c.data|..], saw || c.kind == IDAT, sum) {
        GoingOnCompletes(rest, first, saw, sum);
      }
    }
  }

  // ----- the scanner -----

  // Every check of one turn of the loop that can fail before IEND is looked at.
  method ReadChunk(raw: Blob, pos: nat, chunkIndex: nat, sum: Checksum) returns (valid: bool, kind: Blob, length: nat)
    requires pos < |raw|
    ensures valid <==> ReadableAt(raw[pos..], chunkIndex == 0, sum)
    ensures valid ==> kind == FrontChunk(raw[pos..]).kind && length == |FrontChunk(raw[pos..]).data|
    ensures valid ==> pos + 12 + length <= |raw|
  {
    kind, length := [], 0;
    if pos + 12 > |raw| {
      return false, kind, length;
    }
    SameSlices(raw, pos);
    length := BigEndian(raw[pos..pos + 4]);
    kind := raw[pos + 4..pos + 8];
    var dataStart := pos + 8;
    var dataEnd := dataStart + length;
    var chunkEnd := dataEnd + 4;
    if chunkEnd > |raw| {
      return false, kind, length;
    }
    PowersOf256();
    EncodesBack(raw[pos..pos + 4]);
    var data := raw[dataStart..dataEnd];
    if !(forall i | 0 <= i < 4 :: IsLetter(kind[i])) || !IsUpper(kind[2]) {
      return false, kind, length;
    }
    if sum(kind + data) % 0x1_0000_0000 != BigEndian(raw[dataEnd..chunkEnd]) {
      return false, kind, length;
    }
    if chunkIndex == 0 {
      if kind != IHDR || length != 13 || !ValidHeader(data) {
        return false, kind, length;
      }
    } else if kind == IHDR {
      return false, kind, length;
    }
    valid := true;
  }

  method IsCompletePng(raw: Blob, sum: Checksum) returns (ok: bool)
    ensures ok <==> IsPng(raw, sum)
  {
    if !(SIGNATURE <= raw) {
      return false;
    }
    var pos, chunkIndex, sawIdat := 8, 0, false;
    while pos < |raw|
      invariant pos <= |raw|
      invariant IsPng(raw, sum) <==> CompleteBytes(raw[pos..], chunkIndex == 0, sawIdat, sum)
      decreases |raw| - pos
    {
      OneChunkOn(raw[pos..], chunkIndex == 0, sawIdat, sum);
      var valid, kind, length := ReadChunk(raw, pos, chunkIndex, sum);
      if !valid {
        return false;
      }
      var chunkEnd := pos + 12 + length;
      assert raw[pos..][12 + length..] == raw[chunkEnd..];
      if kind == IDAT {
        sawIdat := true;
      }
      if kind == IEND {
        return length == 0 && sawIdat && chunkEnd == |raw|;
      }
      pos := chunkEnd;
      chunkIndex := chunkIndex + 1;
    }
    OneChunkOn(raw[pos..], chunkIndex == 0, sawIdat, sum);
    ok := false;
  }

  // Slicing the file at an offset, or slicing what is left of it.
  lemma {:induction false} SameSlices(raw: Blob, pos: nat)
    requires pos + 12 <= |raw|
    ensures raw[pos..][..4] == raw[pos..pos + 4] && raw[pos..][4..8] == raw[pos + 4..pos + 8]
    ensures var length := BigEndian(raw[pos..pos + 4]); var end := pos + 8 + length;
            end + 4 <= |raw| ==>
              && raw[pos..][8..8 + length] == raw[pos + 8..end]
              && raw[pos..][8 + length..12 + length] == raw[end..end + 4]
              && raw[pos..][12 + length..] == raw[end + 4..]
  {
  }

  /** The accepted files are the signature followed by a well-formed chunk list. */
  lemma {:induction false} PngIsWellFormedList(raw: Blob, sum: Checksum)
    ensures IsPng(raw, sum) <==> exists cs :: WellFormed(cs, true, false) && raw == SIGNATURE + AllBytes(cs, sum)
  {
    if cs :| WellFormed(cs, true, false) && raw == SIGNATURE + AllBytes(cs, sum) {
      CompletesIsWellFormed(cs, true, false);
      assert raw[8..] == AllBytes(cs, sum);
    }
    if IsPng(raw, sum) {
      var cs :| Completes(cs, true, false) && raw[8..] == AllBytes(cs, sum);
      CompletesIsWellFormed(cs, true, false);
      assert raw == SIGNATURE + raw[8..];
    }
  }

  // ----- no complete file continues another -----

  lemma {:induction false} NothingAfterEnd(rest: Blob, more: Blob, first: bool, saw: bool, sum: Checksum)
    requires CompleteBytes(rest, first, saw, sum) && CompleteBytes(rest + more, first, saw, sum)
    ensures more == []
    decreases |rest|
  {
    CompletionGoesOn(rest, first, saw, sum);
    CompletionGoesOn(rest + more, first, saw, sum);
    SameFront(rest, more);
    var c := FrontChunk(rest);
    if c.kind != IEND {
      NothingAfterEnd(rest[12 + |c.data|..], more, false, saw || c.kind == IDAT, sum);
    }
  }

  lemma {:induction false} SameFront(rest: Blob, more: Blob)
    requires HasChunk(rest)
    ensures HasChunk(rest + more) && FrontChunk(rest + more) == FrontChunk(rest)
    ensures var end := 12 + |FrontChunk(rest).data|; (rest + more)[end..] == rest[end..] + more
  {
    assert (rest + more)[..4] == rest[..4];
  }

  /** Bytes appended to a complete PNG make it incomplete. */
  lemma {:induction false} PngPrefixFree(raw: Blob, more: Blob, sum: Checksum)
    requires IsPng(raw, sum) && IsPng(raw + more, sum)
    ensures more == []
  {
    assert (raw + more)[8..] == raw[8..] + more;
    NothingAfterEnd(raw[8..], more, true, false, sum);
  }
}
