/**
  Recognising a complete GIF file: header, optional colour tables, extension and
  image blocks whose data ends with an empty sub-block, and the trailer
  (GIF89a sections 15 to 27).
 */
module GifScanner {
  import opened Options
  import opened Bytes

  const GIF87A: Blob := [0x47, 0x49, 0x46, 0x38, 0x37, 0x61]
  const GIF89A: Blob := [0x47, 0x49, 0x46, 0x38, 0x39, 0x61]
  const TRAILER: Byte := 0x3B
  const EXTENSION: Byte := 0x21
  const IMAGE: Byte := 0x2C

  // ----- data sub-blocks -----

  predicate ValidData(data: seq<Blob>)
  {
    forall i | 0 <= i < |data| :: 1 <= |data[i]| <= 255
  }

  function DataBytes(data: seq<Blob>): Blob
    requires ValidData(data)
  {
    if data == [] then [0] else [|data[0]| as Byte] + data[0] + DataBytes(data[1..])
  }

  // How many bytes the sub-blocks at the front take, terminator included.
  function DataLength(rest: Blob): (k: Option<nat>)
    ensures k.Some? ==> 1 <= k.value <= |rest|
  {
    if rest == [] then None
    else if rest[0] == 0 then Some(1)
    else if 1 + rest[0] > |rest| then None
    else
      var more := DataLength(rest[1 + rest[0]..]);
      if more.None? then None else Some(1 + rest[0] + more.value)
  }

  method SubblocksEnd(raw: Blob, start: nat) returns (end: Option<nat>)
    requires start <= |raw|
    ensures end == if DataLength(raw[start..]).None? then None else Some(start + DataLength(raw[start..]).value)
  {
    var pos := start;
    while pos < |raw|
      invariant start <= pos <= |raw|
      invariant DataLength(raw[start..]) ==
                if DataLength(raw[pos..]).None? then None else Some(pos - start + DataLength(raw[pos..]).value)
    {
      ghost var rest := raw[pos..];
      var size := raw[pos];
      pos := pos + 1;
      if size == 0 {
        return Some(pos);
      }
      if pos + size > |raw| {
        return None;
      }
      pos := pos + size;
      assert rest[1 + size..] == raw[pos..];
    }
    end := None;
  }

  lemma {:induction false} OneSubblock(rest: Blob, first: Blob, after: Blob)
    requires 1 <= |first| <= 255 && rest == [|first| as Byte] + first + after
    ensures DataLength(rest) == if DataLength(after).None? then None else Some(1 + |first| + DataLength(after).value)
  {
    DropPrefix([|first| as Byte] + first, after);
    assert rest[0] == |first|;
  }

  lemma {:induction false} DataIsRead(data: seq<Blob>, more: Blob)
    requires ValidData(data)
    ensures DataLength(DataBytes(data) + more) == Some(|DataBytes(data)|)
  {
    var rest := DataBytes(data) + more;
    if data == [] {
      assert rest[0] == 0;
    } else {
      var tail := DataBytes(data[1..]);
      DataIsRead(data[1..], more);
      Regroup([|data[0]| as Byte] + data[0], tail, more);
      OneSubblock(rest, data[0], tail + more);
      assert DataLength(rest) == Some(|DataBytes(data)|);
    }
  }

  lemma {:induction false} DataWasEncoded(rest: Blob) returns (data: seq<Blob>)
    requires DataLength(rest).Some?
    ensures ValidData(data) && rest[..DataLength(rest).value] == DataBytes(data)
  {
    if rest[0] == 0 {
      data := [];
    } else {
      var size := rest[0];
      var tail := rest[1 + size..];
      var more := DataWasEncoded(tail);
      data := [rest[1..1 + size]] + more;
      assert data[1..] == more;
      assert rest[..DataLength(rest).value] == [size] + rest[1..1 + size] + tail[..DataLength(tail).value];
    }
  }

  lemma {:induction false} DataIgnoresMore(rest: Blob, more: Blob)
    requires DataLength(rest).Some?
    ensures DataLength(rest + more) == DataLength(rest)
  {
    if rest[0] != 0 {
      var size := rest[0];
      DataIgnoresMore(rest[1 + size..], more);
      assert (rest + more)[1 + size..] == rest[1 + size..] + more;
    }
  }

  // ----- blocks -----

  function LittleEndian2(lo: Byte, hi: Byte): nat
  {
    lo + 256 * hi
  }

  function Pow2(k: nat): nat
  {
    if k == 0 then 1 else 2 * Pow2(k - 1)
  }

  // A packed byte with its top bit set announces a table of 2^(low bits + 1) colours.
  function TableSize(packed: Byte): nat
  {
    if packed >= 0x80 then 3 * Pow2(packed % 8 + 1) else 0
  }

  // The eight sizes of a table in bytes, and which packed bytes announce which.
  lemma {:induction false} TableSizes(packed: Byte)
    ensures packed < 0x80 ==> TableSize(packed) == 0
    ensures packed >= 0x80 ==> TableSize(packed) == [6, 12, 24, 48, 96, 192, 384, 768][packed % 8]
  {
    assert Pow2(2) == 4 && Pow2(3) == 8 && Pow2(4) == 16 && Pow2(5) == 32;
    assert Pow2(6) == 64 && Pow2(7) == 128 && Pow2(8) == 256;
  }

  datatype Block =
    | Extension(code: Byte, data: seq<Blob>)
    | Image(descriptor: Blob, table: Blob, codeSize: Byte, data: seq<Blob>)

  predicate ValidDescriptor(d: Blob)
  {
    |d| == 9 && LittleEndian2(d[4], d[5]) != 0 && LittleEndian2(d[6], d[7]) != 0
  }

  predicate ValidBlock(b: Block)
  {
    && ValidData(b.data)
    && (b.Image? ==> ValidDescriptor(b.descriptor) && |b.table| == TableSize(b.descriptor[8]) && 2 <= b.codeSize <= 11)
  }

  function BlockBytes(b: Block): Blob
    requires ValidBlock(b)
  {
    match b
    case Extension(code, data) => [EXTENSION, code] + DataBytes(data)
    case Image(descriptor, table, codeSize, data) => [IMAGE] + descriptor + table + [codeSize] + DataBytes(data)
  }

  // Where the data of the image block at the front begins, if everything before it is right.
  function ImageDataAt(rest: Blob): (at: Option<nat>)
    requires rest != [] && rest[0] == IMAGE
    ensures at.Some? ==> 11 <= at.value <= |rest|
  {
    if |rest| < 10 || !ValidDescriptor(rest[1..10]) then None
    else
      var at := 10 + TableSize(rest[9]);
      if at >= |rest| || !(2 <= rest[at] <= 11) then None else Some(at + 1)
  }

  // The length of the valid block at the front, if there is one.
  function BlockLength(rest: Blob): (k: Option<nat>)
    ensures k.Some? ==> 1 <= k.value <= |rest|
  {
    if rest == [] then None
    else if rest[0] == EXTENSION then
      if |rest| < 2 || DataLength(rest[2..]).None? then None else Some(2 + DataLength(rest[2..]).value)
    else if rest[0] == IMAGE then
      var at := ImageDataAt(rest);
      if at.None? || DataLength(rest[at.value..]).None? then None
      else Some(at.value + DataLength(rest[at.value..]).value)
    else None
  }

  lemma {:induction false} ExtensionIsRead(b: Block, more: Blob)
    requires ValidBlock(b) && b.Extension?
    ensures BlockLength(BlockBytes(b) + more) == Some(|BlockBytes(b)|)
  {
    var rest := BlockBytes(b) + more;
    assert rest[2..] == DataBytes(b.data) + more;
    DataIsRead(b.data, more);
  }

  lemma {:induction false} ImageFront(descriptor: Blob, table: Blob, size: Byte, tail: Blob)
    requires |descriptor| == 9
    ensures var rest := [IMAGE] + descriptor + table + [size] + tail;
            && |rest| >= 11 + |table| && rest[0] == IMAGE && rest[1..10] == descriptor && rest[9] == descriptor[8]
            && rest[10 + |table|] == size && rest[11 + |table|..] == tail
  {
  }

  lemma {:induction false} ImageIsRead(b: Block, more: Blob)
    requires ValidBlock(b) && b.Image?
    ensures BlockLength(BlockBytes(b) + more) == Some(|BlockBytes(b)|)
  {
    var tail := DataBytes(b.data);
    Regroup([IMAGE] + b.descriptor + b.table + [b.codeSize], tail, more);
    ImageFront(b.descriptor, b.table, b.codeSize, tail + more);
    DataIsRead(b.data, more);
  }

  lemma {:induction false} BlockIsRead(b: Block, more: Blob)
    requires ValidBlock(b)
    ensures BlockLength(BlockBytes(b) + more) == Some(|BlockBytes(b)|)
  {
    if b.Extension? {
      ExtensionIsRead(b, more);
    } else {
      ImageIsRead(b, more);
    }
  }

  lemma {:induction false} ImageFrontWas(rest: Blob)
    requires rest != [] && rest[0] == IMAGE && ImageDataAt(rest).Some?
    ensures var at := ImageDataAt(rest).value;
            rest[..at] == [IMAGE] + rest[1..10] + rest[10..at - 1] + [rest[at - 1]]
  {
  }

  lemma {:induction false} ImageWasEncoded(rest: Blob) returns (b: Block)
    requires BlockLength(rest).Some? && rest[0] == IMAGE
    ensures ValidBlock(b) && b.Image? && rest[..BlockLength(rest).value] == BlockBytes(b)
  {
    var at := ImageDataAt(rest).value;
    var data := DataWasEncoded(rest[at..]);
    b := Image(rest[1..10], rest[10..at - 1], rest[at - 1], data);
    ImageFrontWas(rest);
    TakeInTwo(rest, at, DataLength(rest[at..]).value);
  }

  lemma {:induction false} BlockWasEncoded(rest: Blob) returns (b: Block)
    requires BlockLength(rest).Some?
    ensures ValidBlock(b) && rest[..BlockLength(rest).value] == BlockBytes(b) && (b.Image? <==> rest[0] == IMAGE)
  {
    if rest[0] == EXTENSION {
      var data := DataWasEncoded(rest[2..]);
      b := Extension(rest[1], data);
      TakeInTwo(rest, 2, DataLength(rest[2..]).value);
      assert rest[..2] == [EXTENSION, rest[1]];
    } else {
      b := ImageWasEncoded(rest);
    }
  }

  lemma {:induction false} ImageFrontIgnoresMore(rest: Blob, more: Blob)
    requires rest != [] && rest[0] == IMAGE && ImageDataAt(rest).Some?
    ensures ImageDataAt(rest + more) == ImageDataAt(rest)
  {
    assert (rest + more)[1..10] == rest[1..10];
  }

  lemma {:induction false} BlockIgnoresMore(rest: Blob, more: Blob)
    requires BlockLength(rest).Some?
    ensures BlockLength(rest + more) == BlockLength(rest)
  {
    if rest[0] == EXTENSION {
      DropOfConcat(rest, more, 2);
      DataIgnoresMore(rest[2..], more);
    } else {
      var at := ImageDataAt(rest).value;
      ImageFrontIgnoresMore(rest, more);
      DropOfConcat(rest, more, at);
      DataIgnoresMore(rest[at..], more);
    }
  }

  // ----- block lists -----

  predicate ValidBlocks(bs: seq<Block>)
  {
    forall i | 0 <= i < |bs| :: ValidBlock(bs[i])
  }

  function BlocksBytes(bs: seq<Block>): Blob
    requires ValidBlocks(bs)
  {
    if bs == [] then [TRAILER] else BlockBytes(bs[0]) + BlocksBytes(bs[1..])
  }

  ghost predicate HasImage(bs: seq<Block>)
  {
    exists i :: 0 <= i < |bs| && bs[i].Image?
  }

  /** Valid blocks up to the trailer, an image among them unless one was seen before. */
  ghost predicate CompleteBytes(rest: Blob, saw: bool)
  {
    exists bs :: ValidBlocks(bs) && (saw || HasImage(bs)) && rest == BlocksBytes(bs)
  }

  ghost predicate GoesOn(rest: Blob, saw: bool)
  {
    && rest != []
    && if rest[0] == TRAILER then saw && |rest| == 1
       else BlockLength(rest).Some? && CompleteBytes(rest[BlockLength(rest).value..], saw || rest[0] == IMAGE)
  }

  lemma {:induction false} CompletionGoesOn(rest: Blob, saw: bool)
    requires CompleteBytes(rest, saw)
    ensures GoesOn(rest, saw)
  {
    var bs: seq<Block> :| ValidBlocks(bs) && (saw || HasImage(bs)) && rest == BlocksBytes(bs);
    if bs != [] {
      var tail := BlocksBytes(bs[1..]);
      BlockIsRead(bs[0], tail);
      assert rest[|BlockBytes(bs[0])|..] == tail;
      if HasImage(bs) && !bs[0].Image? {
        var i :| 0 <= i < |bs| && bs[i].Image?;
        assert bs[1..][i - 1].Image?;
      }
      assert rest[0] == BlockBytes(bs[0])[0];
    }
  }

  lemma {:induction false} ConsCompletes(b: Block, bs: seq<Block>, saw: bool)
    requires ValidBlock(b) && ValidBlocks(bs) && (saw || b.Image? || HasImage(bs))
    ensures CompleteBytes(BlockBytes(b) + BlocksBytes(bs), saw)
  {
    var all := [b] + bs;
    assert all[1..] == bs;
    if !saw && !b.Image? {
      var i :| 0 <= i < |bs| && bs[i].Image?;
      assert all[i + 1].Image?;
    }
    assert b.Image? ==> all[0].Image?;
    assert ValidBlocks(all) && (saw || HasImage(all)) && BlockBytes(b) + BlocksBytes(bs) == BlocksBytes(all);
  }

  lemma {:induction false} GoingOnCompletes(rest: Blob, saw: bool)
    requires GoesOn(rest, saw)
    ensures CompleteBytes(rest, saw)
  {
    if rest[0] == TRAILER {
      assert rest == BlocksBytes([]);
    } else {
      var k := BlockLength(rest).value;
      var b := BlockWasEncoded(rest);
      var bs: seq<Block> :|
        ValidBlocks(bs) && (saw || rest[0] == IMAGE || HasImage(bs)) && rest[k..] == BlocksBytes(bs);
      ConsCompletes(b, bs, saw);
      TakeDrop(rest, k);
    }
  }

  /** One turn of the scanning loop decides the same question about the remaining bytes. */
  lemma {:induction false} OneBlockOn(rest: Blob, saw: bool)
    ensures CompleteBytes(rest, saw) <==> GoesOn(rest, saw)
  {
    if CompleteBytes(rest, saw) {
      CompletionGoesOn(rest, saw);
    } else if GoesOn(rest, saw) {
      GoingOnCompletes(rest, saw);
    }
  }

  // ----- the file -----

  // The fixed part of the header, at the front of h.
  predicate ValidHeader(h: Blob)
  {
    && |h| >= 13 && (GIF87A <= h || GIF89A <= h)
    && LittleEndian2(h[6], h[7]) != 0 && LittleEndian2(h[8], h[9]) != 0
  }

  ghost predicate IsGif(raw: Blob)
  {
    && ValidHeader(raw)
    && var start := 13 + TableSize(raw[10]);
       start <= |raw| && CompleteBytes(raw[start..], false)
  }

  // A header, its colour table, valid blocks with an image, and the trailer.
  ghost predicate GifList(raw: Blob, header: Blob, table: Blob, bs: seq<Block>)
  {
    && |header| == 13 && ValidHeader(header) && |table| == TableSize(header[10])
    && ValidBlocks(bs) && HasImage(bs)
    && raw == header + table + BlocksBytes(bs)
  }

  lemma {:induction false} ListIsGif(raw: Blob, header: Blob, table: Blob, bs: seq<Block>)
    requires GifList(raw, header, table, bs)
    ensures IsGif(raw)
  {
    assert forall i | 0 <= i < 13 :: raw[i] == header[i];
    assert raw[13 + |table|..] == BlocksBytes(bs);
  }

  lemma {:induction false} HeaderAndTable(raw: Blob, start: nat)
    requires ValidHeader(raw) && 13 <= start <= |raw|
    ensures ValidHeader(raw[..13]) && raw[..13][10] == raw[10]
  {
  }

  lemma {:induction false} InThree(raw: Blob, i: nat, j: nat)
    requires i <= j <= |raw|
    ensures raw == raw[..i] + raw[i..j] + raw[j..]
  {
  }

  lemma {:induction false} GifIsList(raw: Blob) returns (header: Blob, table: Blob, bs: seq<Block>)
    requires IsGif(raw)
    ensures GifList(raw, header, table, bs)
  {
    var start := 13 + TableSize(raw[10]);
    bs :| ValidBlocks(bs) && HasImage(bs) && raw[start..] == BlocksBytes(bs);
    HeaderAndTable(raw, start);
    InThree(raw, 13, start);
    header, table := raw[..13], raw[13..start];
  }

  /** The accepted files are exactly the serialised well-formed block lists. */
  lemma {:induction false} GifIsWellFormedList(raw: Blob)
    ensures IsGif(raw) <==> exists header, table, bs :: GifList(raw, header, table, bs)
  {
    if header, table, bs :| GifList(raw, header, table, bs) {
      ListIsGif(raw, header, table, bs);
    }
    if IsGif(raw) {
      var header, table, bs := GifIsList(raw);
    }
  }

  method IsCompleteGif(raw: Blob) returns (ok: bool)
    ensures ok <==> IsGif(raw)
  {
    if |raw| < 14 || !(GIF87A <= raw || GIF89A <= raw) {
      ShortIsNotGif(raw);
      return false;
    }
    if LittleEndian2(raw[6], raw[7]) == 0 || LittleEndian2(raw[8], raw[9]) == 0 {
      return false;
    }
    var pos := 13 + TableSize(raw[10]);
    if pos > |raw| {
      return false;
    }
    var sawImage := false;
    while pos < |raw|
      invariant pos <= |raw|
      invariant IsGif(raw) <==> CompleteBytes(raw[pos..], sawImage)
      decreases |raw| - pos
    {
      OneBlockOn(raw[pos..], sawImage);
      var introducer := raw[pos];
      if introducer == TRAILER {
        return sawImage && pos + 1 == |raw|;
      }
      var end := BlockEnd(raw, pos);
      if end == None {
        return false;
      }
      assert raw[pos..][end.value - pos..] == raw[end.value..];
      pos := end.value;
      if introducer == IMAGE {
        sawImage := true;
      }
    }
    OneBlockOn(raw[pos..], sawImage);
    ok := false;
  }

  // One turn of the loop for anything but the trailer.
  method BlockEnd(raw: Blob, start: nat) returns (end: Option<nat>)
    requires start < |raw| && raw[start] != TRAILER
    ensures end == if BlockLength(raw[start..]).None? then None else Some(start + BlockLength(raw[start..]).value)
  {
    var pos := start + 1;
    if raw[start] == EXTENSION {
      if pos >= |raw| {
        return None;
      }
      DropDrop(raw, start, 2);
      end := SubblocksEnd(raw, pos + 1);
      return;
    }
    if raw[start] != IMAGE {
      return None;
    }
    var data := ImageHead(raw, start);
    if data.None? {
      return None;
    }
    DropDrop(raw, start, data.value - start);
    end := SubblocksEnd(raw, data.value);
  }

  // The part of that turn up to an image's data.
  method ImageHead(raw: Blob, start: nat) returns (data: Option<nat>)
    requires start < |raw| && raw[start] == IMAGE
    ensures var at := ImageDataAt(raw[start..]);
            data == if at.None? then None else Some(start + at.value)
  {
    var pos := start + 1;
    if pos + 9 > |raw| {
      return None;
    }
    assert raw[start..][1..10] == raw[pos..pos + 9];
    if LittleEndian2(raw[pos + 4], raw[pos + 5]) == 0 || LittleEndian2(raw[pos + 6], raw[pos + 7]) == 0 {
      return None;
    }
    pos := pos + 9 + TableSize(raw[pos + 8]);
    if pos >= |raw| || !(2 <= raw[pos] <= 11) {
      return None;
    }
    data := Some(pos + 1);
  }

  lemma {:induction false} ShortIsNotGif(raw: Blob)
    ensures IsGif(raw) ==> |raw| >= 14 && (GIF87A <= raw || GIF89A <= raw)
  {
    if IsGif(raw) {
      var start := 13 + TableSize(raw[10]);
      CompletionGoesOn(raw[start..], false);
    }
  }

  // ----- no complete file continues another -----

  lemma {:induction false} SkipBlock(rest: Blob, saw: bool) returns (k: nat)
    requires CompleteBytes(rest, saw)
    ensures rest != [] && (rest[0] == TRAILER ==> |rest| == 1)
    ensures rest[0] != TRAILER ==>
              1 <= k <= |rest| && BlockLength(rest) == Some(k) && CompleteBytes(rest[k..], saw || rest[0] == IMAGE)
  {
    CompletionGoesOn(rest, saw);
    k := if rest[0] == TRAILER then 0 else BlockLength(rest).value;
  }

  lemma {:induction false} SkipSameBlock(rest: Blob, more: Blob, saw: bool, k: nat)
    requires CompleteBytes(rest + more, saw) && rest != [] && rest[0] != TRAILER && BlockLength(rest) == Some(k)
    ensures CompleteBytes(rest[k..] + more, saw || rest[0] == IMAGE)
  {
    var k' := SkipBlock(rest + more, saw);
    BlockIgnoresMore(rest, more);
    assert (rest + more)[k..] == rest[k..] + more;
  }

  lemma {:induction false} NothingAfterTrailer(rest: Blob, more: Blob, saw: bool)
    requires CompleteBytes(rest, saw) && CompleteBytes(rest + more, saw)
    ensures more == []
    decreases |rest|
  {
    var k := SkipBlock(rest, saw);
    if rest[0] == TRAILER {
      var _ := SkipBlock(rest + more, saw);
    } else {
      SkipSameBlock(rest, more, saw, k);
      NothingAfterTrailer(rest[k..], more, saw || rest[0] == IMAGE);
    }
  }

  lemma {:induction false} SameBody(raw: Blob, more: Blob, start: nat)
    requires 13 <= start <= |raw|
    ensures (raw + more)[10] == raw[10] && (raw + more)[start..] == raw[start..] + more
  {
  }

  lemma {:induction false} BodyComplete(raw: Blob, start: nat)
    requires IsGif(raw) && start == 13 + TableSize(raw[10])
    ensures start <= |raw| && CompleteBytes(raw[start..], false)
  {
  }

  /** Bytes appended to a complete GIF make it incomplete. */
  lemma {:induction false} GifPrefixFree(raw: Blob, more: Blob)
    requires IsGif(raw) && IsGif(raw + more)
    ensures more == []
  {
    var start := 13 + TableSize(raw[10]);
    BodyComplete(raw, start);
    SameBody(raw, more, start);
    BodyComplete(raw + more, start);
    NothingAfterTrailer(raw[start..], more, false);
  }
}
