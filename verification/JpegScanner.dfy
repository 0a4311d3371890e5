/**
  Recognising a complete JPEG file: marker segments (ITU-T T.81 Annex B), with
  entropy-coded data after each start of scan, up to the end-of-image marker.
 */
module JpegScanner {
  import opened Options
  import opened Bytes

  const EOI: Byte := 0xD9
  const SOS: Byte := 0xDA

  predicate IsFrameHeader(marker: Byte)
  {
    marker in {0xC0, 0xC1, 0xC2, 0xC3, 0xC5, 0xC6, 0xC7, 0xC9, 0xCA, 0xCB, 0xCD, 0xCE, 0xCF}
  }

  // After a run of 0xFF: a stuffed byte or restart marker, which belongs to the scan.
  predicate IsScanCode(b: Byte)
  {
    b == 0x00 || 0xD0 <= b <= 0xD7
  }

  // A marker that may introduce a segment.
  predicate IsSegmentMarker(b: Byte)
  {
    !IsScanCode(b) && b !in {0x01, 0xD8, 0xD9, 0xFF}
  }

  /**
    The markers by their ranges in Table B.1 of T.81: frame headers are SOF0 to SOF15
    without DHT, JPG and DAC; segments may not be introduced by TEM, a restart
    marker, SOI, EOI, or the two codes that are no markers.
   */
  lemma {:induction false} MarkerRanges(b: Byte)
    ensures IsFrameHeader(b) <==> 0xC0 <= b <= 0xCF && b != 0xC4 && b != 0xC8 && b != 0xCC
    ensures IsSegmentMarker(b) <==> 0x02 <= b <= 0xCF || 0xDA <= b <= 0xFE
  {
  }

  // ----- runs of 0xFF -----

  function Fill(k: nat): (bs: Blob)
  {
    seq(k, _ => 0xFF)
  }

  predicate IsRun(rest: Blob, k: nat)
  {
    k <= |rest| && (forall i | 0 <= i < k :: rest[i] == 0xFF) && (k < |rest| ==> rest[k] != 0xFF)
  }

  lemma {:induction false} RunExists(rest: Blob)
    ensures exists k: nat :: IsRun(rest, k)
  {
    var k := 0;
    while k < |rest| && rest[k] == 0xFF
      invariant k <= |rest| && forall i | 0 <= i < k :: rest[i] == 0xFF
    {
      k := k + 1;
    }
    assert IsRun(rest, k);
  }

  // The length of the run of 0xFF at the front.
  ghost function RunLength(rest: Blob): (k: nat)
    ensures IsRun(rest, k)
  {
    RunExists(rest);
    var k: nat :| IsRun(rest, k);
    k
  }

  method SkipRun(raw: Blob, start: nat) returns (pos: nat)
    requires start <= |raw|
    ensures start <= pos <= |raw| && pos == start + RunLength(raw[start..])
    ensures start < |raw| && raw[start] == 0xFF ==> start < pos
  {
    pos := start;
    while pos < |raw| && raw[pos] == 0xFF
      invariant start <= pos <= |raw|
      invariant forall i | start <= i < pos :: raw[i] == 0xFF
    {
      pos := pos + 1;
    }
    ghost var rest, k := raw[start..], RunLength(raw[start..]);
    assert forall i | 0 <= i < |rest| :: rest[i] == raw[start + i];
    assert IsRun(rest, pos - start);
  }

  // ----- entropy-coded data -----

  datatype Entropy = Plain(b: Byte) | Coded(fill: nat, code: Byte)

  predicate ValidEntropy(e: Entropy)
  {
    if e.Plain? then e.b != 0xFF else e.fill >= 1 && IsScanCode(e.code)
  }

  predicate ValidScan(es: seq<Entropy>)
  {
    forall i | 0 <= i < |es| :: ValidEntropy(es[i])
  }

  function EntropyBytes(e: Entropy): Blob
  {
    if e.Plain? then [e.b] else Fill(e.fill) + [e.code]
  }

  function ScanBytes(es: seq<Entropy>): Blob
  {
    if es == [] then [] else EntropyBytes(es[0]) + ScanBytes(es[1..])
  }

  // The length of the scan item at the front: a plain byte, or a run with its scan code.
  ghost function EntropyLength(rest: Blob): (n: Option<nat>)
    ensures n.Some? ==> 1 <= n.value <= |rest|
  {
    if rest == [] then None
    else if rest[0] != 0xFF then Some(1)
    else
      var k := RunLength(rest);
      if k < |rest| && IsScanCode(rest[k]) then Some(k + 1) else None
  }

  lemma {:induction false} RunIsRead(k: nat, b: Byte, more: Blob)
    requires b != 0xFF
    ensures var rest := Fill(k) + [b] + more; RunLength(rest) == k && k < |rest| && rest[k] == b
  {
    assert IsRun(Fill(k) + [b] + more, k);
  }

  lemma {:induction false} RunIgnoresMore(rest: Blob, more: Blob)
    requires RunLength(rest) < |rest|
    ensures RunLength(rest + more) == RunLength(rest)
  {
    assert IsRun(rest + more, RunLength(rest));
  }

  lemma {:induction false} EntropyIsRead(e: Entropy, more: Blob)
    requires ValidEntropy(e)
    ensures EntropyLength(EntropyBytes(e) + more) == Some(|EntropyBytes(e)|)
  {
    if e.Coded? {
      RunIsRead(e.fill, e.code, more);
    }
  }

  lemma {:induction false} EntropyWasWritten(rest: Blob) returns (e: Entropy)
    requires EntropyLength(rest).Some?
    ensures ValidEntropy(e) && rest[..EntropyLength(rest).value] == EntropyBytes(e)
  {
    e := if rest[0] != 0xFF then Plain(rest[0]) else Coded(RunLength(rest), rest[RunLength(rest)]);
  }

  // ----- segments -----

  datatype Segment = Segment(fill: nat, marker: Byte, payload: Blob, scan: seq<Entropy>)

  predicate ValidSegment(s: Segment)
  {
    && s.fill >= 1 && IsSegmentMarker(s.marker)
    && |s.payload| + 2 < 0x1_0000
    && (IsFrameHeader(s.marker) ==> |s.payload| + 2 >= 8)
    && ValidScan(s.scan) && (s.marker != SOS ==> s.scan == [])
  }

  function HeadBytes(s: Segment): Blob
  {
    Fill(s.fill) + [s.marker] + ToBigEndian(|s.payload| + 2, 2) + s.payload
  }

  // The segments and the end-of-image marker, itself after `fill` bytes of 0xFF.
  function SegmentsBytes(ss: seq<Segment>, fill: nat): Blob
  {
    if ss == [] then Fill(fill) + [EOI]
    else HeadBytes(ss[0]) + (ScanBytes(ss[0].scan) + SegmentsBytes(ss[1..], fill))
  }

  ghost predicate AllValid(ss: seq<Segment>)
  {
    forall i | 0 <= i < |ss| :: ValidSegment(ss[i])
  }

  ghost predicate HasFrame(ss: seq<Segment>)
  {
    exists i :: 0 <= i < |ss| && IsFrameHeader(ss[i].marker)
  }

  ghost predicate HasScan(ss: seq<Segment>)
  {
    exists i :: 0 <= i < |ss| && ss[i].marker == SOS
  }

  /** Valid segments up to end-of-image, a frame header and a scan among them unless seen before. */
  ghost predicate CompleteList(rest: Blob, sof: bool, scan: bool, ss: seq<Segment>, fill: nat)
  {
    && fill >= 1 && AllValid(ss) && (sof || HasFrame(ss)) && (scan || HasScan(ss))
    && rest == SegmentsBytes(ss, fill)
  }

  ghost predicate CompleteBytes(rest: Blob, sof: bool, scan: bool)
  {
    exists ss, fill :: CompleteList(rest, sof, scan, ss, fill)
  }

  // Scan data, then a completion.
  ghost predicate InScan(rest: Blob, sof: bool)
  {
    exists es, more :: ValidScan(es) && rest == ScanBytes(es) + more && CompleteBytes(more, sof, true)
  }

  // The length of the valid segment at the front, its scan data not counted.
  ghost function SegmentLength(rest: Blob): (n: Option<nat>)
    ensures n.Some? ==> 1 <= n.value <= |rest|
  {
    var k := RunLength(rest);
    if k == 0 || k + 3 > |rest| || !IsSegmentMarker(rest[k]) then None
    else
      var length := BigEndian(rest[k + 1..k + 3]);
      if length < 2 || k + 1 + length > |rest| || (IsFrameHeader(rest[k]) && length < 8) then None
      else Some(k + 1 + length)
  }

  lemma {:induction false} HeadIsRead(s: Segment, more: Blob)
    requires ValidSegment(s)
    ensures var rest := HeadBytes(s) + more;
            && RunLength(rest) == s.fill < |rest| && rest[s.fill] == s.marker
            && SegmentLength(rest) == Some(|HeadBytes(s)|)
  {
    var rest := HeadBytes(s) + more;
    assert rest == Fill(s.fill) + [s.marker] + (ToBigEndian(|s.payload| + 2, 2) + s.payload + more);
    RunIsRead(s.fill, s.marker, ToBigEndian(|s.payload| + 2, 2) + s.payload + more);
    assert rest[s.fill + 1..s.fill + 3] == ToBigEndian(|s.payload| + 2, 2);
    PowersOf256();
    DecodesBack(|s.payload| + 2, 2);
  }

  lemma {:induction false} HeadWasWritten(rest: Blob, scan: seq<Entropy>) returns (s: Segment)
    requires SegmentLength(rest).Some?
    requires ValidScan(scan) && (rest[RunLength(rest)] != SOS ==> scan == [])
    ensures ValidSegment(s) && s.scan == scan && s.marker == rest[RunLength(rest)]
    ensures rest[..SegmentLength(rest).value] == HeadBytes(s)
  {
    var k, n := RunLength(rest), SegmentLength(rest).value;
    s := Segment(k, rest[k], rest[k + 3..n], scan);
    PowersOf256();
    EncodesBack(rest[k + 1..k + 3]);
    assert rest[..n] == rest[..k] + [rest[k]] + rest[k + 1..k + 3] + rest[k + 3..n];
    assert rest[..k] == Fill(k);
  }

  // ----- one segment at a time -----

  ghost predicate GoesOn(rest: Blob, sof: bool, scan: bool)
  {
    var k := RunLength(rest);
    && 1 <= k < |rest|
    && if rest[k] == EOI then sof && scan && k + 1 == |rest|
       else SegmentLength(rest).Some? && AfterHead(rest[SegmentLength(rest).value..], rest[k], sof, scan)
  }

  ghost predicate AfterHead(more: Blob, marker: Byte, sof: bool, scan: bool)
  {
    if marker == SOS then InScan(more, sof) else CompleteBytes(more, sof || IsFrameHeader(marker), scan)
  }

  lemma {:induction false} TailIsComplete(ss: seq<Segment>, fill: nat, sof: bool, scan: bool)
    requires ss != [] && CompleteList(SegmentsBytes(ss, fill), sof, scan, ss, fill)
    ensures CompleteBytes(SegmentsBytes(ss[1..], fill), sof || IsFrameHeader(ss[0].marker), scan || ss[0].marker == SOS)
  {
    var tail := ss[1..];
    assert AllValid(tail);
    if HasFrame(ss) && !IsFrameHeader(ss[0].marker) {
      var i :| 0 <= i < |ss| && IsFrameHeader(ss[i].marker);
      assert IsFrameHeader(tail[i - 1].marker);
    }
    if HasScan(ss) && ss[0].marker != SOS {
      var i :| 0 <= i < |ss| && ss[i].marker == SOS;
      assert tail[i - 1].marker == SOS;
    }
    var sof', scan' := sof || IsFrameHeader(ss[0].marker), scan || ss[0].marker == SOS;
    assert CompleteList(SegmentsBytes(tail, fill), sof', scan', tail, fill);
  }

  lemma {:induction false} CompletionGoesOn(rest: Blob, sof: bool, scan: bool)
    requires CompleteBytes(rest, sof, scan)
    ensures GoesOn(rest, sof, scan)
  {
    var ss: seq<Segment>, fill :| CompleteList(rest, sof, scan, ss, fill);
    if ss == [] {
      assert rest == Fill(fill) + [EOI] + [];
      RunIsRead(fill, EOI, []);
    } else {
      var s, more := ss[0], ScanBytes(ss[0].scan) + SegmentsBytes(ss[1..], fill);
      HeadIsRead(s, more);
      DropPrefix(HeadBytes(s), more);
      FirstHeadIsFollowed(ss, fill, sof, scan);
    }
  }

  lemma {:induction false} FirstHeadIsFollowed(ss: seq<Segment>, fill: nat, sof: bool, scan: bool)
    requires ss != [] && CompleteList(SegmentsBytes(ss, fill), sof, scan, ss, fill)
    ensures AfterHead(ScanBytes(ss[0].scan) + SegmentsBytes(ss[1..], fill), ss[0].marker, sof, scan)
  {
    var s, tail := ss[0], SegmentsBytes(ss[1..], fill);
    TailIsComplete(ss, fill, sof, scan);
    if s.marker == SOS {
      assert InScan(ScanBytes(s.scan) + tail, sof);
    } else {
      assert ScanBytes(s.scan) + tail == tail;
    }
  }

  lemma {:induction false} ConsCompletes(s: Segment, ss: seq<Segment>, fill: nat, sof: bool, scan: bool)
    requires ValidSegment(s)
    requires CompleteList(SegmentsBytes(ss, fill), sof || IsFrameHeader(s.marker), scan || s.marker == SOS, ss, fill)
    ensures CompleteBytes(HeadBytes(s) + (ScanBytes(s.scan) + SegmentsBytes(ss, fill)), sof, scan)
  {
    var all := [s] + ss;
    assert all[1..] == ss && all[0] == s;
    if !sof && !IsFrameHeader(s.marker) {
      var i :| 0 <= i < |ss| && IsFrameHeader(ss[i].marker);
      assert IsFrameHeader(all[i + 1].marker);
    }
    if !scan && s.marker != SOS {
      var i :| 0 <= i < |ss| && ss[i].marker == SOS;
      assert all[i + 1].marker == SOS;
    }
    assert CompleteList(SegmentsBytes(all, fill), sof, scan, all, fill);
  }

  lemma {:induction false} GoingOnCompletes(rest: Blob, sof: bool, scan: bool)
    requires GoesOn(rest, sof, scan)
    ensures CompleteBytes(rest, sof, scan)
  {
    var k := RunLength(rest);
    if rest[k] == EOI {
      assert rest == Fill(k) + [EOI];
      assert CompleteList(rest, sof, scan, [], k);
    } else {
      var n := SegmentLength(rest).value;
      TakeDrop(rest, n);
      if rest[k] == SOS {
        var es, more :| ValidScan(es) && rest[n..] == ScanBytes(es) + more && CompleteBytes(more, sof, true);
        var ss, fill :| CompleteList(more, sof, true, ss, fill);
        var s := HeadWasWritten(rest, es);
        ConsCompletes(s, ss, fill, sof, scan);
      } else {
        var ss, fill :| CompleteList(rest[n..], sof || IsFrameHeader(rest[k]), scan, ss, fill);
        var s := HeadWasWritten(rest, []);
        assert ScanBytes([]) + rest[n..] == rest[n..];
        ConsCompletes(s, ss, fill, sof, scan);
      }
    }
  }

  /** One turn of the segment loop decides the same question about the remaining bytes. */
  lemma {:induction false} OneSegmentOn(rest: Blob, sof: bool, scan: bool)
    ensures CompleteBytes(rest, sof, scan) <==> GoesOn(rest, sof, scan)
  {
    if CompleteBytes(rest, sof, scan) {
      CompletionGoesOn(rest, sof, scan);
    } else if GoesOn(rest, sof, scan) {
      GoingOnCompletes(rest, sof, scan);
    }
  }

  // ----- one scan item at a time -----

  lemma {:induction false} CompletionIsNoEntropy(rest: Blob, sof: bool, scan: bool)
    requires CompleteBytes(rest, sof, scan)
    ensures EntropyLength(rest) == None && RunLength(rest) < |rest|
  {
    CompletionGoesOn(rest, sof, scan);
  }

  // Past one scan item the scan goes on; where none stands, segments follow.
  ghost predicate ScanGoesOn(rest: Blob, sof: bool)
  {
    if EntropyLength(rest).Some? then InScan(rest[EntropyLength(rest).value..], sof)
    else CompleteBytes(rest, sof, true)
  }

  lemma {:induction false} ScanShrinks(rest: Blob, sof: bool)
    requires InScan(rest, sof)
    ensures ScanGoesOn(rest, sof)
  {
    var es, more :| ValidScan(es) && rest == ScanBytes(es) + more && CompleteBytes(more, sof, true);
    if es == [] {
      assert rest == more;
      CompletionIsNoEntropy(rest, sof, true);
    } else {
      var front, tail := EntropyBytes(es[0]), ScanBytes(es[1..]);
      Regroup(front, tail, more);
      EntropyIsRead(es[0], tail + more);
      DropPrefix(front, tail + more);
      assert ValidScan(es[1..]);
    }
  }

  lemma {:induction false} ScanGrows(rest: Blob, sof: bool)
    requires ScanGoesOn(rest, sof)
    ensures InScan(rest, sof)
  {
    if EntropyLength(rest).Some? {
      var n := EntropyLength(rest).value;
      var e := EntropyWasWritten(rest);
      var es, more :| ValidScan(es) && rest[n..] == ScanBytes(es) + more && CompleteBytes(more, sof, true);
      var all := [e] + es;
      assert all[1..] == es && ValidScan(all);
      TakeDrop(rest, n);
      Regroup(EntropyBytes(e), ScanBytes(es), more);
      assert rest == ScanBytes(all) + more;
    } else {
      assert rest == ScanBytes([]) + rest;
    }
  }

  /** One turn of the scan loop decides the same question about the remaining bytes. */
  lemma {:induction false} OneEntropyOn(rest: Blob, sof: bool)
    ensures InScan(rest, sof) <==> ScanGoesOn(rest, sof)
  {
    if InScan(rest, sof) {
      ScanShrinks(rest, sof);
    } else if ScanGoesOn(rest, sof) {
      ScanGrows(rest, sof);
    }
  }

  // ----- the scanner -----

  ghost predicate IsJpeg(raw: Blob)
  {
    [0xFF, 0xD8] <= raw && CompleteBytes(raw[2..], false, false)
  }

  // One turn of the scan loop: past a scan item, or stopped at (or running out in) a run of 0xFF.
  method ScanItem(raw: Blob, start: nat) returns (item: bool, pos: nat)
    requires start < |raw|
    ensures start < pos <= |raw|
    ensures EntropyLength(raw[start..]) == if item then Some(pos - start) else None
    ensures !item ==> pos == start + RunLength(raw[start..])
  {
    if raw[start] != 0xFF {
      return true, start + 1;
    }
    pos := SkipRun(raw, start);
    EntropyAt(raw, start, pos);
    if pos >= |raw| {
      return false, pos;
    }
    var scanMarker := raw[pos];
    if IsScanCode(scanMarker) {
      return true, pos + 1;
    }
    item := false;
  }

  // The scan loop: where the next segment must start, or nothing.
  method ScanEnd(raw: Blob, start: nat, ghost sof: bool) returns (end: Option<nat>)
    requires start <= |raw|
    ensures end.Some? ==> start <= end.value < |raw|
                          && (InScan(raw[start..], sof) <==> CompleteBytes(raw[end.value..], sof, true))
    ensures end.None? ==> !InScan(raw[start..], sof)
  {
    var pos := start;
    while pos < |raw|
      invariant start <= pos <= |raw|
      invariant InScan(raw[start..], sof) <==> InScan(raw[pos..], sof)
      decreases |raw| - pos
    {
      var item, next := ScanItem(raw, pos);
      if item {
        PastEntropy(raw, pos, next - pos, sof);
        pos := next;
        continue;
      }
      OneEntropyOn(raw[pos..], sof);
      if next >= |raw| {
        RunOutIsIncomplete(raw[pos..], sof);
        return None;
      }
      return Some(pos);
    }
    RunOutIsIncomplete(raw[pos..], sof);
    end := None;
  }

  lemma {:induction false} EntropyAt(raw: Blob, start: nat, pos: nat)
    requires start < |raw| && raw[start] == 0xFF && pos == start + RunLength(raw[start..])
    ensures EntropyLength(raw[start..]) == if pos < |raw| && IsScanCode(raw[pos]) then Some(pos + 1 - start) else None
  {
  }

  lemma {:induction false} PastEntropy(raw: Blob, pos: nat, n: nat, sof: bool)
    requires pos + n <= |raw| && EntropyLength(raw[pos..]) == Some(n)
    ensures InScan(raw[pos..], sof) <==> InScan(raw[pos + n..], sof)
  {
    OneEntropyOn(raw[pos..], sof);
    DropDrop(raw, pos, n);
  }

  lemma {:induction false} RunOutIsIncomplete(rest: Blob, sof: bool)
    requires RunLength(rest) == |rest|
    ensures !InScan(rest, sof) && forall s, scan :: !CompleteBytes(rest, s, scan)
  {
    forall s, scan
      ensures !CompleteBytes(rest, s, scan)
    {
      OneSegmentOn(rest, s, scan);
    }
    OneEntropyOn(rest, sof);
  }

  // Marker and length of the segment at start, when they are acceptable.
  method SegmentEnd(raw: Blob, start: nat, pos: nat) returns (end: Option<nat>)
    requires start < |raw| && pos == start + RunLength(raw[start..]) && start < pos < |raw|
    ensures end == if SegmentLength(raw[start..]).None? then None else Some(start + SegmentLength(raw[start..]).value)
  {
    ghost var rest, k := raw[start..], pos - start;
    var marker := raw[pos];
    if marker in {0x00, 0x01, 0xD8} || 0xD0 <= marker <= 0xD7 || marker == EOI {
      return None;
    }
    var at := pos + 1;
    if at + 2 > |raw| {
      return None;
    }
    var segmentLength := BigEndian(raw[at..at + 2]);
    assert rest[k + 1..k + 3] == raw[at..at + 2];
    if segmentLength < 2 {
      return None;
    }
    var segmentEnd := at + segmentLength;
    if segmentEnd > |raw| {
      return None;
    }
    if IsFrameHeader(marker) && segmentLength < 8 {
      return None;
    }
    end := Some(segmentEnd);
  }

  // The same question about the bytes past the segment at start.
  ghost predicate SegmentGoesOn(raw: Blob, start: nat, sof: bool, scan: bool)
    requires start < |raw|
  {
    var at, length := start + RunLength(raw[start..]), SegmentLength(raw[start..]);
    && start < at < |raw|
    && if raw[at] == EOI then sof && scan && at + 1 == |raw|
       else length.Some? && AfterHead(raw[start + length.value..], raw[at], sof, scan)
  }

  lemma {:induction false} AtMarker(raw: Blob, start: nat, sof: bool, scan: bool)
    requires start < |raw|
    ensures CompleteBytes(raw[start..], sof, scan) <==> SegmentGoesOn(raw, start, sof, scan)
  {
    OneSegmentOn(raw[start..], sof, scan);
    if SegmentLength(raw[start..]).Some? {
      DropDrop(raw, start, SegmentLength(raw[start..]).value);
    }
  }

  method IsCompleteJpeg(raw: Blob) returns (ok: bool)
    ensures ok <==> IsJpeg(raw)
  {
    if |raw| < 4 || raw[..2] != [0xFF, 0xD8] {
      ShortIsNotJpeg(raw);
      return false;
    }
    var pos := 2;
    var sawSof, sawScan := false, false;
    while pos < |raw|
      invariant pos <= |raw|
      invariant IsJpeg(raw) <==> CompleteBytes(raw[pos..], sawSof, sawScan)
      decreases |raw| - pos
    {
      var start := pos;
      AtMarker(raw, start, sawSof, sawScan);
      if raw[pos] != 0xFF {
        return false;
      }
      pos := SkipRun(raw, pos);
      if pos >= |raw| {
        return false;
      }
      var marker := raw[pos];
      if marker == EOI {
        return sawSof && sawScan && pos + 1 == |raw|;
      }
      var end := SegmentEnd(raw, start, pos);
      if end == None {
        return false;
      }
      if IsFrameHeader(marker) {
        sawSof := true;
      }
      pos := end.value;
      if marker != SOS {
        continue;
      }
      sawScan := true;
      end := ScanEnd(raw, pos, sawSof);
      if end == None {
        return false;
      }
      pos := end.value;
    }
    OneSegmentOn(raw[pos..], sawSof, sawScan);
    ok := false;
  }

  lemma {:induction false} ShortIsNotJpeg(raw: Blob)
    ensures IsJpeg(raw) ==> |raw| >= 4 && raw[..2] == [0xFF, 0xD8]
  {
    if IsJpeg(raw) {
      OneSegmentOn(raw[2..], false, false);
    }
  }

  // ----- no complete file continues another -----

  lemma {:induction false} SegmentIgnoresMore(rest: Blob, more: Blob)
    requires RunLength(rest) < |rest|
    ensures RunLength(rest + more) == RunLength(rest)
    ensures SegmentLength(rest).Some? ==> SegmentLength(rest + more) == SegmentLength(rest)
    ensures EntropyLength(rest + more) == EntropyLength(rest)
  {
    RunIgnoresMore(rest, more);
    var k := RunLength(rest);
    if k + 3 <= |rest| {
      assert (rest + more)[k + 1..k + 3] == rest[k + 1..k + 3];
    }
  }

  lemma {:induction false} NothingAfterEnd(rest: Blob, more: Blob, sof: bool, scan: bool)
    requires CompleteBytes(rest, sof, scan) && CompleteBytes(rest + more, sof, scan)
    ensures more == []
    decreases |rest|, 0
  {
    CompletionGoesOn(rest, sof, scan);
    CompletionGoesOn(rest + more, sof, scan);
    SegmentIgnoresMore(rest, more);
    var k := RunLength(rest);
    if rest[k] != EOI {
      var n := SegmentLength(rest).value;
      DropOfConcat(rest, more, n);
      if rest[k] == SOS {
        NothingAfterScan(rest[n..], more, sof);
      } else {
        NothingAfterEnd(rest[n..], more, sof || IsFrameHeader(rest[k]), scan);
      }
    }
  }

  lemma {:induction false} NothingAfterScan(rest: Blob, more: Blob, sof: bool)
    requires InScan(rest, sof) && InScan(rest + more, sof)
    ensures more == []
    decreases |rest|, 1
  {
    ScanShrinks(rest, sof);
    ScanShrinks(rest + more, sof);
    if EntropyLength(rest).Some? {
      var n := EntropyLength(rest).value;
      EntropyIgnoresMore(rest, more);
      DropOfConcat(rest, more, n);
      NothingAfterScan(rest[n..], more, sof);
    } else {
      CompletionIsNoEntropy(rest, sof, true);
      SegmentIgnoresMore(rest, more);
      NothingAfterEnd(rest, more, sof, true);
    }
  }

  lemma {:induction false} EntropyIgnoresMore(rest: Blob, more: Blob)
    requires EntropyLength(rest).Some?
    ensures EntropyLength(rest + more) == EntropyLength(rest)
  {
    if rest[0] == 0xFF {
      RunIgnoresMore(rest, more);
    }
  }

  /** Bytes appended to a complete JPEG make it incomplete. */
  lemma {:induction false} JpegPrefixFree(raw: Blob, more: Blob)
    requires IsJpeg(raw) && IsJpeg(raw + more)
    ensures more == []
  {
    DropOfConcat(raw, more, 2);
    NothingAfterEnd(raw[2..], more, false, false);
  }
}
