/**
  The CBOR reader and the shortest-form encoding undo each other: every encodable
  value is read back, and every value read is encodable in no more bytes.
 */
module CborRoundTrip {
  import opened Bytes
  import opened CborValues
  import opened CborReader

  // The bytes bs stand in data at pos.
  ghost predicate Holds(data: Blob, pos: nat, bs: Blob)
  {
    pos + |bs| <= |data| && data[pos..pos + |bs|] == bs
  }

  lemma {:induction false} HoldsInTwo(data: Blob, pos: nat, a: Blob, b: Blob)
    requires Holds(data, pos, a + b)
    ensures Holds(data, pos, a) && Holds(data, pos + |a|, b)
  {
    var both := data[pos..pos + |a + b|];
    DropPrefix(a, b);
    assert data[pos..pos + |a|] == both[..|a|];
    assert data[pos + |a|..pos + |a| + |b|] == both[|a|..];
  }

  // ----- reading back an encoding -----

  lemma {:induction false} NumberReadsBack(data: Blob, at: nat, width: nat, n: nat)
    requires n < Pow256(width) && Holds(data, at, ToBigEndian(n, width))
    ensures Number(data, at, width) == Ok(n, at + width)
  {
    DecodesBack(n, width);
  }

  // The additional-information bits that announce a width.
  function Announces(n: nat): nat
  {
    match ArgWidth(n)
    case 0 => n
    case 1 => 24
    case 2 => 25
    case 4 => 26
    case 8 => 27
  }

  lemma {:induction false} HeadInTwo(major: nat, n: nat)
    requires major < 8
    ensures HeadBytes(major, n) ==
            [major * 32 + Announces(n)] + if ArgWidth(n) == 0 then [] else ToBigEndian(n, ArgWidth(n))
  {
  }

  lemma {:induction false} HeadReadsBack(data: Blob, pos: nat, major: nat, n: nat)
    requires major < 8 && n < 0x1_0000_0000_0000_0000 && Holds(data, pos, HeadBytes(major, n))
    ensures HeadAt(data, pos) == Ok(Head(major, n), pos + |HeadBytes(major, n)|)
  {
    var w, addl := ArgWidth(n), Announces(n);
    PowersOf256();
    HeadInTwo(major, n);
    HoldsInTwo(data, pos, [major * 32 + addl], if w == 0 then [] else ToBigEndian(n, w));
    assert data[pos] == data[pos..pos + 1][0];
    assert data[pos] / 32 == major && data[pos] % 32 == addl;
    if w > 0 {
      NumberReadsBack(data, pos + 1, w, n);
    }
  }

  lemma {:induction false} ScalarReadsBack(data: Blob, pos: nat, v: Value)
    requires (v.Int? || v.Bool? || v.Null?) && Encodable(v) && Holds(data, pos, Encode(v))
    ensures Item(data, pos) == Ok(v, pos + |Encode(v)|)
  {
    if v.Int? {
      HeadReadsBack(data, pos, if v.n >= 0 then 0 else 1, if v.n >= 0 then v.n else -1 - v.n);
    } else {
      assert data[pos] == data[pos..pos + 1][0];
    }
  }

  lemma {:induction false} BytesFollowHead(data: Blob, pos: nat, at: nat, b: Blob)
    requires pos <= |data| && at <= |data|
    requires HeadAt(data, pos) == Ok(Head(2, |b|), at) && Holds(data, at, b)
    ensures Item(data, pos) == Ok(ByteString(b), at + |b|)
  {
  }

  lemma {:induction false} TextFollowsHead(data: Blob, pos: nat, at: nat, b: Blob)
    requires pos <= |data| && at <= |data| && ValidUtf8(b)
    requires HeadAt(data, pos) == Ok(Head(3, |b|), at) && Holds(data, at, b)
    ensures Item(data, pos) == Ok(Text(b), at + |b|)
  {
  }

  lemma {:induction false} BytesReadBack(data: Blob, pos: nat, b: Blob)
    requires Encodable(ByteString(b)) && Holds(data, pos, Encode(ByteString(b)))
    ensures Item(data, pos) == Ok(ByteString(b), pos + |Encode(ByteString(b))|)
  {
    HoldsInTwo(data, pos, HeadBytes(2, |b|), b);
    HeadReadsBack(data, pos, 2, |b|);
    BytesFollowHead(data, pos, pos + |HeadBytes(2, |b|)|, b);
  }

  lemma {:induction false} TextReadsBack(data: Blob, pos: nat, b: Blob)
    requires Encodable(Text(b)) && Holds(data, pos, Encode(Text(b)))
    ensures Item(data, pos) == Ok(Text(b), pos + |Encode(Text(b))|)
  {
    HoldsInTwo(data, pos, HeadBytes(3, |b|), b);
    HeadReadsBack(data, pos, 3, |b|);
    TextFollowsHead(data, pos, pos + |HeadBytes(3, |b|)|, b);
  }

  // A container whose head and contents stand one after the other.
  lemma {:induction false} ListFollowsHead(data: Blob, pos: nat, at: nat, vs: seq<Value>, next: nat)
    requires pos <= |data| && at <= |data|
    requires HeadAt(data, pos) == Ok(Head(4, |vs|), at) && Items(data, at, |vs|, []) == Ok(vs, next)
    ensures Item(data, pos) == Ok(List(vs), next)
  {
  }

  lemma {:induction false} DictFollowsHead(data: Blob, pos: nat, at: nat, es: seq<Entry>, next: nat)
    requires pos <= |data| && at <= |data|
    requires HeadAt(data, pos) == Ok(Head(5, |es|), at) && Pairs(data, at, |es|, []) == Ok(es, next)
    ensures Item(data, pos) == Ok(Dict(es), next)
  {
  }

  /** Reading the encoding of a value, whatever stands around it, gives the value and stops right after. */
  lemma {:induction false} ItemReadsBack(data: Blob, pos: nat, v: Value)
    requires Encodable(v) && Holds(data, pos, Encode(v))
    ensures Item(data, pos) == Ok(v, pos + |Encode(v)|)
    decreases v, 1
  {
    match v
    case List(_) => ListReadsBack(data, pos, v);
    case Dict(_) => DictReadsBack(data, pos, v);
    case ByteString(b) => BytesReadBack(data, pos, b);
    case Text(b) => TextReadsBack(data, pos, b);
    case _ => ScalarReadsBack(data, pos, v);
  }

  lemma {:induction false} ListReadsBack(data: Blob, pos: nat, v: Value)
    requires v.List? && Encodable(v) && Holds(data, pos, Encode(v))
    ensures Item(data, pos) == Ok(v, pos + |Encode(v)|)
    decreases v, 0
  {
    var head := HeadBytes(4, |v.items|);
    HoldsInTwo(data, pos, head, EncodeAll(v.items));
    HeadReadsBack(data, pos, 4, |v.items|);
    ItemsReadBack(data, pos + |head|, v.items, []);
    assert [] + v.items == v.items;
    ListFollowsHead(data, pos, pos + |head|, v.items, pos + |Encode(v)|);
  }

  lemma {:induction false} DictReadsBack(data: Blob, pos: nat, v: Value)
    requires v.Dict? && Encodable(v) && Holds(data, pos, Encode(v))
    ensures Item(data, pos) == Ok(v, pos + |Encode(v)|)
    decreases v, 0
  {
    var head := HeadBytes(5, |v.entries|);
    HoldsInTwo(data, pos, head, EncodeEntries(v.entries));
    HeadReadsBack(data, pos, 5, |v.entries|);
    PairsReadBack(data, pos + |head|, v.entries, []);
    assert [] + v.entries == v.entries;
    DictFollowsHead(data, pos, pos + |head|, v.entries, pos + |Encode(v)|);
  }

  lemma {:induction false} FirstJoinsDone<T>(done: seq<T>, more: seq<T>)
    requires more != []
    ensures done + [more[0]] + more[1..] == done + more
  {
  }

  lemma {:induction false} ItemsReadBack(data: Blob, pos: nat, vs: seq<Value>, done: seq<Value>)
    requires AllEncodable(vs) && Holds(data, pos, EncodeAll(vs))
    ensures Items(data, pos, |vs|, done) == Ok(done + vs, pos + |EncodeAll(vs)|)
    decreases vs
  {
    if vs == [] {
      assert done + vs == done;
    } else {
      var next := pos + |Encode(vs[0])|;
      HoldsInTwo(data, pos, Encode(vs[0]), EncodeAll(vs[1..]));
      ItemReadsBack(data, pos, vs[0]);
      OneMoreItem(data, pos, |vs|, done, vs[0], next);
      ItemsReadBack(data, next, vs[1..], done + [vs[0]]);
      FirstJoinsDone(done, vs);
    }
  }

  lemma {:induction false} InsertNew(es: seq<Entry>, key: Value, val: Value)
    requires AsKey(key) !in Keys(es)
    ensures Insert(es, key, val) == es + [Entry(key, val)]
  {
    if es == [] {
    } else {
      InsertNew(es[1..], key, val);
    }
  }

  lemma {:induction false} PairsReadBack(data: Blob, pos: nat, es: seq<Entry>, done: seq<Entry>)
    requires EntriesEncodable(es) && DistinctKeys(es) && Keys(done) !! Keys(es) && Holds(data, pos, EncodeEntries(es))
    ensures Pairs(data, pos, |es|, done) == Ok(done + es, pos + |EncodeEntries(es)|)
    decreases es
  {
    if es == [] {
      assert done + es == done;
    } else {
      var e, next := es[0], pos + |EncodeEntry(es[0])|;
      HoldsInTwo(data, pos, EncodeEntry(e), EncodeEntries(es[1..]));
      EntryReadsBack(data, pos, e);
      OneMorePair(data, pos, |es|, done, e, next);
      InsertNew(done, e.key, e.val);
      InsertKeys(done, e.key, e.val);
      PairsReadBack(data, next, es[1..], done + [e]);
      FirstJoinsDone(done, es);
    }
  }

  lemma {:induction false} PairIsTwoItems(data: Blob, pos: nat, mid: nat, next: nat, e: Entry)
    requires pos <= |data| && mid <= |data| && Hashable(e.key)
    requires Item(data, pos) == Ok(e.key, mid) && Item(data, mid) == Ok(e.val, next)
    ensures Pair(data, pos) == Ok(e, next)
  {
  }

  lemma {:induction false} EntryReadsBack(data: Blob, pos: nat, e: Entry)
    requires EntryEncodable(e) && Holds(data, pos, EncodeEntry(e))
    ensures Pair(data, pos) == Ok(e, pos + |EncodeEntry(e)|)
    decreases e
  {
    var mid := pos + |Encode(e.key)|;
    HoldsInTwo(data, pos, Encode(e.key), Encode(e.val));
    ItemReadsBack(data, pos, e.key);
    ItemReadsBack(data, mid, e.val);
    PairIsTwoItems(data, pos, mid, pos + |EncodeEntry(e)|, e);
  }

  /** Decoding undoes encoding, for any suffix left to read. */
  lemma {:induction false} EncodingLoads(v: Value, more: Blob)
    requires Encodable(v)
    ensures Item(Encode(v) + more, 0) == Ok(v, |Encode(v)|)
    ensures Loads(Encode(v)) == Ok(v, |Encode(v)|)
  {
    assert Holds(Encode(v) + more, 0, Encode(v)) && Holds(Encode(v), 0, Encode(v));
    ItemReadsBack(Encode(v) + more, 0, v);
    ItemReadsBack(Encode(v), 0, v);
  }

  // ----- the encoding of what was read is no longer -----

  lemma {:induction false} HeadIsShortest(data: Blob, pos: nat)
    requires pos <= |data| && HeadAt(data, pos).Ok?
    ensures var h := HeadAt(data, pos);
            h.value.major < 8 && h.value.val < 0x1_0000_0000_0000_0000 && 1 + ArgWidth(h.value.val) <= h.next - pos
  {
    PowersOf256();
  }

  lemma {:induction false} AppendEncodes(vs: seq<Value>, v: Value)
    ensures |EncodeAll(vs + [v])| == |EncodeAll(vs)| + |Encode(v)|
    ensures AllEncodable(vs) && Encodable(v) ==> AllEncodable(vs + [v])
  {
    if vs == [] {
      assert vs + [v] == [v];
      assert EncodeAll([v]) == Encode(v) + EncodeAll([]);
    } else {
      AppendEncodes(vs[1..], v);
      assert (vs + [v])[1..] == vs[1..] + [v];
    }
  }

  /** A value that was read can be encoded, in at most the bytes it was read from. */
  lemma {:induction false} ItemEncodesNoLonger(data: Blob, pos: nat)
    requires pos <= |data| && Item(data, pos).Ok?
    ensures Encodable(Item(data, pos).value) && |Encode(Item(data, pos).value)| <= Item(data, pos).next - pos
    decreases |data| - pos, 0
  {
    HeadIsShortest(data, pos);
    var h := HeadAt(data, pos);
    var val, at := h.value.val, h.next;
    match h.value.major
    case 4 => ItemsEncodeNoLonger(data, at, val, []);
    case 5 => PairsEncodeNoLonger(data, at, val, []);
    case _ =>
  }

  lemma {:induction false} ItemsEncodeNoLonger(data: Blob, pos: nat, count: nat, done: seq<Value>)
    requires pos <= |data| && Items(data, pos, count, done).Ok? && AllEncodable(done)
    ensures var r := Items(data, pos, count, done);
            && AllEncodable(r.value) && |r.value| == |done| + count
            && |EncodeAll(r.value)| <= |EncodeAll(done)| + (r.next - pos)
    decreases |data| - pos, 1
  {
    if count > 0 {
      ItemEncodesNoLonger(data, pos);
      var r := Item(data, pos);
      AppendEncodes(done, r.value);
      ItemsEncodeNoLonger(data, r.next, count - 1, done + [r.value]);
    }
  }

  lemma {:induction false} PairEncodesNoLonger(data: Blob, pos: nat)
    requires pos <= |data| && Pair(data, pos).Ok?
    ensures var e := Pair(data, pos).value; EntryEncodable(e) && |EncodeEntry(e)| <= Pair(data, pos).next - pos
    decreases |data| - pos, 1
  {
    ItemEncodesNoLonger(data, pos);
    ItemEncodesNoLonger(data, Item(data, pos).next);
  }

  lemma {:induction false} PairsEncodeNoLonger(data: Blob, pos: nat, count: nat, done: seq<Entry>)
    requires pos <= |data| && Pairs(data, pos, count, done).Ok? && EntriesEncodable(done) && DistinctKeys(done)
    ensures var r := Pairs(data, pos, count, done);
            && EntriesEncodable(r.value) && DistinctKeys(r.value) && |r.value| <= |done| + count
            && |EncodeEntries(r.value)| <= |EncodeEntries(done)| + (r.next - pos)
    decreases |data| - pos, 2
  {
    if count > 0 {
      PairEncodesNoLonger(data, pos);
      var r := Pair(data, pos);
      InsertKeys(done, r.value.key, r.value.val);
      InsertEncodes(done, r.value.key, r.value.val);
      PairsEncodeNoLonger(data, r.next, count - 1, Insert(done, r.value.key, r.value.val));
    }
  }

  /** What loads has a shortest form that loads to the same value, and no more nodes than input bytes. */
  lemma {:induction false} LoadedHasShortestForm(data: Blob)
    requires Loads(data).Ok?
    ensures var v := Loads(data).value;
            && Encodable(v) && |Encode(v)| <= |data| && Loads(Encode(v)) == Ok(v, |Encode(v)|)
            && Nodes(v) <= |data|
  {
    ItemEncodesNoLonger(data, 0);
    EncodingLoads(Loads(data).value, []);
    NodesFitEncoding(Loads(data).value);
  }
}
