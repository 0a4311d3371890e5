/**
  Which inputs the CBOR reader accepts, and as what: a grammar of items in the
  reader's subset (RFC 8949 section 3), arguments in any of the five widths and
  not only the shortest. The reader accepts exactly the serialised items.
 */
module CborGrammar {
  import opened Bytes
  import opened CborValues
  import opened CborReader
  import opened CborRoundTrip

  // ----- the grammar -----

  // An argument in the initial byte (width 0) or in that many bytes after it.
  datatype Arg = Arg(width: nat, n: nat)

  predicate ValidArg(a: Arg)
  {
    if a.width == 0 then a.n < 24 else a.width in {1, 2, 4, 8} && a.n < Pow256(a.width)
  }

  datatype Wire =
    | Unsigned(arg: Arg)
    | Negative(arg: Arg)
    | RawBytes(arg: Arg, raw: Blob)
    | RawText(arg: Arg, raw: Blob)
    | Array(arg: Arg, items: seq<Wire>)
    | Table(arg: Arg, pairs: seq<WirePair>)
    | Simple(arg: Arg)

  datatype WirePair = WirePair(key: Wire, val: Wire)

  predicate ValidWire(w: Wire)
  {
    && ValidArg(w.arg)
    && match w
       case Unsigned(_) => true
       case Negative(_) => true
       case RawBytes(a, raw) => a.n == |raw|
       case RawText(a, raw) => a.n == |raw| && ValidUtf8(raw)
       case Array(a, items) => a.n == |items| && AllValid(items)
       case Table(a, pairs) => a.n == |pairs| && AllPairsValid(pairs)
       case Simple(a) => a.n == 20 || a.n == 21 || a.n == 22
  }

  predicate AllValid(ws: seq<Wire>)
  {
    ws == [] || (ValidWire(ws[0]) && AllValid(ws[1..]))
  }

  // Containers cannot be dictionary keys.
  predicate ValidPair(p: WirePair)
  {
    ValidWire(p.key) && ValidWire(p.val) && !p.key.Array? && !p.key.Table?
  }

  predicate AllPairsValid(ps: seq<WirePair>)
  {
    ps == [] || (ValidPair(ps[0]) && AllPairsValid(ps[1..]))
  }

  // ----- what an item means -----

  function Meaning(w: Wire): Value
  {
    match w
    case Unsigned(a) => Int(a.n)
    case Negative(a) => Int(-1 - a.n)
    case RawBytes(_, raw) => ByteString(raw)
    case RawText(_, raw) => Text(raw)
    case Array(_, items) => List(Meanings(items))
    case Table(_, pairs) => Dict(Assigned([], pairs))
    case Simple(a) => if a.n == 20 then Bool(false) else if a.n == 21 then Bool(true) else Null
  }

  function Meanings(ws: seq<Wire>): seq<Value>
  {
    if ws == [] then [] else [Meaning(ws[0])] + Meanings(ws[1..])
  }

  function PairMeaning(p: WirePair): Entry
  {
    Entry(Meaning(p.key), Meaning(p.val))
  }

  // Python's dictionary assignments, one pair after the other.
  function Assigned(done: seq<Entry>, ps: seq<WirePair>): seq<Entry>
    decreases ps
  {
    if ps == [] then done
    else var e := PairMeaning(ps[0]); Assigned(Insert(done, e.key, e.val), ps[1..])
  }

  // ----- how an item is written -----

  function ArgBytes(major: nat, a: Arg): (bs: Blob)
    requires major < 8 && ValidArg(a)
    ensures |bs| == 1 + a.width
  {
    if a.width == 0 then [major * 32 + a.n]
    else
      var info := if a.width == 1 then 24 else if a.width == 2 then 25 else if a.width == 4 then 26 else 27;
      [major * 32 + info] + ToBigEndian(a.n, a.width)
  }

  function WireBytes(w: Wire): Blob
    requires ValidWire(w)
  {
    match w
    case Unsigned(a) => ArgBytes(0, a)
    case Negative(a) => ArgBytes(1, a)
    case RawBytes(a, raw) => ArgBytes(2, a) + raw
    case RawText(a, raw) => ArgBytes(3, a) + raw
    case Array(a, items) => ArgBytes(4, a) + AllBytes(items)
    case Table(a, pairs) => ArgBytes(5, a) + AllPairBytes(pairs)
    case Simple(a) => ArgBytes(7, a)
  }

  function AllBytes(ws: seq<Wire>): Blob
    requires AllValid(ws)
  {
    if ws == [] then [] else WireBytes(ws[0]) + AllBytes(ws[1..])
  }

  function PairBytes(p: WirePair): Blob
    requires ValidPair(p)
  {
    WireBytes(p.key) + WireBytes(p.val)
  }

  function AllPairBytes(ps: seq<WirePair>): Blob
    requires AllPairsValid(ps)
  {
    if ps == [] then [] else PairBytes(ps[0]) + AllPairBytes(ps[1..])
  }

  // ----- every serialised item is read -----

  lemma {:induction false} ArgIsRead(data: Blob, pos: nat, major: nat, a: Arg)
    requires major < 8 && ValidArg(a) && Holds(data, pos, ArgBytes(major, a))
    ensures HeadAt(data, pos) == Ok(Head(major, a.n), pos + 1 + a.width)
  {
    var first := ArgBytes(major, a)[0];
    assert data[pos] == data[pos..pos + 1 + a.width][0] == first;
    assert first / 32 == major;
    if a.width > 0 {
      HoldsInTwo(data, pos, [first], ToBigEndian(a.n, a.width));
      NumberReadsBack(data, pos + 1, a.width, a.n);
    }
  }

  lemma {:induction false} JoinDone(done: seq<Value>, v: Value, more: seq<Value>)
    ensures done + [v] + more == done + ([v] + more)
  {
  }

  lemma {:induction false} KeysAreHashable(w: Wire)
    ensures Hashable(Meaning(w)) <==> !w.Array? && !w.Table?
  {
  }

  lemma {:induction false} ScalarIsRead(data: Blob, pos: nat, w: Wire)
    requires (w.Unsigned? || w.Negative? || w.Simple?) && ValidWire(w) && Holds(data, pos, WireBytes(w))
    ensures Item(data, pos) == Ok(Meaning(w), pos + |WireBytes(w)|)
  {
    ArgIsRead(data, pos, if w.Unsigned? then 0 else if w.Negative? then 1 else 7, w.arg);
  }

  lemma {:induction false} RawIsRead(data: Blob, pos: nat, w: Wire)
    requires (w.RawBytes? || w.RawText?) && ValidWire(w) && Holds(data, pos, WireBytes(w))
    ensures Item(data, pos) == Ok(Meaning(w), pos + |WireBytes(w)|)
  {
    var major, at := if w.RawBytes? then 2 else 3, pos + 1 + w.arg.width;
    HoldsInTwo(data, pos, ArgBytes(major, w.arg), w.raw);
    ArgIsRead(data, pos, major, w.arg);
    if w.RawBytes? {
      BytesFollowHead(data, pos, at, w.raw);
    } else {
      TextFollowsHead(data, pos, at, w.raw);
    }
  }

  lemma {:induction false} WireIsRead(data: Blob, pos: nat, w: Wire)
    requires ValidWire(w) && Holds(data, pos, WireBytes(w))
    ensures Item(data, pos) == Ok(Meaning(w), pos + |WireBytes(w)|)
    decreases w, 1
  {
    match w
    case RawBytes(_, _) => RawIsRead(data, pos, w);
    case RawText(_, _) => RawIsRead(data, pos, w);
    case Array(_, _) => ArrayIsRead(data, pos, w);
    case Table(_, _) => TableIsRead(data, pos, w);
    case _ => ScalarIsRead(data, pos, w);
  }

  lemma {:induction false} ArrayIsRead(data: Blob, pos: nat, w: Wire)
    requires w.Array? && ValidWire(w) && Holds(data, pos, WireBytes(w))
    ensures Item(data, pos) == Ok(Meaning(w), pos + |WireBytes(w)|)
    decreases w, 0
  {
    HoldsInTwo(data, pos, ArgBytes(4, w.arg), AllBytes(w.items));
    ArgIsRead(data, pos, 4, w.arg);
    WiresAreRead(data, pos + 1 + w.arg.width, w.items, []);
    assert [] + Meanings(w.items) == Meanings(w.items);
  }

  lemma {:induction false} TableIsRead(data: Blob, pos: nat, w: Wire)
    requires w.Table? && ValidWire(w) && Holds(data, pos, WireBytes(w))
    ensures Item(data, pos) == Ok(Meaning(w), pos + |WireBytes(w)|)
    decreases w, 0
  {
    HoldsInTwo(data, pos, ArgBytes(5, w.arg), AllPairBytes(w.pairs));
    ArgIsRead(data, pos, 5, w.arg);
    PairsAreRead(data, pos + 1 + w.arg.width, w.pairs, []);
  }

  lemma {:induction false} FirstThenRest(data: Blob, pos: nat, ws: seq<Wire>, done: seq<Value>, v: Value, next: nat,
                                         end: nat)
    requires ws != [] && v == Meaning(ws[0]) && pos <= |data| && next <= |data| && Item(data, pos) == Ok(v, next)
    requires Items(data, next, |ws| - 1, done + [v]) == Ok(done + [v] + Meanings(ws[1..]), end)
    ensures Items(data, pos, |ws|, done) == Ok(done + Meanings(ws), end)
  {
    OneMoreItem(data, pos, |ws|, done, v, next);
    JoinDone(done, v, Meanings(ws[1..]));
  }

  lemma {:induction false} FirstWireIsRead(data: Blob, pos: nat, ws: seq<Wire>)
    requires ws != [] && AllValid(ws) && Holds(data, pos, AllBytes(ws))
    ensures var next := pos + |WireBytes(ws[0])|;
            && Item(data, pos) == Ok(Meaning(ws[0]), next) && Holds(data, next, AllBytes(ws[1..]))
            && pos + |AllBytes(ws)| == next + |AllBytes(ws[1..])|
    decreases ws, 0
  {
    HoldsInTwo(data, pos, WireBytes(ws[0]), AllBytes(ws[1..]));
    WireIsRead(data, pos, ws[0]);
  }

  lemma {:induction false} WiresAreRead(data: Blob, pos: nat, ws: seq<Wire>, done: seq<Value>)
    requires AllValid(ws) && Holds(data, pos, AllBytes(ws))
    ensures Items(data, pos, |ws|, done) == Ok(done + Meanings(ws), pos + |AllBytes(ws)|)
    decreases ws, 1
  {
    if ws == [] {
      assert done + [] == done;
    } else {
      FirstWireIsRead(data, pos, ws);
      var r := Item(data, pos);
      WiresAreRead(data, r.next, ws[1..], done + [r.value]);
      FirstThenRest(data, pos, ws, done, r.value, r.next, pos + |AllBytes(ws)|);
    }
  }

  lemma {:induction false} PairsAreRead(data: Blob, pos: nat, ps: seq<WirePair>, done: seq<Entry>)
    requires AllPairsValid(ps) && Holds(data, pos, AllPairBytes(ps))
    ensures Pairs(data, pos, |ps|, done) == Ok(Assigned(done, ps), pos + |AllPairBytes(ps)|)
    decreases ps
  {
    if ps == [] {
    } else {
      var e, next := PairMeaning(ps[0]), pos + |PairBytes(ps[0])|;
      HoldsInTwo(data, pos, PairBytes(ps[0]), AllPairBytes(ps[1..]));
      PairIsRead(data, pos, ps[0]);
      OneMorePair(data, pos, |ps|, done, e, next);
      PairsAreRead(data, next, ps[1..], Insert(done, e.key, e.val));
    }
  }

  lemma {:induction false} PairIsRead(data: Blob, pos: nat, p: WirePair)
    requires ValidPair(p) && Holds(data, pos, PairBytes(p))
    ensures Pair(data, pos) == Ok(PairMeaning(p), pos + |PairBytes(p)|)
    decreases p
  {
    var mid := pos + |WireBytes(p.key)|;
    HoldsInTwo(data, pos, WireBytes(p.key), WireBytes(p.val));
    WireIsRead(data, pos, p.key);
    WireIsRead(data, mid, p.val);
    KeysAreHashable(p.key);
    PairIsTwoItems(data, pos, mid, pos + |PairBytes(p)|, PairMeaning(p));
  }

  // ----- whatever is read was serialised -----

  // The bytes read from pos to next.
  function Slice(data: Blob, pos: nat, next: nat): Blob
    requires pos <= next <= |data|
  {
    data[pos..next]
  }

  lemma {:induction false} SliceInTwo(data: Blob, pos: nat, mid: nat, next: nat)
    requires pos <= mid <= next <= |data|
    ensures Slice(data, pos, next) == Slice(data, pos, mid) + Slice(data, mid, next)
  {
  }

  lemma {:induction false} WideArgWasWritten(data: Blob, pos: nat, width: nat)
    requires pos + 1 + width <= |data| && width in {1, 2, 4, 8}
    requires data[pos] % 32 == if width == 1 then 24 else if width == 2 then 25 else if width == 4 then 26 else 27
    ensures var a := Arg(width, BigEndian(data[pos + 1..pos + 1 + width]));
            ValidArg(a) && Slice(data, pos, pos + 1 + width) == ArgBytes(data[pos] / 32, a)
  {
    EncodesBack(data[pos + 1..pos + 1 + width]);
    assert Slice(data, pos, pos + 1 + width) == [data[pos]] + data[pos + 1..pos + 1 + width];
    assert data[pos] == data[pos] / 32 * 32 + data[pos] % 32;
  }

  lemma {:induction false} ArgWasWritten(data: Blob, pos: nat) returns (a: Arg)
    requires pos <= |data| && HeadAt(data, pos).Ok?
    ensures var h := HeadAt(data, pos);
            && ValidArg(a) && a.n == h.value.val && h.value.major < 8 && h.next == pos + 1 + a.width
            && Slice(data, pos, h.next) == ArgBytes(h.value.major, a)
  {
    var h := HeadAt(data, pos);
    a := Arg(h.next - pos - 1, h.value.val);
    if a.width == 0 {
      assert Slice(data, pos, h.next) == [data[pos]];
      assert data[pos] == data[pos] / 32 * 32 + data[pos] % 32;
    } else {
      WideArgWasWritten(data, pos, a.width);
    }
  }

  lemma {:induction false} ItemWasWritten(data: Blob, pos: nat) returns (w: Wire)
    requires pos <= |data| && Item(data, pos).Ok?
    ensures ValidWire(w) && Meaning(w) == Item(data, pos).value
    ensures Slice(data, pos, Item(data, pos).next) == WireBytes(w)
    decreases |data| - pos, 0
  {
    var a := ArgWasWritten(data, pos);
    var h, next := HeadAt(data, pos), Item(data, pos).next;
    SliceInTwo(data, pos, h.next, next);
    match h.value.major
    case 0 => w := Unsigned(a);
    case 1 => w := Negative(a);
    case 2 => w := RawBytes(a, Slice(data, h.next, next));
    case 3 => w := RawText(a, Slice(data, h.next, next));
    case 4 =>
      var ws := ItemsWereWritten(data, h.next, a.n, []);
      assert [] + Meanings(ws) == Meanings(ws);
      w := Array(a, ws);
    case 5 =>
      var ps := PairsWereWritten(data, h.next, a.n, []);
      w := Table(a, ps);
    case _ => w := Simple(a);
  }

  lemma {:induction false} ItemsWereWritten(data: Blob, pos: nat, count: nat, done: seq<Value>) returns (ws: seq<Wire>)
    requires pos <= |data| && Items(data, pos, count, done).Ok?
    ensures AllValid(ws) && |ws| == count && done + Meanings(ws) == Items(data, pos, count, done).value
    ensures Slice(data, pos, Items(data, pos, count, done).next) == AllBytes(ws)
    decreases |data| - pos, 1
  {
    if count == 0 {
      ws := [];
      assert done + [] == done;
    } else {
      var first := ItemWasWritten(data, pos);
      var r := Item(data, pos);
      var rest := ItemsWereWritten(data, r.next, count - 1, done + [r.value]);
      ws := [first] + rest;
      assert ws[1..] == rest;
      SliceInTwo(data, pos, r.next, Items(data, pos, count, done).next);
      JoinDone(done, r.value, Meanings(rest));
    }
  }

  lemma {:induction false} PairWasWritten(data: Blob, pos: nat) returns (p: WirePair)
    requires pos <= |data| && Pair(data, pos).Ok?
    ensures ValidPair(p) && Pair(data, pos).value == PairMeaning(p)
    ensures Slice(data, pos, Pair(data, pos).next) == PairBytes(p)
    decreases |data| - pos, 1
  {
    var k := ItemWasWritten(data, pos);
    var mid := Item(data, pos).next;
    var v := ItemWasWritten(data, mid);
    SliceInTwo(data, pos, mid, Pair(data, pos).next);
    KeysAreHashable(k);
    p := WirePair(k, v);
  }

  lemma {:induction false} PairsWereWritten(data: Blob, pos: nat, count: nat, done: seq<Entry>)
    returns (ps: seq<WirePair>)
    requires pos <= |data| && Pairs(data, pos, count, done).Ok?
    ensures AllPairsValid(ps) && |ps| == count && Assigned(done, ps) == Pairs(data, pos, count, done).value
    ensures Slice(data, pos, Pairs(data, pos, count, done).next) == AllPairBytes(ps)
    decreases |data| - pos, 2
  {
    if count == 0 {
      ps := [];
    } else {
      var first := PairWasWritten(data, pos);
      var e := Pair(data, pos);
      var rest := PairsWereWritten(data, e.next, count - 1, Insert(done, e.value.key, e.value.val));
      ps := [first] + rest;
      assert ps[1..] == rest;
      SliceInTwo(data, pos, e.next, Pairs(data, pos, count, done).next);
    }
  }

  // ----- exactly -----

  ghost predicate Denotes(data: Blob, v: Value)
  {
    exists w :: ValidWire(w) && WireBytes(w) == data && Meaning(w) == v
  }

  /** An input loads as a value if and only if it is the serialisation of an item with that meaning. */
  lemma {:induction false} LoadsExactly(data: Blob, v: Value)
    ensures Loads(data) == Ok(v, |data|) <==> Denotes(data, v)
  {
    if Loads(data) == Ok(v, |data|) {
      var w := ItemWasWritten(data, 0);
      assert Slice(data, 0, |data|) == data;
    }
    if Denotes(data, v) {
      var w :| ValidWire(w) && WireBytes(w) == data && Meaning(w) == v;
      assert data[0..|data|] == data;
      WireIsRead(data, 0, w);
    }
  }

  /** Tags, other simple values and indefinite lengths never load: only seven kinds of item exist. */
  lemma {:induction false} NothingElseLoads(data: Blob)
    requires data != [] && Loads(data).Ok?
    ensures data[0] / 32 != 6 && data[0] % 32 <= 27
    ensures data[0] / 32 == 7 && data[0] % 32 < 24 ==> 0xF4 <= data[0] <= 0xF6
  {
    var w := ItemWasWritten(data, 0);
    assert Slice(data, 0, |data|) == data;
  }

  /** Unlike RFC 8949 section 3.3 has it, the width does not matter there: a half-precision float loads as False. */
  lemma {:induction false} HalfFloatLoadsAsFalse()
    ensures Loads([0xF9, 0x00, 0x14]) == Ok(Bool(false), 3)
  {
    var w := Simple(Arg(2, 20));
    PowersOf256();
    assert ToBigEndian(20, 2) == ToBigEndian(0, 1) + [20] && ToBigEndian(0, 1) == ToBigEndian(0, 0) + [0];
    assert WireBytes(w) == [0xF9, 0x00, 0x14];
    LoadsExactly([0xF9, 0x00, 0x14], Bool(false));
  }
}
