/**
  The CBOR reader: a cursor over immutable bytes, read recursively. The functions
  say what is read at a position; the class reads it by moving its cursor.
 */
module CborReader {
  import opened Bytes
  import opened CborValues

  datatype Error = Malformed | Indefinite | Unsupported | NotUtf8 | Unhashable | Trailing

  // A value and the position after it, or the exception raised.
  datatype Parsed<+T> = Ok(value: T, next: nat) | Err(error: Error)

  // ----- what is read where -----

  function Raw(data: Blob, pos: nat, n: nat): (r: Parsed<Blob>)
    requires pos <= |data|
    ensures r.Ok? ==> r.next == pos + n <= |data|
  {
    if pos + n > |data| then Err(Malformed) else Ok(data[pos..pos + n], pos + n)
  }

  function Number(data: Blob, pos: nat, width: nat): (r: Parsed<nat>)
    requires pos <= |data|
    ensures r.Ok? ==> r.next == pos + width <= |data| && r.value < Pow256(width)
  {
    var r := Raw(data, pos, width);
    if r.Err? then Err(r.error) else
      EncodesBack(r.value);
      Ok(BigEndian(r.value), r.next)
  }

  function Argument(data: Blob, pos: nat, addl: nat): (r: Parsed<nat>)
    requires pos <= |data|
    ensures r.Ok? ==> pos <= r.next <= |data|
  {
    if addl < 24 then Ok(addl, pos)
    else if addl == 24 then Number(data, pos, 1)
    else if addl == 25 then Number(data, pos, 2)
    else if addl == 26 then Number(data, pos, 4)
    else if addl == 27 then Number(data, pos, 8)
    else Err(Indefinite)
  }

  datatype Head = Head(major: nat, val: nat)

  function HeadAt(data: Blob, pos: nat): (r: Parsed<Head>)
    requires pos <= |data|
    ensures r.Ok? ==> pos < r.next <= |data|
  {
    if pos + 1 > |data| then Err(Malformed)
    else
      var r := Argument(data, pos + 1, data[pos] % 32);
      if r.Err? then Err(r.error) else Ok(Head(data[pos] / 32, r.value), r.next)
  }

  function Item(data: Blob, pos: nat): (r: Parsed<Value>)
    requires pos <= |data|
    ensures r.Ok? ==> pos < r.next <= |data|
    decreases |data| - pos, 0
  {
    var h := HeadAt(data, pos);
    if h.Err? then Err(h.error) else
    var val, at := h.value.val, h.next;
    match h.value.major
    case 0 => Ok(Int(val), at)
    case 1 => Ok(Int(-1 - val), at)
    case 2 =>
      var r := Raw(data, at, val);
      if r.Err? then Err(r.error) else Ok(ByteString(r.value), r.next)
    case 3 =>
      var r := Raw(data, at, val);
      if r.Err? then Err(r.error) else if !ValidUtf8(r.value) then Err(NotUtf8) else Ok(Text(r.value), r.next)
    case 4 =>
      var r := Items(data, at, val, []);
      if r.Err? then Err(r.error) else Ok(List(r.value), r.next)
    case 5 =>
      var r := Pairs(data, at, val, []);
      if r.Err? then Err(r.error) else Ok(Dict(r.value), r.next)
    case 7 =>
      if val == 20 then Ok(Bool(false), at)
      else if val == 21 then Ok(Bool(true), at)
      else if val == 22 then Ok(Null, at)
      else Err(Unsupported)
    case _ => Err(Unsupported)
  }

  // count more items, after those already read
  function Items(data: Blob, pos: nat, count: nat, done: seq<Value>): (r: Parsed<seq<Value>>)
    requires pos <= |data|
    ensures r.Ok? ==> pos <= r.next <= |data|
    decreases |data| - pos, 1
  {
    if count == 0 then Ok(done, pos) else
    var r := Item(data, pos);
    if r.Err? then Err(r.error) else Items(data, r.next, count - 1, done + [r.value])
  }

  // a key and its value; the key is hashed once the value is read
  function Pair(data: Blob, pos: nat): (r: Parsed<Entry>)
    requires pos <= |data|
    ensures r.Ok? ==> pos < r.next <= |data|
    decreases |data| - pos, 1
  {
    var k := Item(data, pos);
    if k.Err? then Err(k.error) else
    var v := Item(data, k.next);
    if v.Err? then Err(v.error)
    else if !Hashable(k.value) then Err(Unhashable)
    else Ok(Entry(k.value, v.value), v.next)
  }

  // count more pairs, inserted one by one
  function Pairs(data: Blob, pos: nat, count: nat, done: seq<Entry>): (r: Parsed<seq<Entry>>)
    requires pos <= |data|
    ensures r.Ok? ==> pos <= r.next <= |data|
    decreases |data| - pos, 2
  {
    if count == 0 then Ok(done, pos) else
    var e := Pair(data, pos);
    if e.Err? then Err(e.error) else Pairs(data, e.next, count - 1, Insert(done, e.value.key, e.value.val))
  }

  lemma {:induction false} OneMoreItem(data: Blob, pos: nat, count: nat, done: seq<Value>, v: Value, next: nat)
    requires pos <= |data| && count > 0 && Item(data, pos) == Ok(v, next)
    ensures Items(data, pos, count, done) == Items(data, next, count - 1, done + [v])
  {
  }

  lemma {:induction false} OneMorePair(data: Blob, pos: nat, count: nat, done: seq<Entry>, e: Entry, next: nat)
    requires pos <= |data| && count > 0 && Pair(data, pos) == Ok(e, next)
    ensures Pairs(data, pos, count, done) == Pairs(data, next, count - 1, Insert(done, e.key, e.val))
  {
  }

  /** _cbor_loads: one item and nothing after it. */
  function Loads(data: Blob): Parsed<Value>
  {
    var r := Item(data, 0);
    if r.Ok? && r.next != |data| then Err(Trailing) else r
  }

  // ----- the cursor -----

  class Cursor {
    const data: Blob
    var pos: nat
    ghost var calls: nat  // calls of ReadItem so far

    constructor (data: Blob)
      ensures this.data == data && pos == 0 && calls == 0
    {
      this.data := data;
      pos, calls := 0, 0;
    }

    // The outcome of reading at `from`, with the cursor moved past it on success.
    ghost predicate Reads<T>(r: Parsed<T>, expected: Parsed<T>)
      reads this
    {
      pos <= |data| && r == expected && (r.Ok? ==> pos == r.next)
    }

    method ReadRaw(n: nat) returns (r: Parsed<Blob>)
      requires pos <= |data|
      modifies this`pos
      ensures Reads(r, Raw(data, old(pos), n)) && pos >= old(pos)
    {
      if pos + n > |data| {
        return Err(Malformed);
      }
      r := Ok(data[pos..pos + n], pos + n);
      pos := pos + n;
    }

    method ReadArgument(addl: nat) returns (r: Parsed<nat>)
      requires pos <= |data|
      modifies this`pos
      ensures Reads(r, Argument(data, old(pos), addl)) && pos >= old(pos)
    {
      if addl < 24 {
        return Ok(addl, pos);
      }
      if addl > 27 {
        return Err(Indefinite);
      }
      var raw := ReadRaw(if addl == 24 then 1 else if addl == 25 then 2 else if addl == 26 then 4 else 8);
      if raw.Err? {
        return Err(raw.error);
      }
      r := Ok(BigEndian(raw.value), pos);
    }

    /**
      Reads one item. However large the declared counts, the calls made never
      exceed the bytes consumed, one failing call aside.
     */
    method ReadItem() returns (r: Parsed<Value>)
      requires pos <= |data|
      modifies this
      ensures Reads(r, Item(data, old(pos)))
      ensures pos >= old(pos) && calls - old(calls) <= pos - old(pos) + if r.Ok? then 0 else 1
      decreases |data| - pos, 0
    {
      calls := calls + 1;
      var initial := ReadRaw(1);
      if initial.Err? {
        return Err(initial.error);
      }
      var major, addl := initial.value[0] / 32, initial.value[0] % 32;
      var arg := ReadArgument(addl);
      if arg.Err? {
        return Err(arg.error);
      }
      var val := arg.value;
      if major == 0 {
        return Ok(Int(val), pos);
      }
      if major == 1 {
        return Ok(Int(-1 - (val as int)), pos);
      }
      if major == 2 || major == 3 {
        var raw := ReadRaw(val);
        if raw.Err? {
          return Err(raw.error);
        }
        if major == 3 && !ValidUtf8(raw.value) {
          return Err(NotUtf8);
        }
        return Ok(if major == 2 then ByteString(raw.value) else Text(raw.value), pos);
      }
      if major == 4 {
        var items := ReadItems(val);
        return if items.Err? then Err(items.error) else Ok(List(items.value), pos);
      }
      if major == 5 {
        var entries := ReadPairs(val);
        return if entries.Err? then Err(entries.error) else Ok(Dict(entries.value), pos);
      }
      if major == 7 {
        if val == 20 {
          return Ok(Bool(false), pos);
        }
        if val == 21 {
          return Ok(Bool(true), pos);
        }
        if val == 22 {
          return Ok(Null, pos);
        }
      }
      r := Err(Unsupported);
    }

    method ReadItems(count: nat) returns (r: Parsed<seq<Value>>)
      requires pos <= |data|
      modifies this
      ensures Reads(r, Items(data, old(pos), count, []))
      ensures pos >= old(pos) && calls - old(calls) <= pos - old(pos) + if r.Ok? then 0 else 1
      decreases |data| - pos, 1
    {
      var items: seq<Value> := [];
      var i := 0;
      while i < count
        invariant i <= count && old(pos) <= pos <= |data|
        invariant Items(data, old(pos), count, []) == Items(data, pos, count - i, items)
        invariant calls - old(calls) <= pos - old(pos)
      {
        var item := ReadItem();
        if item.Err? {
          return Err(item.error);
        }
        items := items + [item.value];
        i := i + 1;
      }
      r := Ok(items, pos);
    }

    method ReadPairs(count: nat) returns (r: Parsed<seq<Entry>>)
      requires pos <= |data|
      modifies this
      ensures Reads(r, Pairs(data, old(pos), count, []))
      ensures pos >= old(pos) && calls - old(calls) <= pos - old(pos) + if r.Ok? then 0 else 1
      decreases |data| - pos, 2
    {
      var entries: seq<Entry> := [];
      var i := 0;
      while i < count
        invariant i <= count && old(pos) <= pos <= |data|
        invariant Pairs(data, old(pos), count, []) == Pairs(data, pos, count - i, entries)
        invariant calls - old(calls) <= pos - old(pos)
      {
        var entry := ReadPair();
        if entry.Err? {
          return Err(entry.error);
        }
        entries := Insert(entries, entry.value.key, entry.value.val);
        i := i + 1;
      }
      r := Ok(entries, pos);
    }

    method ReadPair() returns (r: Parsed<Entry>)
      requires pos <= |data|
      modifies this
      ensures Reads(r, Pair(data, old(pos)))
      ensures pos >= old(pos) && calls - old(calls) <= pos - old(pos) + if r.Ok? then 0 else 1
      decreases |data| - pos, 1
    {
      var key := ReadItem();
      if key.Err? {
        return Err(key.error);
      }
      var val := ReadItem();
      if val.Err? {
        return Err(val.error);
      }
      r := if Hashable(key.value) then Ok(Entry(key.value, val.value), pos) else Err(Unhashable);
    }
  }

  method LoadCbor(data: Blob) returns (r: Parsed<Value>)
    ensures r == Loads(data)
  {
    var parser := new Cursor(data);
    r := parser.ReadItem();
    if r.Ok? && parser.pos != |data| {
      r := Err(Trailing);
    }
  }

  // ----- more bytes after an item do not change it -----

  lemma {:induction false} HeadIgnoresMore(data: Blob, more: Blob, pos: nat)
    requires pos <= |data| && HeadAt(data, pos).Ok?
    ensures HeadAt(data + more, pos) == HeadAt(data, pos)
  {
    var h := HeadAt(data, pos);
    assert (data + more)[pos + 1..h.next] == data[pos + 1..h.next];
  }

  lemma {:induction false} ItemIgnoresMore(data: Blob, more: Blob, pos: nat)
    requires pos <= |data| && Item(data, pos).Ok?
    ensures Item(data + more, pos) == Item(data, pos)
    decreases |data| - pos, 0
  {
    HeadIgnoresMore(data, more, pos);
    var h := HeadAt(data, pos);
    var val, at := h.value.val, h.next;
    match h.value.major
    case 2 => assert (data + more)[at..at + val] == data[at..at + val];
    case 3 => assert (data + more)[at..at + val] == data[at..at + val];
    case 4 => ItemsIgnoreMore(data, more, at, val, []);
    case 5 => PairsIgnoreMore(data, more, at, val, []);
    case _ =>
  }

  lemma {:induction false} ItemsIgnoreMore(data: Blob, more: Blob, pos: nat, count: nat, done: seq<Value>)
    requires pos <= |data| && Items(data, pos, count, done).Ok?
    ensures Items(data + more, pos, count, done) == Items(data, pos, count, done)
    decreases |data| - pos, 1
  {
    if count > 0 {
      ItemIgnoresMore(data, more, pos);
      var r := Item(data, pos);
      ItemsIgnoreMore(data, more, r.next, count - 1, done + [r.value]);
    }
  }

  lemma {:induction false} PairIgnoresMore(data: Blob, more: Blob, pos: nat)
    requires pos <= |data| && Pair(data, pos).Ok?
    ensures Pair(data + more, pos) == Pair(data, pos)
    decreases |data| - pos, 1
  {
    ItemIgnoresMore(data, more, pos);
    ItemIgnoresMore(data, more, Item(data, pos).next);
  }

  lemma {:induction false} PairsIgnoreMore(data: Blob, more: Blob, pos: nat, count: nat, done: seq<Entry>)
    requires pos <= |data| && Pairs(data, pos, count, done).Ok?
    ensures Pairs(data + more, pos, count, done) == Pairs(data, pos, count, done)
    decreases |data| - pos, 2
  {
    if count > 0 {
      PairIgnoresMore(data, more, pos);
      var e := Pair(data, pos);
      PairsIgnoreMore(data, more, e.next, count - 1, Insert(done, e.value.key, e.value.val));
    }
  }

  /** If an input loads, every proper extension of it is refused for trailing data. */
  lemma {:induction false} LoadsIsPrefixFree(data: Blob, more: Blob)
    requires Loads(data).Ok? && more != []
    ensures Loads(data + more) == Err(Trailing)
  {
    ItemIgnoresMore(data, more, 0);
  }
}
