/**
  The values the CBOR reader can produce, their shortest-form encoding (RFC 8949
  section 4.1 on argument lengths), and Python's rules for dictionary keys.
 */
module CborValues {
  import opened Options
  import opened Bytes

  datatype Value =
    | Int(n: int)
    | ByteString(b: Blob)
    | Text(utf8: Blob)  // kept as the UTF-8 bytes, which determine it
    | List(items: seq<Value>)
    | Dict(entries: seq<Entry>)  // in insertion order
    | Bool(yes: bool)
    | Null

  datatype Entry = Entry(key: Value, val: Value)

  // ----- UTF-8, RFC 3629 section 4 -----

  predicate Continues(b: Blob, from: nat, to: nat)
  {
    to <= |b| && forall i | from <= i < to :: 0x80 <= b[i] <= 0xBF
  }

  // The length of the well-formed sequence at the front, 0 if there is none.
  function Utf8Step(b: Blob): (n: nat)
    ensures n <= |b|
  {
    if b == [] then 0
    else if b[0] <= 0x7F then 1
    else if 0xC2 <= b[0] <= 0xDF && Continues(b, 1, 2) then 2
    else if 0xE0 <= b[0] <= 0xEF && Continues(b, 1, 3)
            && (b[0] == 0xE0 ==> b[1] >= 0xA0) && (b[0] == 0xED ==> b[1] <= 0x9F) then 3
    else if 0xF0 <= b[0] <= 0xF4 && Continues(b, 1, 4)
            && (b[0] == 0xF0 ==> b[1] >= 0x90) && (b[0] == 0xF4 ==> b[1] <= 0x8F) then 4
    else 0
  }

  predicate ValidUtf8(b: Blob)
  {
    b == [] || (Utf8Step(b) > 0 && ValidUtf8(b[Utf8Step(b)..]))
  }

  // ----- dictionary keys -----

  predicate Hashable(v: Value)
  {
    !v.List? && !v.Dict?
  }

  // True equals 1 and False equals 0, as keys too.
  function AsKey(v: Value): Value
  {
    if v.Bool? then Int(if v.yes then 1 else 0) else v
  }

  /** Two keys are one to a dictionary exactly if they are the same value, or True and 1, or False and 0. */
  lemma {:induction false} SameKeyExactly(k: Value, k': Value)
    ensures AsKey(k) == AsKey(k') <==>
            || k == k'
            || (k == Bool(true) && k' == Int(1)) || (k == Int(1) && k' == Bool(true))
            || (k == Bool(false) && k' == Int(0)) || (k == Int(0) && k' == Bool(false))
  {
  }

  ghost function Keys(es: seq<Entry>): set<Value>
  {
    if es == [] then {} else {AsKey(es[0].key)} + Keys(es[1..])
  }

  // d[key] = val: an equal key keeps its place and its first spelling.
  function Insert(es: seq<Entry>, key: Value, val: Value): seq<Entry>
  {
    if es == [] then [Entry(key, val)]
    else if AsKey(es[0].key) == AsKey(key) then [Entry(es[0].key, val)] + es[1..]
    else [es[0]] + Insert(es[1..], key, val)
  }

  ghost predicate DistinctKeys(es: seq<Entry>)
  {
    es == [] || (AsKey(es[0].key) !in Keys(es[1..]) && DistinctKeys(es[1..]))
  }

  // ----- what can be encoded -----

  ghost predicate Encodable(v: Value)
  {
    match v
    case Int(n) => -0x1_0000_0000_0000_0000 <= n < 0x1_0000_0000_0000_0000
    case ByteString(b) => |b| < 0x1_0000_0000_0000_0000
    case Text(b) => |b| < 0x1_0000_0000_0000_0000 && ValidUtf8(b)
    case List(items) => |items| < 0x1_0000_0000_0000_0000 && AllEncodable(items)
    case Dict(entries) => |entries| < 0x1_0000_0000_0000_0000 && DistinctKeys(entries) && EntriesEncodable(entries)
    case Bool(_) => true
    case Null => true
  }

  ghost predicate AllEncodable(vs: seq<Value>)
  {
    vs == [] || (Encodable(vs[0]) && AllEncodable(vs[1..]))
  }

  ghost predicate EntryEncodable(e: Entry)
  {
    Hashable(e.key) && Encodable(e.key) && Encodable(e.val)
  }

  ghost predicate EntriesEncodable(es: seq<Entry>)
  {
    es == [] || (EntryEncodable(es[0]) && EntriesEncodable(es[1..]))
  }

  // ----- the shortest-form encoding -----

  // How many bytes the argument takes after the initial byte.
  function ArgWidth(n: nat): nat
  {
    if n < 24 then 0 else if n < 0x100 then 1 else if n < 0x1_0000 then 2 else if n < 0x1_0000_0000 then 4 else 8
  }

  function HeadBytes(major: nat, n: nat): (bs: Blob)
    requires major < 8
    ensures |bs| == 1 + ArgWidth(n)
  {
    match ArgWidth(n)
    case 0 => [major * 32 + n]
    case 1 => [major * 32 + 24] + ToBigEndian(n, 1)
    case 2 => [major * 32 + 25] + ToBigEndian(n, 2)
    case 4 => [major * 32 + 26] + ToBigEndian(n, 4)
    case 8 => [major * 32 + 27] + ToBigEndian(n, 8)
  }

  function Encode(v: Value): Blob
  {
    match v
    case Int(n) => if n >= 0 then HeadBytes(0, n) else HeadBytes(1, -1 - n)
    case ByteString(b) => HeadBytes(2, |b|) + b
    case Text(b) => HeadBytes(3, |b|) + b
    case List(items) => HeadBytes(4, |items|) + EncodeAll(items)
    case Dict(entries) => HeadBytes(5, |entries|) + EncodeEntries(entries)
    case Bool(yes) => [if yes then 0xF5 else 0xF4]
    case Null => [0xF6]
  }

  function EncodeAll(vs: seq<Value>): Blob
  {
    if vs == [] then [] else Encode(vs[0]) + EncodeAll(vs[1..])
  }

  function EncodeEntry(e: Entry): Blob
  {
    Encode(e.key) + Encode(e.val)
  }

  function EncodeEntries(es: seq<Entry>): Blob
  {
    if es == [] then [] else EncodeEntry(es[0]) + EncodeEntries(es[1..])
  }

  // ----- size -----

  // The nodes of a value, each key, element and container counted.
  function Nodes(v: Value): nat
  {
    match v
    case List(items) => 1 + NodesOfAll(items)
    case Dict(entries) => 1 + NodesOfEntries(entries)
    case _ => 1
  }

  function NodesOfAll(vs: seq<Value>): nat
  {
    if vs == [] then 0 else Nodes(vs[0]) + NodesOfAll(vs[1..])
  }

  function NodesOfEntry(e: Entry): nat
  {
    Nodes(e.key) + Nodes(e.val)
  }

  function NodesOfEntries(es: seq<Entry>): nat
  {
    if es == [] then 0 else NodesOfEntry(es[0]) + NodesOfEntries(es[1..])
  }

  /** Every node costs at least one encoded byte. */
  lemma {:induction false} NodesFitEncoding(v: Value)
    ensures Nodes(v) <= |Encode(v)|
  {
    match v
    case List(items) => NodesFitAll(items);
    case Dict(entries) => NodesFitEntries(entries);
    case _ =>
  }

  lemma {:induction false} NodesFitAll(vs: seq<Value>)
    ensures NodesOfAll(vs) <= |EncodeAll(vs)|
  {
    if vs == [] {
    } else {
      NodesFitEncoding(vs[0]);
      NodesFitAll(vs[1..]);
    }
  }

  lemma {:induction false} NodesFitEntries(es: seq<Entry>)
    ensures NodesOfEntries(es) <= |EncodeEntries(es)|
  {
    if es == [] {
    } else {
      NodesFitEntry(es[0]);
      NodesFitEntries(es[1..]);
    }
  }

  lemma {:induction false} NodesFitEntry(e: Entry)
    ensures NodesOfEntry(e) <= |EncodeEntry(e)|
  {
    NodesFitEncoding(e.key);
    NodesFitEncoding(e.val);
  }

  // ----- insertion keeps dictionaries encodable and no longer than their parts -----

  lemma {:induction false} InsertKeys(es: seq<Entry>, key: Value, val: Value)
    ensures |Insert(es, key, val)| <= |es| + 1
    ensures Keys(Insert(es, key, val)) == Keys(es) + {AsKey(key)}
    ensures DistinctKeys(es) ==> DistinctKeys(Insert(es, key, val))
  {
    if es != [] && AsKey(es[0].key) != AsKey(key) {
      InsertKeys(es[1..], key, val);
    }
  }

  lemma {:induction false} InsertEncodes(es: seq<Entry>, key: Value, val: Value)
    requires EntriesEncodable(es) && Hashable(key) && Encodable(key) && Encodable(val)
    ensures EntriesEncodable(Insert(es, key, val))
    ensures |EncodeEntries(Insert(es, key, val))| <= |EncodeEntries(es)| + |Encode(key)| + |Encode(val)|
  {
    if es != [] && AsKey(es[0].key) != AsKey(key) {
      InsertEncodes(es[1..], key, val);
    }
  }

  /** A new key goes to the end; an equal one keeps its place and its first spelling. */
  lemma {:induction false} InsertKeepsPlaces(es: seq<Entry>, key: Value, val: Value)
    ensures AsKey(key) !in Keys(es) ==> Insert(es, key, val) == es + [Entry(key, val)]
    ensures AsKey(key) in Keys(es) ==> |Insert(es, key, val)| == |es|
    ensures forall i | 0 <= i < |es| :: i < |Insert(es, key, val)| && Insert(es, key, val)[i].key == es[i].key
  {
    if es != [] && AsKey(es[0].key) != AsKey(key) {
      InsertKeepsPlaces(es[1..], key, val);
    }
  }

  function Lookup(es: seq<Entry>, key: Value): Option<Value>
  {
    if es == [] then None else if AsKey(es[0].key) == AsKey(key) then Some(es[0].val) else Lookup(es[1..], key)
  }

  /** After an insertion the key has the new value and every other key its old one. */
  lemma {:induction false} InsertThenLookup(es: seq<Entry>, key: Value, val: Value, other: Value)
    ensures Lookup(Insert(es, key, val), other) == if AsKey(other) == AsKey(key) then Some(val) else Lookup(es, other)
  {
    if es == [] {
    } else {
      InsertThenLookup(es[1..], key, val, other);
    }
  }
}
