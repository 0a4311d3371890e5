/**
  The content-addressed store of media snapshots: immutable blobs named by their
  digest, the source paths each digest may be served for, and eviction of the
  oldest blobs when the store outgrows its cap.
 */
module SnapshotStore {
  import opened Options
  import opened Bytes

  type Digest = nat  // fixed-width hexadecimal: names sort as numbers
  type Path = nat    // a resolved source path
  type Hash = Blob -> Digest

  datatype Snap = Snap(bytes: Blob, mtime: real)

  type Blobs = map<Digest, Snap>
  type Bindings = map<Digest, set<Path>>

  // ----- the order of eviction -----

  datatype Entry = Entry(mtime: real, size: nat, digest: Digest)

  function EntryOf(blobs: Blobs, d: Digest): Entry
    requires d in blobs
  {
    Entry(blobs[d].mtime, |blobs[d].bytes|, d)
  }

  // Python's order on (mtime, size, path)
  predicate Before(a: Entry, b: Entry)
  {
    || a.mtime < b.mtime
    || (a.mtime == b.mtime && a.size < b.size)
    || (a.mtime == b.mtime && a.size == b.size && a.digest < b.digest)
  }

  ghost predicate Sorted(es: seq<Entry>)
  {
    forall i, j | 0 <= i < j < |es| :: Before(es[i], es[j])
  }

  function Digests(es: seq<Entry>): set<Digest>
  {
    set i | 0 <= i < |es| :: es[i].digest
  }

  function Insert(es: seq<Entry>, e: Entry): seq<Entry>
  {
    if es == [] || Before(es[|es| - 1], e) then es + [e]
    else Insert(es[..|es| - 1], e) + [es[|es| - 1]]
  }

  function Sort(es: seq<Entry>): seq<Entry>
  {
    if es == [] then [] else Insert(Sort(es[..|es| - 1]), es[|es| - 1])
  }

  lemma {:induction false} InsertKeeps(es: seq<Entry>, e: Entry)
    ensures multiset(Insert(es, e)) == multiset(es) + multiset{e}
  {
    if !(es == [] || Before(es[|es| - 1], e)) {
      InsertKeeps(es[..|es| - 1], e);
      assert es == es[..|es| - 1] + [es[|es| - 1]];
    }
  }

  lemma {:induction false} InsertSorts(es: seq<Entry>, e: Entry)
    requires Sorted(es) && forall i | 0 <= i < |es| :: es[i].digest != e.digest
    ensures Sorted(Insert(es, e))
  {
    if !(es == [] || Before(es[|es| - 1], e)) {
      var init, last := es[..|es| - 1], es[|es| - 1];
      InsertSorts(init, e);
      InsertKeeps(init, e);
      forall x | x in Insert(init, e)
        ensures Before(x, last)
      {
        assert x in multiset(init) + multiset{e};
      }
    }
  }

  ghost predicate Distinct(es: seq<Entry>)
  {
    forall i, j | 0 <= i < j < |es| :: es[i].digest != es[j].digest
  }

  lemma {:induction false} SortSorts(es: seq<Entry>)
    requires Distinct(es)
    ensures Sorted(Sort(es)) && multiset(Sort(es)) == multiset(es)
  {
    if es == [] {
    } else {
      var init, last := es[..|es| - 1], es[|es| - 1];
      assert es == init + [last];
      SortSorts(init);
      forall i | 0 <= i < |Sort(init)|
        ensures Sort(init)[i].digest != last.digest
      {
        assert Sort(init)[i] in multiset(init);
        assert Sort(init)[i] in init;
      }
      InsertSorts(Sort(init), last);
      InsertKeeps(Sort(init), last);
    }
  }

  // ----- what eviction leaves -----

  ghost function Weight(blobs: Blobs, ds: set<Digest>): nat
    requires ds <= blobs.Keys
  {
    if ds == {} then 0 else var d :| d in ds; |blobs[d].bytes| + Weight(blobs, ds - {d})
  }

  lemma {:induction false} WeightOfOneLess(blobs: Blobs, ds: set<Digest>, d: Digest)
    requires d in ds && ds <= blobs.Keys
    ensures Weight(blobs, ds) == |blobs[d].bytes| + Weight(blobs, ds - {d})
    decreases |ds|
  {
    var c :| c in ds && Weight(blobs, ds) == |blobs[c].bytes| + Weight(blobs, ds - {c});
    if c != d {
      WeightOfOneLess(blobs, ds - {c}, d);
      WeightOfOneLess(blobs, ds - {d}, c);
      assert ds - {c} - {d} == ds - {d} - {c};
    }
  }

  lemma {:induction false} WeightGrows(blobs: Blobs, ds: set<Digest>, es: set<Digest>)
    requires ds <= es <= blobs.Keys
    ensures Weight(blobs, ds) <= Weight(blobs, es)
    decreases |es|
  {
    if !(es <= ds) {
      var d :| d in es && d !in ds;
      WeightOfOneLess(blobs, es, d);
      WeightGrows(blobs, ds, es - {d});
    } else {
      assert ds == es;
    }
  }

  // What is still there when d's turn comes: whatever is not older, and whatever cannot be unlinked.
  ghost function Rivals(blobs: Blobs, listed: set<Digest>, stuck: set<Digest>, d: Digest): set<Digest>
    requires listed <= blobs.Keys && d in blobs
  {
    set x | x in listed && (x in stuck || !Before(EntryOf(blobs, x), EntryOf(blobs, d)))
  }

  ghost function Evicted(blobs: Blobs, listed: set<Digest>, stuck: set<Digest>, cap: nat): set<Digest>
    requires listed <= blobs.Keys
  {
    set d | d in listed && d !in stuck && Weight(blobs, Rivals(blobs, listed, stuck, d)) > cap
  }

  /**
    Eviction takes a prefix of the oldest: what is older than an evicted blob, or
    as old and smaller, or as old and as large under a smaller name, is evicted too
    if it can be unlinked.
   */
  lemma {:induction false} OldestFirst(blobs: Blobs, listed: set<Digest>, stuck: set<Digest>, cap: nat,
                                       x: Digest, y: Digest)
    requires listed <= blobs.Keys && x in listed && x !in stuck && y in Evicted(blobs, listed, stuck, cap)
    requires var (a, b) := (blobs[x], blobs[y]);
             || a.mtime < b.mtime
             || (a.mtime == b.mtime && (|a.bytes| < |b.bytes| || (|a.bytes| == |b.bytes| && x < y)))
    ensures x in Evicted(blobs, listed, stuck, cap)
  {
    WeightGrows(blobs, Rivals(blobs, listed, stuck, y), Rivals(blobs, listed, stuck, x));
  }

  ghost predicate OldestOf(blobs: Blobs, ds: set<Digest>, d: Digest)
    requires ds <= blobs.Keys
  {
    d in ds && forall x | x in ds && x != d :: Before(EntryOf(blobs, d), EntryOf(blobs, x))
  }

  lemma {:induction false} OldestExists(blobs: Blobs, ds: set<Digest>) returns (d: Digest)
    requires {} != ds <= blobs.Keys
    ensures OldestOf(blobs, ds, d)
    decreases |ds|
  {
    d :| d in ds;
    if ds != {d} {
      var e := OldestExists(blobs, ds - {d});
      if Before(EntryOf(blobs, e), EntryOf(blobs, d)) {
        d := e;
      }
    }
  }

  /** Afterwards the listed blobs fit the cap, or every one that could be unlinked is gone. */
  lemma {:induction false} FitsOrNothingLeft(blobs: Blobs, listed: set<Digest>, stuck: set<Digest>, cap: nat)
    requires listed <= blobs.Keys
    ensures var kept := listed - Evicted(blobs, listed, stuck, cap);
            Weight(blobs, kept) <= cap || kept <= stuck
  {
    var kept := listed - Evicted(blobs, listed, stuck, cap);
    if !(kept <= stuck) {
      var x :| x in kept && x !in stuck;
      assert x in kept - stuck;
      var d := OldestExists(blobs, kept - stuck);
      WeightGrows(blobs, kept, Rivals(blobs, listed, stuck, d));
    }
  }

  ghost predicate YoungestOf(blobs: Blobs, ds: set<Digest>, d: Digest)
    requires ds <= blobs.Keys
  {
    d in ds && forall x | x in ds && x != d :: Before(EntryOf(blobs, x), EntryOf(blobs, d))
  }

  /** When every unlink succeeds the store fits, and would not if the youngest evicted blob had been kept. */
  lemma {:induction false} ShortestPrefix(blobs: Blobs, cap: nat)
    ensures var gone := Evicted(blobs, blobs.Keys, {}, cap);
            && Weight(blobs, blobs.Keys - gone) <= cap
            && forall d | YoungestOf(blobs, gone, d) :: Weight(blobs, (blobs.Keys - gone) + {d}) > cap
  {
    FitsOrNothingLeft(blobs, blobs.Keys, {}, cap);
    var gone := Evicted(blobs, blobs.Keys, {}, cap);
    forall d | YoungestOf(blobs, gone, d)
      ensures Weight(blobs, (blobs.Keys - gone) + {d}) > cap
    {
      WeightGrows(blobs, Rivals(blobs, blobs.Keys, {}, d), (blobs.Keys - gone) + {d});
    }
  }

  lemma {:induction false} FittingStoreKeepsAll(blobs: Blobs, listed: set<Digest>, stuck: set<Digest>, cap: nat)
    requires listed <= blobs.Keys && Weight(blobs, listed) <= cap
    ensures Evicted(blobs, listed, stuck, cap) == {}
  {
    forall d | d in listed
      ensures Weight(blobs, Rivals(blobs, listed, stuck, d)) <= cap
    {
      WeightGrows(blobs, Rivals(blobs, listed, stuck, d), listed);
    }
  }

  // ----- the eviction loop meets that -----

  ghost predicate Listing(blobs: Blobs, listed: set<Digest>, es: seq<Entry>)
  {
    && Digests(es) == listed <= blobs.Keys
    && forall i | 0 <= i < |es| :: es[i].digest in blobs && es[i] == EntryOf(blobs, es[i].digest)
  }

  lemma {:induction false} DigestsGrow(es: seq<Entry>, e: Entry)
    ensures Digests(es + [e]) == Digests(es) + {e.digest}
  {
    assert (es + [e])[|es|] == e;
    forall d | d in Digests(es)
      ensures d in Digests(es + [e])
    {
      var i :| 0 <= i < |es| && es[i].digest == d;
      assert (es + [e])[i].digest == d;
    }
  }

  lemma {:induction false} SameDigests(es: seq<Entry>, fs: seq<Entry>)
    requires multiset(es) == multiset(fs)
    ensures Digests(es) <= Digests(fs)
  {
    forall d | d in Digests(es)
      ensures d in Digests(fs)
    {
      var i :| 0 <= i < |es| && es[i].digest == d;
      assert es[i] in multiset(fs);
      var j :| 0 <= j < |fs| && fs[j] == es[i];
    }
  }

  lemma {:induction false} SortedListing(blobs: Blobs, listed: set<Digest>, es: seq<Entry>)
    requires Listing(blobs, listed, es) && Distinct(es)
    ensures Listing(blobs, listed, Sort(es)) && Sorted(Sort(es))
  {
    SortSorts(es);
    SameDigests(es, Sort(es));
    SameDigests(Sort(es), es);
    forall i | 0 <= i < |Sort(es)|
      ensures Sort(es)[i] in es
    {
      assert Sort(es)[i] in multiset(es);
    }
  }

  lemma {:induction false} StillThere(blobs: Blobs, listed: set<Digest>, stuck: set<Digest>, es: seq<Entry>, i: nat)
    requires Listing(blobs, listed, es) && Sorted(es) && i < |es|
    ensures Rivals(blobs, listed, stuck, es[i].digest) == listed - (Digests(es[..i]) - stuck)
  {
    forall x | x in listed
      ensures x in Digests(es[..i]) <==> Before(EntryOf(blobs, x), es[i])
    {
      var j :| 0 <= j < |es| && es[j].digest == x;
      if j < i {
        assert es[..i][j].digest == x;
      }
    }
  }

  lemma {:induction false} RestStays(blobs: Blobs, listed: set<Digest>, stuck: set<Digest>, cap: nat,
                                     es: seq<Entry>, i: nat)
    requires Listing(blobs, listed, es) && Sorted(es) && i <= |es|
    requires Weight(blobs, listed - (Digests(es[..i]) - stuck)) <= cap
    ensures Evicted(blobs, listed, stuck, cap) <= Digests(es[..i]) - stuck
  {
    forall d | d in Evicted(blobs, listed, stuck, cap)
      ensures d in Digests(es[..i])
    {
      var j :| 0 <= j < |es| && es[j].digest == d;
      if j < i {
        assert es[..i][j].digest == d;
      } else {
        StillThere(blobs, listed, stuck, es, j);
        PrefixDigests(es, i, j);
        WeightGrows(blobs, Rivals(blobs, listed, stuck, d), listed - (Digests(es[..i]) - stuck));
      }
    }
  }

  lemma {:induction false} PrefixDigests(es: seq<Entry>, i: nat, j: nat)
    requires i <= j <= |es|
    ensures Digests(es[..i]) <= Digests(es[..j])
  {
    forall d | d in Digests(es[..i])
      ensures d in Digests(es[..j])
    {
      var k :| 0 <= k < i && es[..i][k].digest == d;
      assert es[..j][k].digest == d;
    }
  }

  // The digests unlinked by the time the loop has passed i entries.
  ghost function Gone(es: seq<Entry>, i: nat, stuck: set<Digest>): set<Digest>
    requires i <= |es|
  {
    Digests(es[..i]) - stuck
  }

  ghost predicate Swept(blobs: Blobs, listed: set<Digest>, stuck: set<Digest>, cap: nat,
                        es: seq<Entry>, i: nat, total: int)
  {
    && Listing(blobs, listed, es) && Sorted(es) && i <= |es|
    && total == Weight(blobs, listed - Gone(es, i, stuck))
    && Gone(es, i, stuck) <= Evicted(blobs, listed, stuck, cap)
  }

  lemma {:induction false} SweepOne(blobs: Blobs, listed: set<Digest>, stuck: set<Digest>, cap: nat,
                                    es: seq<Entry>, i: nat, total: int)
    requires Swept(blobs, listed, stuck, cap, es, i, total) && i < |es| && total > cap
    ensures var d := es[i].digest;
            && Gone(es, i + 1, stuck) == Gone(es, i, stuck) + ({d} - stuck)
            && Swept(blobs, listed, stuck, cap, es, i + 1, if d in stuck then total else total - es[i].size)
  {
    var d := es[i].digest;
    DigestsGrow(es[..i], es[i]);
    assert es[..i + 1] == es[..i] + [es[i]];
    if d in stuck {
      assert Gone(es, i + 1, stuck) == Gone(es, i, stuck);
    } else {
      assert Gone(es, i + 1, stuck) == Gone(es, i, stuck) + {d};
      EvictOne(blobs, listed, stuck, cap, es, i);
    }
  }

  lemma {:induction false} EvictOne(blobs: Blobs, listed: set<Digest>, stuck: set<Digest>, cap: nat,
                                    es: seq<Entry>, i: nat)
    requires Listing(blobs, listed, es) && Sorted(es) && i < |es| && es[i].digest !in stuck
    requires Weight(blobs, listed - Gone(es, i, stuck)) > cap
    ensures es[i].digest in Evicted(blobs, listed, stuck, cap)
    ensures var left := listed - Gone(es, i, stuck);
            Weight(blobs, left) == es[i].size + Weight(blobs, listed - (Gone(es, i, stuck) + {es[i].digest}))
  {
    var d, left := es[i].digest, listed - Gone(es, i, stuck);
    StillThere(blobs, listed, stuck, es, i);
    assert d in Rivals(blobs, listed, stuck, d);
    WeightOfOneLess(blobs, left, d);
    assert left - {d} == listed - (Gone(es, i, stuck) + {d});
  }

  lemma {:induction false} SweepEnds(blobs: Blobs, listed: set<Digest>, stuck: set<Digest>, cap: nat,
                                     es: seq<Entry>, i: nat, total: int)
    requires Swept(blobs, listed, stuck, cap, es, i, total) && (i == |es| || total <= cap)
    ensures Gone(es, i, stuck) == Evicted(blobs, listed, stuck, cap)
  {
    if total <= cap {
      RestStays(blobs, listed, stuck, cap, es, i);
    } else {
      assert es[..i] == es;
    }
  }

  lemma {:induction false} ListOne(blobs: Blobs, listed: set<Digest>, es: seq<Entry>, d: Digest)
    requires Distinct(es) && Listing(blobs, listed, es) && d in blobs && d !in listed
    ensures Distinct(es + [EntryOf(blobs, d)]) && Listing(blobs, listed + {d}, es + [EntryOf(blobs, d)])
  {
    DigestsGrow(es, EntryOf(blobs, d));
    assert forall i | 0 <= i < |es| :: es[i].digest in Digests(es);
  }

  // ----- one capture -----

  // What may go wrong in the file system during one capture.
  datatype Faults = Faults(
    noStat: set<Digest>,         // blobs the scan cannot stat
    stuck: set<Digest>,          // blobs that cannot be unlinked
    stuckBindings: set<Digest>,  // binding files that cannot be unlinked
    bindingReadable: bool,
    bindingWritable: bool)

  datatype Stat = Stat(regular: bool, size: nat)

  // The file as the two looks at it find it: its stat, and later its bytes (None on any I/O error).
  datatype Source = Source(path: Path, stat: Option<Stat>, bytes: Option<Blob>)

  predicate Accepts(src: Source, fileCap: nat)
  {
    src.stat.Some? && src.stat.value.regular && !(fileCap != 0 && src.stat.value.size > fileCap) && src.bytes.Some?
  }

  function Bind(bs: Bindings, d: Digest, p: Path, f: Faults): Bindings
  {
    if !f.bindingWritable then bs
    else bs[d := (if d in bs && f.bindingReadable then bs[d] else {}) + {p}]
  }

  function AddBlob(blobs: Blobs, d: Digest, bytes: Blob, now: real): Blobs
  {
    if d in blobs then blobs else blobs[d := Snap(bytes, now)]
  }

  datatype Store = Store(blobs: Blobs, bindings: Bindings)

  function Without(s: Store, gone: set<Digest>, stuckBindings: set<Digest>): Store
  {
    Store(s.blobs - gone, s.bindings - (gone - stuckBindings))
  }

  lemma {:induction false} WithoutOneMore(s: Store, gone: set<Digest>, stuckBindings: set<Digest>, d: Digest)
    ensures Without(Without(s, gone, stuckBindings), {d}, stuckBindings) == Without(s, gone + {d}, stuckBindings)
  {
    var left := gone - stuckBindings;
    assert gone + {d} - stuckBindings == left + ({d} - stuckBindings);
    assert s.bindings - left - ({d} - stuckBindings) == s.bindings - (left + ({d} - stuckBindings));
  }

  ghost function Quota(s: Store, f: Faults, cap: nat): Store
  {
    Without(s, Evicted(s.blobs, s.blobs.Keys - f.noStat, f.stuck, cap), f.stuckBindings)
  }

  ghost function Capture(s: Store, hash: Hash, src: Source, now: real, fileCap: nat, cap: nat, f: Faults): Store
  {
    if !Accepts(src, fileCap) then s
    else
      var bytes := src.bytes.value;
      Quota(Store(AddBlob(s.blobs, hash(bytes), bytes, now), Bind(s.bindings, hash(bytes), src.path, f)), f, cap)
  }

  predicate Bound(s: Store, d: Digest, p: Path)
  {
    d in s.bindings && p in s.bindings[d]
  }

  // ----- every run of captures -----

  datatype Event = Captured(src: Source, now: real, fileCap: nat, cap: nat, f: Faults)

  ghost function After(s: Store, e: Event, hash: Hash): Store
  {
    Capture(s, hash, e.src, e.now, e.fileCap, e.cap, e.f)
  }

  ghost function Run(events: seq<Event>, hash: Hash): Store
  {
    if events == [] then Store(map[], map[])
    else After(Run(events[..|events| - 1], hash), events[|events| - 1], hash)
  }

  // The event read bytes with this digest from this path.
  predicate Took(e: Event, hash: Hash, p: Path, d: Digest)
  {
    Accepts(e.src, e.fileCap) && e.src.path == p && hash(e.src.bytes.value) == d
  }

  ghost predicate NamesMatch(s: Store, hash: Hash)
  {
    forall d | d in s.blobs :: hash(s.blobs[d].bytes) == d
  }

  lemma {:induction false} CaptureKeepsNames(s: Store, e: Event, hash: Hash)
    requires NamesMatch(s, hash)
    ensures NamesMatch(After(s, e, hash), hash)
  {
    var s' := After(s, e, hash);
    forall d | d in s'.blobs
      ensures hash(s'.blobs[d].bytes) == d
    {
      if d in s.blobs {
        assert s'.blobs[d] == s.blobs[d];
      }
    }
  }

  /** Every stored blob's bytes hash to its name. */
  lemma {:induction false} BlobsMatchNames(events: seq<Event>, hash: Hash)
    ensures NamesMatch(Run(events, hash), hash)
  {
    if events == [] {
    } else {
      BlobsMatchNames(events[..|events| - 1], hash);
      CaptureKeepsNames(Run(events[..|events| - 1], hash), events[|events| - 1], hash);
    }
  }

  /** No capture changes a blob that stays: not its bytes, not its age. */
  lemma {:induction false} BlobsNeverChange(s: Store, e: Event, hash: Hash, d: Digest)
    requires d in s.blobs && d in After(s, e, hash).blobs
    ensures After(s, e, hash).blobs[d] == s.blobs[d]
  {
  }

  /** A path is recorded for a digest only if bytes with that digest were captured from it. */
  lemma {:induction false} BindingsEarned(events: seq<Event>, hash: Hash, d: Digest, p: Path)
    requires Bound(Run(events, hash), d, p)
    ensures exists i :: 0 <= i < |events| && Took(events[i], hash, p, d)
  {
    var init, last := events[..|events| - 1], events[|events| - 1];
    if !Took(last, hash, p, d) {
      assert Bound(Run(init, hash), d, p);
      BindingsEarned(init, hash, d, p);
      var i :| 0 <= i < |init| && Took(init[i], hash, p, d);
      assert events[i] == init[i];
    }
  }

  predicate Faultless(f: Faults)
  {
    f.noStat == {} && f.stuck == {} && f.stuckBindings == {} && f.bindingReadable && f.bindingWritable
  }

  // ----- which paths a digest is served for -----

  // The event evicts d's blob and unlinks its binding file.
  ghost predicate Forgets(s: Store, e: Event, hash: Hash, d: Digest)
  {
    Accepts(e.src, e.fileCap) && d !in e.f.stuckBindings &&
    var blobs := AddBlob(s.blobs, hash(e.src.bytes.value), e.src.bytes.value, e.now);
    d in Evicted(blobs, blobs.Keys - e.f.noStat, e.f.stuck, e.cap)
  }

  // The event writes d's binding file anew because it could not read it.
  predicate Replaces(e: Event, hash: Hash, d: Digest)
  {
    Took(e, hash, e.src.path, d) && e.f.bindingWritable && !e.f.bindingReadable
  }

  // Event i recorded p for d, and nothing has undone that up to now.
  ghost predicate RecordedBy(events: seq<Event>, hash: Hash, d: Digest, p: Path, i: nat)
  {
    && i < |events| && Took(events[i], hash, p, d) && events[i].f.bindingWritable
    && !Forgets(Run(events[..i], hash), events[i], hash, d)
    && forall j | i < j < |events| ::
         !Forgets(Run(events[..j], hash), events[j], hash, d) && !Replaces(events[j], hash, d)
  }

  lemma {:induction false} BoundAfter(s: Store, e: Event, hash: Hash, d: Digest, p: Path)
    ensures Bound(After(s, e, hash), d, p) <==>
            && !Forgets(s, e, hash, d)
            && ((Took(e, hash, p, d) && e.f.bindingWritable) || (Bound(s, d, p) && !Replaces(e, hash, d)))
  {
  }

  lemma {:induction false} RecordedStill(events: seq<Event>, hash: Hash, d: Digest, p: Path, i: nat)
    requires i < |events| - 1
    ensures var init, last := events[..|events| - 1], events[|events| - 1];
            RecordedBy(events, hash, d, p, i) <==>
            && RecordedBy(init, hash, d, p, i)
            && !Forgets(Run(init, hash), last, hash, d) && !Replaces(last, hash, d)
  {
    var init := events[..|events| - 1];
    assert forall j | 0 <= j < |init| :: init[j] == events[j] && init[..j] == events[..j];
  }

  /**
    In every run, whatever file operations fail: a path is recorded for a digest
    exactly when some capture of that path recorded it and nothing undid that since.
   */
  lemma {:induction false} RecordedExactly(events: seq<Event>, hash: Hash, d: Digest, p: Path)
    ensures Bound(Run(events, hash), d, p) <==> exists i: nat :: RecordedBy(events, hash, d, p, i)
  {
    if events == [] {
    } else {
      var init, last := events[..|events| - 1], events[|events| - 1];
      RecordedExactly(init, hash, d, p);
      BoundAfter(Run(init, hash), last, hash, d, p);
      forall i: nat | i < |init|
        ensures RecordedBy(events, hash, d, p, i) <==>
                RecordedBy(init, hash, d, p, i) && !Forgets(Run(init, hash), last, hash, d) && !Replaces(last, hash, d)
      {
        RecordedStill(events, hash, d, p, i);
      }
      assert RecordedBy(events, hash, d, p, |init|) <==>
             Took(last, hash, p, d) && last.f.bindingWritable && !Forgets(Run(init, hash), last, hash, d);
    }
  }

  ghost predicate AllFaultless(events: seq<Event>)
  {
    forall i | 0 <= i < |events| :: Faultless(events[i].f)
  }

  // Event i captured d from p, and d's blob has been stored ever since.
  ghost predicate StoredSince(events: seq<Event>, hash: Hash, d: Digest, p: Path, i: nat)
  {
    && i < |events| && Took(events[i], hash, p, d)
    && forall j | i < j <= |events| :: d in Run(events[..j], hash).blobs
  }

  lemma {:induction false} StoredStill(events: seq<Event>, hash: Hash, d: Digest, p: Path, i: nat)
    requires i < |events| - 1
    ensures StoredSince(events, hash, d, p, i) <==>
            StoredSince(events[..|events| - 1], hash, d, p, i) && d in Run(events, hash).blobs
  {
    var init := events[..|events| - 1];
    assert forall j | 0 <= j <= |init| :: init[..j] == events[..j];
    assert events[..|events|] == events && init[..|init|] == init;
  }

  lemma {:induction false} StepWithoutFaults(s: Store, e: Event, hash: Hash, d: Digest)
    requires Faultless(e.f) && s.bindings.Keys == s.blobs.Keys
    ensures var s' := After(s, e, hash);
            && s'.bindings.Keys == s'.blobs.Keys
            && (d in s'.blobs <==> !Forgets(s, e, hash, d) && (d in s.blobs || Took(e, hash, e.src.path, d)))
  {
  }

  /**
    While no file operation fails: exactly the stored blobs have binding files, and
    a digest is served for a path exactly when it was captured from that path and
    its blob has been stored ever since.
   */
  lemma {:induction false} ServedExactly(events: seq<Event>, hash: Hash, d: Digest, p: Path)
    requires AllFaultless(events)
    ensures var s := Run(events, hash); s.bindings.Keys == s.blobs.Keys
    ensures Bound(Run(events, hash), d, p) <==> exists i: nat :: StoredSince(events, hash, d, p, i)
  {
    if events == [] {
    } else {
      var init, last := events[..|events| - 1], events[|events| - 1];
      ServedExactly(init, hash, d, p);
      BoundAfter(Run(init, hash), last, hash, d, p);
      StepWithoutFaults(Run(init, hash), last, hash, d);
      forall i: nat | i < |init|
        ensures StoredSince(events, hash, d, p, i) <==>
                StoredSince(init, hash, d, p, i) && d in Run(events, hash).blobs
      {
        StoredStill(events, hash, d, p, i);
      }
      assert events[..|events|] == events;
      assert StoredSince(events, hash, d, p, |init|) <==> Took(last, hash, p, d) && d in Run(events, hash).blobs;
    }
  }

  /** While no file operation fails and the cap stays, the store fits its cap after every capture. */
  lemma {:induction false} AlwaysFits(events: seq<Event>, hash: Hash, cap: nat)
    requires forall i | 0 <= i < |events| :: events[i].cap == cap && Faultless(events[i].f)
    ensures var s := Run(events, hash); Weight(s.blobs, s.blobs.Keys) <= cap
  {
    if events == [] {
    } else {
      var init, e := events[..|events| - 1], events[|events| - 1];
      AlwaysFits(init, hash, cap);
      if Accepts(e.src, e.fileCap) {
        var d := hash(e.src.bytes.value);
        var blobs := AddBlob(Run(init, hash).blobs, d, e.src.bytes.value, e.now);
        ShortestPrefix(blobs, cap);
        var gone := Evicted(blobs, blobs.Keys, {}, cap);
        assert blobs.Keys - e.f.noStat == blobs.Keys;
        assert Run(events, hash).blobs == blobs - gone;
        SameWeight(blobs, blobs - gone, blobs.Keys - gone);
      }
    }
  }

  lemma {:induction false} SameWeight(blobs: Blobs, blobs': Blobs, ds: set<Digest>)
    requires forall d | d in ds :: d in blobs && d in blobs' && blobs[d] == blobs'[d]
    ensures Weight(blobs, ds) == Weight(blobs', ds)
    decreases |ds|
  {
    if ds == {} {
    } else {
      var d :| d in ds;
      WeightOfOneLess(blobs, ds, d);
      WeightOfOneLess(blobs', ds, d);
      SameWeight(blobs, blobs', ds - {d});
    }
  }

  /**
    Whether the digest returned is stored, and served for its path: exactly when it
    and all blobs not older fit the cap. If the content was there before and the store
    fits, nothing is evicted; if it is new and the youngest, it must fit by itself.
   */
  lemma {:induction false} CapturedIsServedExactly(s: Store, e: Event, hash: Hash)
    requires Accepts(e.src, e.fileCap) && Faultless(e.f)
    ensures var d, bytes, s' := hash(e.src.bytes.value), e.src.bytes.value, After(s, e, hash);
            var blobs := AddBlob(s.blobs, d, bytes, e.now);
            && (d in s'.blobs <==> Weight(blobs, Rivals(blobs, blobs.Keys, {}, d)) <= e.cap)
            && (d in s'.blobs <==> Bound(s', d, e.src.path))
            && (d in s.blobs && Weight(s.blobs, s.blobs.Keys) <= e.cap ==> s'.blobs == s.blobs)
            && (d !in s.blobs && (forall x | x in s.blobs :: s.blobs[x].mtime < e.now) ==>
                  (d in s'.blobs <==> |bytes| <= e.cap))
  {
    var d, bytes := hash(e.src.bytes.value), e.src.bytes.value;
    var blobs := AddBlob(s.blobs, d, bytes, e.now);
    assert blobs.Keys - e.f.noStat == blobs.Keys;
    assert After(s, e, hash).blobs == blobs - Evicted(blobs, blobs.Keys, {}, e.cap);
    if d in s.blobs && Weight(s.blobs, s.blobs.Keys) <= e.cap {
      RecaptureEvictsNothing(s, e, hash);
    }
    if d !in s.blobs && forall x | x in s.blobs :: s.blobs[x].mtime < e.now {
      YoungestStandsAlone(s.blobs, d, bytes, e.now);
    }
  }

  lemma {:induction false} RecaptureEvictsNothing(s: Store, e: Event, hash: Hash)
    requires Accepts(e.src, e.fileCap) && Faultless(e.f) && hash(e.src.bytes.value) in s.blobs
    requires Weight(s.blobs, s.blobs.Keys) <= e.cap
    ensures After(s, e, hash).blobs == s.blobs
  {
    assert s.blobs.Keys - e.f.noStat == s.blobs.Keys;
    FittingStoreKeepsAll(s.blobs, s.blobs.Keys, {}, e.cap);
  }

  lemma {:induction false} YoungestStandsAlone(before: Blobs, d: Digest, bytes: Blob, now: real)
    requires d !in before && forall x | x in before :: before[x].mtime < now
    ensures var blobs := AddBlob(before, d, bytes, now); Weight(blobs, Rivals(blobs, blobs.Keys, {}, d)) == |bytes|
  {
    var blobs := AddBlob(before, d, bytes, now);
    assert Rivals(blobs, blobs.Keys, {}, d) == {d};
    WeightOfOneLess(blobs, {d}, d);
    assert {d} - {d} == {};
  }

  // ----- the store itself -----

  class Snapshots {
    const hash: Hash
    var blobs: Blobs
    var bindings: Bindings
    ghost var captures: seq<Event>  // every call of CaptureSnapshot so far

    constructor (hash: Hash)
      ensures Valid() && this.hash == hash && captures == []
    {
      this.hash, blobs, bindings, captures := hash, map[], map[], [];
    }

    ghost predicate Valid()
      reads this
    {
      Now() == Run(captures, hash)
    }

    function Now(): Store
      reads this
    {
      Store(blobs, bindings)
    }

    // The directory scan, in whatever order the directory lists its files.
    method SizeAndEntries(noStat: set<Digest>) returns (total: nat, entries: seq<Entry>)
      ensures total == Weight(blobs, blobs.Keys - noStat)
      ensures Distinct(entries) && Listing(blobs, blobs.Keys - noStat, entries)
    {
      total, entries := 0, [];
      var todo := blobs.Keys - noStat;
      ghost var listed := todo;
      while todo != {}
        invariant todo <= listed <= blobs.Keys
        invariant total + Weight(blobs, todo) == Weight(blobs, listed)
        invariant Distinct(entries) && Listing(blobs, listed - todo, entries)
        decreases |todo|
      {
        var d :| d in todo;
        WeightOfOneLess(blobs, todo, d);
        total := total + |blobs[d].bytes|;
        ListOne(blobs, listed - todo, entries, d);
        assert listed - todo + {d} == listed - (todo - {d});
        entries := entries + [EntryOf(blobs, d)];
        todo := todo - {d};
      }
    }

    method EnforceQuota(f: Faults, cap: nat)
      modifies this`blobs, this`bindings
      ensures Now() == Quota(old(Now()), f, cap)
    {
      var total, entries := SizeAndEntries(f.noStat);
      ghost var before, listed := blobs, blobs.Keys - f.noStat;
      if total <= cap {
        FittingStoreKeepsAll(blobs, listed, f.stuck, cap);
        return;
      }
      SortedListing(blobs, listed, entries);
      entries := Sort(entries);
      assert listed - Gone(entries, 0, f.stuck) == listed;
      var i := 0;
      ghost var gone: set<Digest> := {};
      assert Now() == Without(Now(), gone, f.stuckBindings);
      while i < |entries| && total > cap
        invariant 0 <= i <= |entries| && gone == Gone(entries, i, f.stuck)
        invariant Swept(before, listed, f.stuck, cap, entries, i, total)
        invariant Now() == Without(old(Now()), gone, f.stuckBindings)
      {
        SweepOne(before, listed, f.stuck, cap, entries, i, total);
        var e := entries[i];
        if e.digest !in f.stuck {
          Unlink(e.digest, f.stuckBindings);
          WithoutOneMore(old(Now()), gone, f.stuckBindings, e.digest);
          total := total - e.size;
          gone := gone + {e.digest};
        }
        i := i + 1;
      }
      SweepEnds(before, listed, f.stuck, cap, entries, i, total);
    }

    // A blob goes, and its binding file with it if that can be unlinked.
    method Unlink(d: Digest, stuckBindings: set<Digest>)
      modifies this`blobs, this`bindings
      ensures Now() == Without(old(Now()), {d}, stuckBindings)
    {
      blobs := blobs - {d};
      if d !in stuckBindings {
        bindings := bindings - {d};
      }
    }

    method RecordSourceBinding(d: Digest, p: Path, f: Faults)
      modifies this`bindings
      ensures bindings == Bind(old(bindings), d, p, f)
    {
      var sources := {};
      if d in bindings && f.bindingReadable {
        sources := bindings[d];
      }
      sources := sources + {p};
      if f.bindingWritable {
        bindings := bindings[d := sources];
      }
    }

    method CaptureSnapshot(src: Source, now: real, fileCap: nat, cap: nat, f: Faults) returns (digest: Option<Digest>)
      requires Valid()
      modifies this
      ensures Valid() && captures == old(captures) + [Captured(src, now, fileCap, cap, f)]
      ensures digest.Some? <==>
              && src.stat.Some? && src.stat.value.regular && (fileCap == 0 || src.stat.value.size <= fileCap)
              && src.bytes.Some?
      ensures digest.Some? ==> digest.value == hash(src.bytes.value)
      ensures Now() == Capture(old(Now()), hash, src, now, fileCap, cap, f)
    {
      captures := captures + [Captured(src, now, fileCap, cap, f)];
      assert captures[..|captures| - 1] == old(captures);
      if src.stat == None || !src.stat.value.regular || (fileCap != 0 && src.stat.value.size > fileCap) {
        return None;
      }
      if src.bytes == None {
        return None;
      }
      var d := hash(src.bytes.value);
      if d !in blobs {
        blobs := blobs[d := Snap(src.bytes.value, now)];
      }
      RecordSourceBinding(d, src.path, f);
      EnforceQuota(f, cap);
      digest := Some(d);
    }

    /**
      True exactly when the binding file can be read and some earlier call captured
      the digest from this very path, with nothing having undone that since. Where
      no file operation has failed: captured from it, and stored ever since.
     */
    method ServableForPath(d: Digest, p: Path, readable: bool) returns (servable: bool)
      requires Valid()
      ensures servable <==> readable && exists i: nat :: RecordedBy(captures, hash, d, p, i)
      ensures AllFaultless(captures) ==>
                (servable <==> readable && exists i: nat :: StoredSince(captures, hash, d, p, i))
    {
      servable := readable && d in bindings && p in bindings[d];
      RecordedExactly(captures, hash, d, p);
      if AllFaultless(captures) {
        ServedExactly(captures, hash, d, p);
      }
    }
  }
}
