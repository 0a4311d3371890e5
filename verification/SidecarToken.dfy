/**
  The per-extension token file. Any number of processes mint, read, rotate and
  delete it; between any two steps of a call the others may act. The disk keeps,
  as ghost state, every state the file has been in, one per step of anybody.
 */
module SidecarToken {
  import opened Options

  // What str.strip() removes.
  predicate IsSpace(c: char)
  {
    var n := c as int;
    || 0x09 <= n <= 0x0D || 0x1C <= n <= 0x20 || n in {0x85, 0xA0, 0x1680, 0x2028, 0x2029, 0x202F, 0x205F, 0x3000}
    || 0x2000 <= n <= 0x200A
  }

  function Strip(s: string): string
  {
    if s == "" then s
    else if IsSpace(s[0]) then Strip(s[1..])
    else if IsSpace(s[|s| - 1]) then Strip(s[..|s| - 1])
    else s
  }

  predicate Blank(s: string)
  {
    forall i | 0 <= i < |s| :: IsSpace(s[i])
  }

  predicate Trimmed(s: string)
  {
    s != "" ==> !IsSpace(s[0]) && !IsSpace(s[|s| - 1])
  }

  lemma {:induction false} StripOfPadded(before: string, mid: string, after: string)
    requires Blank(before) && Trimmed(mid) && Blank(after)
    ensures Strip(before + mid + after) == mid
    decreases |before| + |after|
  {
    var s := before + mid + after;
    if before != "" {
      StripOfPadded(before[1..], mid, after);
      assert s[1..] == before[1..] + mid + after;
    } else if after == "" {
      assert s == mid;
    } else if mid == "" {
      StripOfPadded("", "", after[1..]);
      assert s[1..] == "" + "" + after[1..];
    } else {
      StripOfPadded("", mid, after[..|after| - 1]);
      assert s[..|s| - 1] == "" + mid + after[..|after| - 1];
    }
  }

  lemma {:induction false} StripPads(s: string) returns (before: string, after: string)
    ensures s == before + Strip(s) + after && Blank(before) && Blank(after) && Trimmed(Strip(s))
  {
    before, after := "", "";
    if s == "" {
    } else if IsSpace(s[0]) {
      before, after := StripPads(s[1..]);
      before := [s[0]] + before;
    } else if IsSpace(s[|s| - 1]) {
      before, after := StripPads(s[..|s| - 1]);
      after := after + [s[|s| - 1]];
    }
  }

  predicate IsToken(s: string)
  {
    16 <= |s| <= 256 &&
    forall i | 0 <= i < |s| ::
      'A' <= s[i] <= 'Z' || 'a' <= s[i] <= 'z' || '0' <= s[i] <= '9' || s[i] == '_' || s[i] == '-'
  }

  lemma {:induction false} MintedIsItsOwnToken(s: string)
    requires IsToken(s)
    ensures Strip(s) == s
  {
  }

  ghost predicate PaddedToken(text: string, tok: string, before: string, after: string)
  {
    text == before + tok + after && Blank(before) && Blank(after)
  }

  /** A file's token is the token that stands in it with only white space around. */
  lemma {:induction false} TokenExactly(f: Option<File>, tok: string)
    ensures TokenOf(f) == Some(tok) <==>
            && f.Some? && f.value.text.Some? && IsToken(tok)
            && exists before, after :: PaddedToken(f.value.text.value, tok, before, after)
  {
    if f.Some? && f.value.text.Some? {
      var text := f.value.text.value;
      var b, a := StripPads(text);
      if TokenOf(f) == Some(tok) {
        assert PaddedToken(text, tok, b, a);
      } else if before, after :| PaddedToken(text, tok, before, after) && IsToken(tok) {
        MintedIsItsOwnToken(tok);
        StripOfPadded(before, tok, after);
      }
    }
  }

  // One version of the file: its text, None if it is not UTF-8, and its stat fingerprint.
  datatype File = File(text: Option<string>, stamp: nat)

  function TokenOf(f: Option<File>): Option<string>
  {
    if f.None? || f.value.text.None? then None
    else
      var tok := Strip(f.value.text.value);
      if IsToken(tok) then Some(tok) else None
  }

  type History = seq<Option<File>>

  // Fingerprints tell versions apart: between two sightings of one, the file was that file.
  ghost predicate StampsTell(h: History)
  {
    forall i, k, j
      | 0 <= i <= k <= j < |h| && h[i].Some? && h[j].Some? && h[i].value.stamp == h[j].value.stamp
      :: h[k] == h[i]
  }

  // The same file, though chmod or unlinking another name of it may have given it a new stamp.
  predicate SameText(f: Option<File>, g: Option<File>)
  {
    f.Some? && g.Some? && f.value.text == g.value.text
  }

  // Once there, the file stays, and keeps its text.
  ghost predicate NeverReplaced(h: History)
  {
    forall i, j | 0 <= i <= j < |h| && h[i].Some? :: SameText(h[i], h[j])
  }

  // A file that is no token was there from the start.
  ghost predicate OnlyMinted(h: History)
  {
    forall i | 0 <= i < |h| && h[i].Some? && TokenOf(h[i]) == None :: h[0].Some?
  }

  // The token was on disk at some instant from `from` on.
  ghost predicate OnDiskSince(h: History, from: int, tok: string)
  {
    exists i :: from <= i < |h| && 0 <= i && TokenOf(h[i]) == Some(tok)
  }

  // The file was gone at some instant from `from` on, and the token on disk after that.
  ghost predicate OnDiskAfterGone(h: History, from: int, tok: string)
  {
    exists k :: from <= k < |h| && 0 <= k && h[k] == None && OnDiskSince(h, k, tok)
  }

  // A token read together with a fingerprint was the token of that version.
  ghost predicate Honest(h: History, tok: string, stamp: nat)
  {
    exists i :: 0 <= i < |h| && h[i].Some? && h[i].value.stamp == stamp && TokenOf(h[i]) == Some(tok)
  }

  /** An honest pair whose fingerprint is the file's now names the file's token now. */
  lemma {:induction false} HonestStampGivesToken(h: History, tok: string, i: nat)
    requires StampsTell(h) && i < |h| && h[i].Some? && Honest(h, tok, h[i].value.stamp)
    ensures TokenOf(h[i]) == Some(tok)
  {
    var j :| 0 <= j < |h| && h[j].Some? && h[j].value.stamp == h[i].value.stamp && TokenOf(h[j]) == Some(tok);
    assert if i <= j then h[j] == h[i] else h[i] == h[j];
  }

  // The next state is the same file, no file, or a version with a new stamp.
  lemma {:induction false} StampsStillTell(h: History, next: Option<File>, unused: nat)
    requires StampsTell(h) && |h| > 0 && forall i | 0 <= i < |h| && h[i].Some? :: h[i].value.stamp < unused
    requires next == h[|h| - 1] || next.None? || next.value.stamp == unused
    ensures StampsTell(h + [next])
  {
  }

  lemma {:induction false} StillNeverReplaced(h: History, next: Option<File>)
    requires NeverReplaced(h) && OnlyMinted(h) && |h| > 0
    requires next == h[|h| - 1] || SameText(h[|h| - 1], next) || (h[|h| - 1].None? && TokenOf(next).Some?)
    ensures NeverReplaced(h + [next]) && OnlyMinted(h + [next])
  {
    var h' := h + [next];
    forall i, j | 0 <= i <= j < |h'| && h'[i].Some?
      ensures SameText(h'[i], h'[j])
    {
      if i < |h| {
        assert SameText(h[i], h[|h| - 1]);
      }
    }
    if next.Some? && TokenOf(next) == None {
      assert TokenOf(h[|h| - 1]) == None;
    }
  }

  // How often a publisher changes the attributes of the file it has published, and
  // how often a reader tries to find them unchanged.
  const CHANGES := 2
  const ATTEMPTS := 4

  class Disk {
    const resets: bool  // may anybody delete or replace the file?
    var file: Option<File>
    var owed: nat       // attribute changes the publisher of the file has still to make
    var nextStamp: nat
    ghost var history: History

    ghost predicate Valid()
      reads this
    {
      && |history| > 0 && history[|history| - 1] == file
      && (forall i | 0 <= i < |history| && history[i].Some? :: history[i].value.stamp < nextStamp)
      && StampsTell(history)
      && (!resets ==> NeverReplaced(history) && OnlyMinted(history) && owed <= CHANGES)
    }

    // With no resets: the file keeps its text, and is quite the same unless a change owed was made.
    twostate predicate Persists()
      reads this
    {
      !resets && old(file).Some? ==>
        SameText(old(file), file) && owed <= old(owed) && (owed == old(owed) ==> file == old(file))
    }

    constructor (resets: bool, file: Option<File>, owed: nat)
      requires owed <= CHANGES
      ensures Valid() && this.resets == resets && this.file == file && this.owed == owed && history == [file]
    {
      this.resets, this.file, this.owed, history := resets, file, owed, [file];
      nextStamp := if file.Some? then file.value.stamp + 1 else 0;
    }

    // os.link: create or fail, never replace
    method LinkNew(text: string) returns (created: bool)
      requires Valid() && (resets || IsToken(text))
      modifies this
      ensures Valid() && history == old(history) + [file] && Persists()
      ensures created <==> old(file).None?
      ensures file.Some? && (created ==> file.value.text == Some(text)) && (!created ==> file == old(file))
    {
      created := file.None?;
      if created {
        if !resets {
          MintedIsItsOwnToken(text);
        }
        file := Some(File(Some(text), nextStamp));
        nextStamp, owed := nextStamp + 1, CHANGES;
      }
      StampsStillTell(history, file, old(nextStamp));
      if !resets {
        StillNeverReplaced(history, file);
      }
      history := history + [file];
    }

    // chmod of the file, or unlinking the temporary name it was linked from: its
    // inode changes, and with it the fingerprint.
    method ChangeAttributes()
      requires Valid()
      modifies this
      ensures Valid() && history == old(history) + [file] && Persists()
      ensures old(file).Some? && old(owed) > 0 ==>
                owed == old(owed) - 1 && file.Some? && file.value.stamp == old(nextStamp)
    {
      if file.Some? && (owed > 0 || resets) {
        file := Some(File(file.value.text, nextStamp));
        nextStamp, owed := nextStamp + 1, if owed > 0 then owed - 1 else 0;
      }
      StampsStillTell(history, file, old(nextStamp));
      if !resets {
        StillNeverReplaced(history, file);
      }
      history := history + [file];
    }

    method Unlink()
      requires Valid() && resets
      modifies this
      ensures Valid() && file == None && history == old(history) + [file]
    {
      file := None;
      history := history + [file];
    }

    // Somebody writes a new version over the old one.
    method Overwrite(text: Option<string>)
      requires Valid() && resets
      modifies this
      ensures Valid() && history == old(history) + [file]
    {
      file := Some(File(text, nextStamp));
      nextStamp := nextStamp + 1;
      history := history + [file];
    }

    // Any number of steps of other processes.
    method OthersAct()
      requires Valid()
      modifies this
      ensures Valid() && old(history) <= history && Persists()
    {
      var steps :| steps >= 0;
      for i := 0 to steps
        invariant Valid() && old(history) <= history && Persists()
      {
        var what: int, text: Option<string> := *, *;
        if what == 0 && resets {
          Unlink();
        } else if what == 1 && resets {
          Overwrite(text);
        } else if what == 2 {
          ChangeAttributes();
        } else if text.Some? && (resets || IsToken(text.value)) {
          var _ := LinkNew(text.value);
        }
      }
    }

    method Fingerprint() returns (stamp: Option<nat>)
      ensures stamp == if file.Some? then Some(file.value.stamp) else None
    {
      stamp := if file.Some? then Some(file.value.stamp) else None;
    }

    /**
      Token and fingerprint of one version that was on disk during the call. When
      nobody resets, the answer is the file's own: each failed attempt uses up a
      change its publisher owed, and there are more attempts than such changes.
     */
    method StableRead() returns (tok: Option<string>, stamp: Option<nat>)
      requires Valid()
      modifies this
      ensures Valid() && old(history) <= history
      ensures tok.Some? <==> stamp.Some?
      ensures tok.Some? ==> Honest(history, tok.value, stamp.value)
      ensures tok.Some? ==> OnDiskSince(history, |old(history)| - 1, tok.value)
      ensures !resets && (old(file).Some? || tok.Some?) ==> tok == TokenOf(file)
    {
      for attempt := 0 to ATTEMPTS
        invariant Valid() && old(history) <= history
        invariant !resets && old(file).Some? ==> SameText(old(file), file) && attempt + owed <= CHANGES
      {
        OthersAct();
        ghost var seen := |history| - 1;
        var before := Fingerprint();
        if before == None {
          return None, None;
        }
        OthersAct();
        if file.None? || file.value.text.None? {
          return None, None;
        }
        ghost var read := |history| - 1;
        var raw := file.value.text.value;
        OthersAct();
        var after := Fingerprint();
        if after != before {
          continue;
        }
        assert history[read] == history[seen];
        var text := Strip(raw);
        if !IsToken(text) {
          return None, None;
        }
        assert TokenOf(history[read]) == Some(text);
        assert !resets ==> SameText(history[read], history[|history| - 1]);
        return Some(text), before;
      }
      return None, None;
    }
  }

  // One server process: the disk it shares, and its cached token with the token's fingerprint.
  class Process {
    const disk: Disk
    var cache: Option<(string, nat)>

    ghost predicate Valid()
      reads this, disk
    {
      disk.Valid() && (cache.Some? ==> Honest(disk.history, cache.value.0, cache.value.1))
    }

    constructor (disk: Disk)
      requires disk.Valid()
      ensures Valid() && this.disk == disk && cache == None
    {
      this.disk, cache := disk, None;
    }

    // A stable read of this process, which leaves its cache alone.
    method Read() returns (tok: Option<string>, stamp: Option<nat>)
      requires Valid()
      modifies disk
      ensures Valid() && old(disk.history) <= disk.history
      ensures tok.Some? <==> stamp.Some?
      ensures tok.Some? ==> Honest(disk.history, tok.value, stamp.value)
      ensures tok.Some? ==> OnDiskSince(disk.history, |old(disk.history)| - 1, tok.value)
      ensures !disk.resets && (old(disk.file).Some? || tok.Some?) ==> tok == TokenOf(disk.file)
    {
      tok, stamp := disk.StableRead();
      if cache.Some? {
        HonestForever(old(disk.history), disk.history, cache.value.0, cache.value.1);
      }
    }

    // Other processes act, and sibling threads of this one drop or refill the cache.
    method Interleave()
      requires Valid()
      modifies this, disk
      ensures Valid() && old(disk.history) <= disk.history
    {
      disk.OthersAct();
      if cache.Some? {
        HonestForever(old(disk.history), disk.history, cache.value.0, cache.value.1);
      }
      var drop: bool, refill: bool := *, *;
      if drop {
        cache := None;
      } else if refill {
        var tok, stamp := Read();
        cache := if tok.Some? then Some((tok.value, stamp.value)) else None;
      }
    }

    // Publish under the final name unless somebody else already has, possibly just now.
    method Publish(drawn: string)
      requires Valid() && IsToken(drawn)
      modifies disk
      ensures Valid() && old(disk.history) <= disk.history && (!disk.resets ==> disk.file.Some?)
    {
      disk.OthersAct();
      var created := disk.LinkNew(drawn);
      disk.OthersAct();
      if created {
        disk.ChangeAttributes();  // chmod
        disk.OthersAct();
        disk.ChangeAttributes();  // the temporary name goes
      }
      if cache.Some? {
        HonestForever(old(disk.history), disk.history, cache.value.0, cache.value.1);
      }
    }

    /**
      The token returned was on disk at some instant of the call; a cache hit is no
      exception. The cache is left holding that token, or nothing. When nobody
      resets, the answer is the file's own.
     */
    method CurrentToken() returns (tok: Option<string>)
      requires Valid()
      modifies this, disk
      ensures Valid() && old(disk.history) <= disk.history
      ensures tok.Some? ==> OnDiskSince(disk.history, |old(disk.history)| - 1, tok.value)
      ensures tok == if cache.Some? then Some(cache.value.0) else None
      ensures !disk.resets && old(disk.file).Some? ==> tok == TokenOf(disk.file)
    {
      Interleave();
      ghost var asked := |disk.history| - 1;
      var stamp := disk.Fingerprint();
      tok := TokenWithStamp(stamp, asked);
    }

    // The answer for a fingerprint the file had at the instant asked.
    method TokenWithStamp(stamp: Option<nat>, ghost asked: nat) returns (tok: Option<string>)
      requires Valid() && asked == |disk.history| - 1
      requires stamp == if disk.file.Some? then Some(disk.file.value.stamp) else None
      modifies this, disk
      ensures Valid() && old(disk.history) <= disk.history
      ensures tok.Some? ==> OnDiskSince(disk.history, asked, tok.value)
      ensures tok == if cache.Some? then Some(cache.value.0) else None
      ensures !disk.resets && old(disk.file).Some? ==> tok == TokenOf(disk.file)
    {
      Interleave();
      if stamp == None {
        cache := None;
        return None;
      }
      if cache.Some? && Some(cache.value.1) == stamp {
        HonestStampGivesToken(disk.history, cache.value.0, asked);
        return Some(cache.value.0);
      }
      tok := RereadToken();
    }

    // A cache miss: read from disk, then store what was read.
    method RereadToken() returns (tok: Option<string>)
      requires Valid()
      modifies this, disk
      ensures Valid() && old(disk.history) <= disk.history
      ensures forall from | from < |old(disk.history)| && tok.Some? :: OnDiskSince(disk.history, from, tok.value)
      ensures tok == if cache.Some? then Some(cache.value.0) else None
      ensures !disk.resets && old(disk.file).Some? ==> tok == TokenOf(disk.file)
    {
      var found;
      tok, found := Read();
      ghost var read := disk.history;
      Interleave();
      cache := if tok.Some? then Some((tok.value, found.value)) else None;
      if tok.Some? {
        HonestForever(read, disk.history, tok.value, found.value);
        OnDiskForever(read, disk.history, |old(disk.history)| - 1, tok.value);
      }
    }

    /**
      Get or create: only a token that is on disk is ever returned, never the one
      just drawn for it. With no resets, nothing is returned only if the file cannot
      be written or was no token to begin with.
     */
    method EnsureToken(drawn: string, writable: bool) returns (tok: Option<string>)
      requires Valid() && IsToken(drawn)
      modifies this, disk
      ensures Valid() && old(disk.history) <= disk.history
      ensures tok.Some? ==> OnDiskSince(disk.history, |old(disk.history)| - 1, tok.value)
      ensures tok.Some? && !disk.resets ==> tok == TokenOf(disk.file)
      ensures tok.None? && !disk.resets && writable ==> old(disk.file).Some? && TokenOf(old(disk.file)) == None
    {
      var stamp;
      tok, stamp := Read();
      if tok.Some? {
        return;
      }
      Interleave();
      tok := EnsureLocked(drawn, writable);
      if tok.None? && !disk.resets && writable {
        NoTokenFromTheStart(disk.history, |old(disk.history)| - 1);
      }
    }

    // The part of EnsureToken under the process lock; other processes still act.
    method EnsureLocked(drawn: string, writable: bool) returns (tok: Option<string>)
      requires Valid() && IsToken(drawn)
      modifies this, disk
      ensures Valid() && old(disk.history) <= disk.history
      ensures forall from | from < |old(disk.history)| && tok.Some? :: OnDiskSince(disk.history, from, tok.value)
      ensures tok.Some? && !disk.resets ==> tok == TokenOf(disk.file)
      ensures tok.None? && !disk.resets && writable ==> disk.file.Some? && TokenOf(disk.file) == None
    {
      var stamp;
      tok, stamp := Read();
      if tok.Some? {
        OnDiskForever(disk.history, disk.history, |old(disk.history)| - 1, tok.value);
        return;
      }
      if !writable {
        return None;
      }
      Publish(drawn);
      ghost var published := disk.history;
      tok, stamp := Read();
      if tok.Some? {
        cache := Some((tok.value, stamp.value));
        OnDiskForever(disk.history, disk.history, |published| - 1, tok.value);
      }
    }

    /**
      Rotate: forget, delete, mint again. The token returned was published after the
      file of before was gone. `deleted` is false when the delete fails.
     */
    method ResetToken(drawn: string, deleted: bool, writable: bool) returns (tok: Option<string>)
      requires Valid() && IsToken(drawn) && disk.resets
      modifies this, disk
      ensures Valid() && old(disk.history) <= disk.history
      ensures tok.Some? ==> deleted
      ensures tok.Some? ==> OnDiskAfterGone(disk.history, |old(disk.history)|, tok.value)
    {
      cache := None;
      disk.OthersAct();
      if !deleted {
        return None;
      }
      disk.Unlink();
      ghost var gone := disk.history;
      tok := EnsureToken(drawn, writable);
      if tok.Some? {
        assert disk.history[|gone| - 1] == None;
      }
    }
  }

  lemma {:induction false} NoTokenFromTheStart(h: History, i: int)
    requires NeverReplaced(h) && OnlyMinted(h) && 0 <= i < |h|
    requires h[|h| - 1].Some? && TokenOf(h[|h| - 1]) == None
    ensures SameText(h[i], h[|h| - 1])
  {
    assert SameText(h[0], h[i]) && SameText(h[0], h[|h| - 1]);
  }

  /** With no resets all tokens ever read, by whatever process, are one: the file's. */
  lemma {:induction false} OneTokenForAll(h: History, from: int, to: int, tok: string, tok': string)
    requires NeverReplaced(h) && OnDiskSince(h, from, tok) && OnDiskSince(h, to, tok')
    ensures tok == tok' && TokenOf(h[|h| - 1]) == Some(tok)
  {
    var i :| from <= i < |h| && 0 <= i && TokenOf(h[i]) == Some(tok);
    var j :| to <= j < |h| && 0 <= j && TokenOf(h[j]) == Some(tok');
    assert SameText(h[i], h[|h| - 1]) && SameText(h[j], h[|h| - 1]);
  }

  lemma {:induction false} HonestForever(h: History, h': History, tok: string, stamp: nat)
    requires h <= h' && Honest(h, tok, stamp)
    ensures Honest(h', tok, stamp)
  {
    var i :| 0 <= i < |h| && h[i].Some? && h[i].value.stamp == stamp && TokenOf(h[i]) == Some(tok);
    assert h'[i] == h[i];
  }

  lemma {:induction false} OnDiskForever(h: History, h': History, start: int, tok: string)
    requires h <= h' && OnDiskSince(h, start, tok)
    ensures forall from | from <= start :: OnDiskSince(h', from, tok)
  {
    var i :| start <= i < |h| && 0 <= i && TokenOf(h[i]) == Some(tok);
    assert TokenOf(h'[i]) == Some(tok);
  }
}
