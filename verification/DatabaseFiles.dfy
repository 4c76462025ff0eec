/**
 The two-phase capture and restore of one SQLite triple (database, -wal, -shm) in
 scripts/deploy_server_wide_maintenance.py.

 A directory maps names to nodes.  The checksum is an arbitrary function of bytes, and
 any read or write may fail.  Restoring prepares and checks every replacement before
 it touches a live name.
 */
module DatabaseFiles {
  import opened Options
  import opened Posix

  const OWNER_READ_WRITE: Mode := {8, 7}

  /** The triple in the order in which it is walked. */
  const COUNT: nat := 3
  type Kind = k: nat | k < COUNT
  const DATABASE: Kind := 0
  const WAL: Kind := 1
  const SHM: Kind := 2

  datatype Name = Live(kind: Kind) | Temporary(kind: Kind, run: nat) | Other(id: nat)
  datatype Node = Regular(bytes: seq<Byte>, mode: Mode, uid: nat, gid: nat) | Special

  datatype Entry = Missing | Present(mode: Mode, uid: nat, gid: nat, size: nat, checksum: int)

  /** A checkpoint directory: its manifest and the copies beside it. */
  datatype Checkpoint = Checkpoint(manifest: map<Kind, Entry>, copies: map<Kind, Node>)

  type Directory = map<Name, Node>

  function EntryFor(d: Directory, k: Kind, checksum: seq<Byte> -> int): Entry {
    if Live(k) in d && d[Live(k)].Regular? then
      var n := d[Live(k)];
      Present(n.mode, n.uid, n.gid, |n.bytes|, checksum(n.bytes))
    else Missing
  }

  predicate Capturable(d: Directory) {
    Live(DATABASE) in d && forall k: Kind :: Live(k) in d ==> d[Live(k)].Regular?
  }

  /** The copies match the manifest: sizes and checksums. */
  predicate EntryIntact(c: Checkpoint, k: Kind, checksum: seq<Byte> -> int) {
    k in c.manifest && (c.manifest[k].Present? ==>
      && k in c.copies && c.copies[k].Regular?
      && |c.copies[k].bytes| == c.manifest[k].size && checksum(c.copies[k].bytes) == c.manifest[k].checksum)
  }

  predicate Intact(c: Checkpoint, checksum: seq<Byte> -> int) {
    forall k: Kind :: EntryIntact(c, k, checksum)
  }

  /** What restoring one name leaves there; creating a file clears the umask's bits. */
  function Replacement(c: Checkpoint, k: Kind, umask: Mode): Option<Node> {
    if k in c.manifest && c.manifest[k].Present? && k in c.copies && c.copies[k].Regular? then
      Some(Regular(c.copies[k].bytes, c.manifest[k].mode - umask, c.manifest[k].uid, c.manifest[k].gid))
    else None
  }

  predicate Holds(d: Directory, k: Kind, node: Option<Node>) {
    if node.Some? then Live(k) in d && d[Live(k)] == node.value else Live(k) !in d
  }

  /** Presence, bytes and owner of a live name agree; the mode agrees up to the umask. */
  ghost predicate SameFile(before: Directory, after: Directory, k: Kind, umask: Mode) {
    && (Live(k) in before <==> Live(k) in after)
    && (Live(k) in before ==>
          && before[Live(k)].Regular?
          && after[Live(k)] == before[Live(k)].(mode := before[Live(k)].mode - umask))
  }

  /** One live name is in the checkpoint as it is, in a private copy. */
  ghost predicate Copied(c: Checkpoint, d: Directory, k: Kind, checksum: seq<Byte> -> int) {
    && k in c.manifest && c.manifest[k] == EntryFor(d, k, checksum)
    && (Live(k) in d ==> d[Live(k)].Regular? && k in c.copies && c.copies[k] == Regular(d[Live(k)].bytes, OWNER_READ_WRITE, 0, 0))
  }

  ghost predicate IsCheckpointOf(c: Checkpoint, d: Directory, checksum: seq<Byte> -> int) {
    forall k: Kind :: Copied(c, d, k, checksum)
  }

  ghost predicate IsRestoreOf(d: Directory, c: Checkpoint, checksum: seq<Byte> -> int, umask: Mode) {
    forall k: Kind :: EntryIntact(c, k, checksum) && Holds(d, k, Replacement(c, k, umask))
  }

  /** Capture then restore is the identity on the triple, whatever lived there meanwhile. */
  lemma CaptureThenRestore(before: Directory, c: Checkpoint, after: Directory, checksum: seq<Byte> -> int, umask: Mode, k: Kind)
    requires IsCheckpointOf(c, before, checksum)
    requires IsRestoreOf(after, c, checksum, umask)
    ensures SameFile(before, after, k, umask)
  {
    assert EntryIntact(c, k, checksum) && Holds(after, k, Replacement(c, k, umask));
    assert Copied(c, before, k, checksum);
  }

  lemma CheckpointsAreIntact(c: Checkpoint, d: Directory, checksum: seq<Byte> -> int)
    requires IsCheckpointOf(c, d, checksum)
    ensures Intact(c, checksum)
  {
    forall k: Kind ensures EntryIntact(c, k, checksum) {
      assert Copied(c, d, k, checksum);
    }
  }

  datatype Outcome =
    | Restored
    | Rejected(at: nat)       // at failed while replacements were being prepared
    | Obstructed(at: nat)     // at is not a regular file at replacement time
    | Interrupted(at: nat)    // replacing at failed; past the last name, the directory sync did

  predicate SameEntry(before: Directory, after: Directory, n: Name) {
    (n in before <==> n in after) && (n in before ==> after[n] == before[n])
  }

  /** The directory is as it was, but for at most one new temporary. */
  ghost predicate AtMostOneExtra(before: Directory, after: Directory) {
    exists k: Kind, run: nat :: Temporary(k, run) !in before && after - {Temporary(k, run)} == before
  }

  /** Only live names may differ. */
  ghost predicate OnlyLive(before: Directory, after: Directory) {
    forall n: Name :: !n.Live? ==> SameEntry(before, after, n)
  }

  /** The names before `done` hold their replacements, the others what they held. */
  ghost predicate ReplacedUpTo(before: Directory, after: Directory, c: Checkpoint, umask: Mode, done: nat) {
    forall k: Kind :: if k < done then Holds(after, k, Replacement(c, k, umask)) else SameEntry(before, after, Live(k))
  }

  /** The first `n` replacements wait under their temporary names. */
  ghost function Staged(d: Directory, c: Checkpoint, umask: Mode, run: nat, n: nat): Directory
    requires n <= COUNT
  {
    if n == 0 then d
    else
      var e := Staged(d, c, umask, run, n - 1);
      var r := Replacement(c, n - 1, umask);
      if r.Some? then e[Temporary(n - 1, run) := r.value] else e
  }

  /** The first `n` replacements have been moved from their temporary names. */
  ghost function Moved(d: Directory, c: Checkpoint, umask: Mode, run: nat, n: nat): Directory
    requires n <= COUNT
  {
    if n == 0 then d
    else
      var e := Moved(d, c, umask, run, n - 1);
      var r := Replacement(c, n - 1, umask);
      if r.Some? then (e - {Temporary(n - 1, run)})[Live(n - 1) := r.value] else e - {Live(n - 1)}
  }

  lemma {:induction false} StagedEntry(d: Directory, c: Checkpoint, umask: Mode, run: nat, n: nat, m: Name)
    requires n <= COUNT
    ensures var e := Staged(d, c, umask, run, n);
            if m.Temporary? && m.run == run && m.kind < n && Replacement(c, m.kind, umask).Some?
            then m in e && Some(e[m]) == Replacement(c, m.kind, umask)
            else SameEntry(d, e, m)
  {
    if n > 0 { StagedEntry(d, c, umask, run, n - 1, m); }
  }

  lemma {:induction false} MovedEntry(d: Directory, c: Checkpoint, umask: Mode, run: nat, n: nat, m: Name)
    requires n <= COUNT
    ensures var e := Moved(d, c, umask, run, n);
            if m.Live? && m.kind < n then Holds(e, m.kind, Replacement(c, m.kind, umask))
            else if m.Temporary? && m.run == run && m.kind < n && Replacement(c, m.kind, umask).Some? then m !in e
            else SameEntry(d, e, m)
  {
    if n > 0 { MovedEntry(d, c, umask, run, n - 1, m); }
  }

  /** Staging and moving `n` names replaces them, leaves the other live names alone, and
      leaves exactly the temporaries of the names that were not moved. */
  lemma StagedThenMoved(d: Directory, c: Checkpoint, umask: Mode, run: nat, n: nat)
    requires n <= COUNT
    ensures ReplacedUpTo(d, Moved(Staged(d, c, umask, run, COUNT), c, umask, run, n), c, umask, n)
    ensures forall m: Name :: !m.Live? ==>
              if m.Temporary? && m.run == run && Replacement(c, m.kind, umask).Some?
              then Waits(m, Moved(Staged(d, c, umask, run, COUNT), c, umask, run, n), c, umask, n)
              else SameEntry(d, Moved(Staged(d, c, umask, run, COUNT), c, umask, run, n), m)
  {
    var e := Staged(d, c, umask, run, COUNT);
    forall k: Kind
      ensures if k < n then Holds(Moved(e, c, umask, run, n), k, Replacement(c, k, umask))
              else SameEntry(d, Moved(e, c, umask, run, n), Live(k))
    {
      StagedEntry(d, c, umask, run, COUNT, Live(k));
      MovedEntry(e, c, umask, run, n, Live(k));
    }
    forall m: Name | !m.Live?
      ensures if m.Temporary? && m.run == run && Replacement(c, m.kind, umask).Some?
              then Waits(m, Moved(e, c, umask, run, n), c, umask, n)
              else SameEntry(d, Moved(e, c, umask, run, n), m)
    {
      StagedEntry(d, c, umask, run, COUNT, m);
      MovedEntry(e, c, umask, run, n, m);
    }
  }

  ghost predicate Waits(m: Name, d: Directory, c: Checkpoint, umask: Mode, n: nat)
    requires m.Temporary?
  {
    if m.kind < n then m !in d else m in d && Some(d[m]) == Replacement(c, m.kind, umask)
  }

  ghost predicate Unused(d: Directory, serial: nat) {
    forall n: Name :: n.Temporary? && n.run >= serial ==> n !in d
  }

  class Triple {
    const checksum: seq<Byte> -> int
    const umask: Mode
    const fails: nat -> bool             // the n-th file operation fails
    var tick: nat
    var serial: nat                      // later temporary names are all unused
    var files: Directory

    constructor (checksum: seq<Byte> -> int, umask: Mode, fails: nat -> bool, files: Directory, serial: nat)
      requires Unused(files, serial)
      ensures Valid() && this.files == files && this.checksum == checksum && this.umask == umask
    {
      this.checksum, this.umask, this.fails, this.files, this.serial := checksum, umask, fails, files, serial;
      tick := 0;
    }

    ghost predicate Valid()
      reads this
    {
      Unused(files, serial)
    }

    ghost predicate Reliable(from: nat) {
      forall n :: from <= n ==> !fails(n)
    }

    method Attempt() returns (ok: bool)
      modifies this`tick
      ensures tick == old(tick) + 1 && ok == !fails(old(tick))
    {
      ok := !fails(tick);
      tick := tick + 1;
    }

    /** _capture_database_files. */
    method Capture() returns (ok: bool, c: Checkpoint)
      modifies this`tick
      ensures ok ==> Capturable(files) && IsCheckpointOf(c, files, checksum)
      ensures old(Reliable(tick)) && Capturable(files) ==> ok
    {
      c := Checkpoint(map[], map[]);
      var i := 0;
      while i < COUNT
        invariant 0 <= i <= COUNT && old(tick) <= tick
        invariant forall k: Kind :: k < i ==> Copied(c, files, k, checksum)
      {
        var k: Kind := i;
        ghost var earlier := c;
        if Live(k) !in files {
          c := c.(manifest := c.manifest[k := Missing]);
        } else {
          var node := files[Live(k)];
          if !node.Regular? { return false, c; }
          ok := Attempt();
          if !ok { return false, c; }
          c := Checkpoint(c.manifest[k := Present(node.mode, node.uid, node.gid, |node.bytes|, checksum(node.bytes))],
                          c.copies[k := Regular(node.bytes, OWNER_READ_WRITE, 0, 0)]);
        }
        forall k: Kind | k <= i ensures Copied(c, files, k, checksum) {
          if k < i { assert Copied(earlier, files, k, checksum); }
        }
        i := i + 1;
      }
      assert forall k: Kind :: Copied(c, files, k, checksum);
      assert forall k: Kind :: Live(k) in files ==> Copied(c, files, k, checksum);
      assert Copied(c, files, DATABASE, checksum);
      ok := c.manifest[DATABASE].Present?;
    }

    /** The chunked copy: reads and writes may be short, no byte is lost or repeated. */
    method CopyBytes(source: seq<Byte>, target: Name) returns (ok: bool, hashed: seq<Byte>)
      requires target in files && files[target].Regular? && files[target].bytes == []
      modifies this`tick, this`files
      ensures old(tick) <= tick
      ensures files.Keys == old(files).Keys && files[target].Regular?
      ensures files == old(files)[target := old(files)[target].(bytes := files[target].bytes)]
      ensures ok ==> files[target].bytes == source && hashed == source
      ensures old(Reliable(tick)) ==> ok
    {
      hashed := [];
      ghost var start := files;
      while |hashed| < |source|
        invariant old(tick) <= tick && |hashed| <= |source| && hashed == source[..|hashed|]
        invariant files == start[target := start[target].(bytes := hashed)]
        decreases |source| - |hashed|
      {
        ok := Attempt();
        if !ok { return; }
        var size :| 0 < size <= |source| - |hashed|;
        var chunk := source[|hashed|..|hashed| + size];
        var offset := 0;
        assert hashed + chunk[..0] == hashed;
        while offset < |chunk|
          invariant old(tick) <= tick && 0 <= offset <= |chunk|
          invariant files == start[target := start[target].(bytes := hashed + chunk[..offset])]
        {
          ok := Attempt();
          if !ok { return; }
          var written :| 0 < written <= |chunk| - offset;
          var bytes := files[target].bytes + chunk[offset..offset + written];
          assert bytes == hashed + chunk[..offset + written];
          files := files[target := files[target].(bytes := bytes)];
          offset := offset + written;
        }
        hashed := hashed + chunk;
        assert chunk[..offset] == chunk;
      }
      ok := Attempt();                                   // fsync
    }

    /** Writes and checks one replacement under a new temporary name. */
    method Prepare(c: Checkpoint, k: Kind, run: nat) returns (ok: bool)
      requires k in c.manifest && c.manifest[k].Present? && Temporary(k, run) !in files
      modifies this`tick, this`files
      ensures old(tick) <= tick
      ensures ok ==> EntryIntact(c, k, checksum)
      ensures ok ==> files == old(files)[Temporary(k, run) := Replacement(c, k, umask).value]
      ensures !ok ==> files - {Temporary(k, run)} == old(files)
      ensures old(Reliable(tick)) && EntryIntact(c, k, checksum) ==> ok
    {
      var entry := c.manifest[k];
      if k !in c.copies || !c.copies[k].Regular? || |c.copies[k].bytes| != entry.size { return false; }
      ok := Attempt();
      if !ok { return; }
      files := files[Temporary(k, run) := Regular([], entry.mode - umask, entry.uid, entry.gid)];
      var hashed;
      ok, hashed := CopyBytes(c.copies[k].bytes, Temporary(k, run));
      if !ok { return; }
      ok := |hashed| == entry.size && checksum(hashed) == entry.checksum;
    }

    /** The `finally` clause: remove prepared temporaries that were not moved into place. */
    method Discard(prepared: set<Kind>, run: nat)
      modifies this`files
      ensures files == old(files) - Temporaries(prepared, run)
    {
      files := files - Temporaries(prepared, run);
    }

    /** First half: every replacement is prepared and verified, no live name is touched.
        A failure leaves, besides `prepared`, at most the temporary that was being written. */
    method PrepareAll(c: Checkpoint, run: nat) returns (done: nat, prepared: set<Kind>)
      requires Unused(files, run)
      modifies this`tick, this`files
      ensures done <= COUNT && old(tick) <= tick
      ensures prepared == PresentBelow(c, umask, done)
      ensures done == COUNT ==> files == Staged(old(files), c, umask, run, COUNT) && Intact(c, checksum)
      ensures done < COUNT ==> files - {Temporary(done, run)} == Staged(old(files), c, umask, run, done)
      ensures old(Reliable(tick)) && Intact(c, checksum) ==> done == COUNT
    {
      done, prepared := 0, {};
      while done < COUNT
        invariant done <= COUNT && old(tick) <= tick
        invariant prepared == PresentBelow(c, umask, done)
        invariant files == Staged(old(files), c, umask, run, done)
        invariant forall k: Kind :: k < done ==> EntryIntact(c, k, checksum)
      {
        StagedEntry(old(files), c, umask, run, done, Temporary(done, run));
        assert Intact(c, checksum) ==> EntryIntact(c, done, checksum);
        if done !in c.manifest { return; }
        if c.manifest[done].Present? {
          var ok := Prepare(c, done, run);
          if !ok { return; }
          prepared := prepared + {done};
        }
        done := done + 1;
      }
    }

    /** Second half: the verified replacements are moved into place, in order.  A replacement
        leaves `waiting` before it is moved, so one that cannot be moved is forgotten. */
    method MoveAll(c: Checkpoint, run: nat, prepared: set<Kind>)
      returns (done: nat, waiting: set<Kind>, unsafe: bool)
      requires prepared == PresentBelow(c, umask, COUNT)
      requires forall k: Kind :: k in prepared ==>
                 Temporary(k, run) in files && Some(files[Temporary(k, run)]) == Replacement(c, k, umask)
      modifies this`tick, this`files
      ensures done <= COUNT && old(tick) <= tick
      ensures files == Moved(old(files), c, umask, run, done)
      ensures waiting == prepared - PresentBelow(c, umask, if unsafe || done == COUNT then done else done + 1)
      ensures unsafe ==> done < COUNT && Live(done) in files && files[Live(done)].Special?
      ensures old(Reliable(tick)) && done < COUNT ==> unsafe
    {
      done, waiting, unsafe := 0, prepared, false;
      while done < COUNT
        invariant done <= COUNT && old(tick) <= tick && !unsafe
        invariant files == Moved(old(files), c, umask, run, done)
        invariant waiting == prepared - PresentBelow(c, umask, done)
      {
        if Live(done) in files && !files[Live(done)].Regular? {
          unsafe := true;
          return;
        }
        var ok := Attempt();
        var temporary := Temporary(done, run);
        MovedEntry(old(files), c, umask, run, done, temporary);
        if done in waiting {
          waiting := waiting - {done};
          if !ok { return; }
          files := (files - {temporary})[Live(done) := files[temporary]];
        } else {
          if !ok { return; }
          files := files - {Live(done)};
        }
        done := done + 1;
      }
    }

    /** _restore_database_files. */
    method Restore(c: Checkpoint) returns (outcome: Outcome)
      requires Valid()
      modifies this`tick, this`files, this`serial
      ensures Valid()
      ensures outcome.Restored? ==> IsRestoreOf(files, c, checksum, umask) && OnlyLive(old(files), files)
      // A size or checksum mismatch touches no live name and leaves at most one temporary.
      ensures !Intact(c, checksum) ==> outcome.Rejected?
      ensures outcome.Rejected? ==> AtMostOneExtra(old(files), files)
      // Past the first half the names are replaced in order.
      ensures outcome.Obstructed? ==>
                && outcome.at < COUNT && OnlyLive(old(files), files)
                && ReplacedUpTo(old(files), files, c, umask, outcome.at)
                && Live(outcome.at) in files && files[Live(outcome.at)].Special?
      // A replacement that cannot be moved stays behind, verified, under its temporary name.
      ensures outcome.Interrupted? ==> outcome.at <= COUNT && ReplacedUpTo(old(files), files, c, umask, outcome.at)
      ensures outcome.Interrupted? ==> LeftBehind(old(files), files, c, umask, outcome.at)
      ensures old(Reliable(tick)) && Intact(c, checksum) ==> outcome.Restored? || outcome.Obstructed?
    {
      var run := serial;
      serial := serial + 1;
      var done, prepared := PrepareAll(c, run);
      ghost var middle := files;
      if done < COUNT {
        Discard(prepared, run);
        StagedThenDiscarded(old(files), c, umask, run, done, middle);
        return Rejected(done);
      }
      forall k: Kind | k in prepared
        ensures Temporary(k, run) in files && Some(files[Temporary(k, run)]) == Replacement(c, k, umask)
      {
        StagedEntry(old(files), c, umask, run, COUNT, Temporary(k, run));
      }
      var moved, waiting, unsafe := MoveAll(c, run, prepared);
      Discard(waiting, run);
      MovedThenDiscarded(old(files), c, umask, run, moved, if unsafe || moved == COUNT then moved else moved + 1, files);
      if moved < COUNT { return if unsafe then Obstructed(moved) else Interrupted(moved); }
      var ok := Attempt();                               // fsync of the directory
      outcome := if ok then Restored else Interrupted(moved);
    }
  }

  /** The kinds before `n` that have a replacement. */
  ghost function PresentBelow(c: Checkpoint, umask: Mode, n: nat): set<Kind>
    requires n <= COUNT
  {
    set k: Kind | k < n && Replacement(c, k, umask).Some?
  }

  function Temporaries(kinds: set<Kind>, run: nat): set<Name> {
    set k | k in kinds :: Temporary(k, run)
  }

  /** Besides the live names, only the replacement that could not be moved is new. */
  ghost predicate LeftBehind(before: Directory, after: Directory, c: Checkpoint, umask: Mode, at: nat)
    requires at <= COUNT
  {
    if at < COUNT && Replacement(c, at, umask).Some? then
      exists run: nat :: Temporary(at, run) !in before && Temporary(at, run) in after
                         && Some(after[Temporary(at, run)]) == Replacement(c, at, umask)
                         && OnlyLive(before, after - {Temporary(at, run)})
    else OnlyLive(before, after)
  }

  lemma StagedThenDiscarded(d: Directory, c: Checkpoint, umask: Mode, run: nat, n: nat, e: Directory)
    requires n < COUNT && Unused(d, run)
    requires e - {Temporary(n, run)} == Staged(d, c, umask, run, n)
    ensures AtMostOneExtra(d, e - Temporaries(PresentBelow(c, umask, n), run))
    ensures Unused(e - Temporaries(PresentBelow(c, umask, n), run), run + 1)
  {
    var f := e - Temporaries(PresentBelow(c, umask, n), run);
    var g := f - {Temporary(n, run)};
    forall m: Name ensures SameEntry(d, g, m) {
      StagedEntry(d, c, umask, run, n, m);
      if m.Temporary? && m.run == run && m.kind < n && Replacement(c, m.kind, umask).Some? {
        assert m.kind in PresentBelow(c, umask, n);
        assert m in Temporaries(PresentBelow(c, umask, n), run);
      }
      assert m in Staged(d, c, umask, run, n) <==> m in e && m != Temporary(n, run);
    }
    assert forall m :: m in d ==> SameEntry(d, g, m);
    assert forall m :: m in g ==> SameEntry(d, g, m);
    assert g == d;
    forall m: Name | m.Temporary? && m.run >= run + 1 ensures m !in f {
      assert SameEntry(d, g, m);
    }
  }

  lemma MovedThenDiscarded(d: Directory, c: Checkpoint, umask: Mode, run: nat, n: nat, w: nat, e: Directory)
    requires n <= COUNT && n <= w <= n + 1 && w <= COUNT && Unused(d, run)
    requires e == Moved(Staged(d, c, umask, run, COUNT), c, umask, run, n)
                  - Temporaries(PresentBelow(c, umask, COUNT) - PresentBelow(c, umask, w), run)
    ensures ReplacedUpTo(d, e, c, umask, n) && Unused(e, run + 1)
    ensures w == n ==> OnlyLive(d, e)
    ensures w == n + 1 ==> LeftBehind(d, e, c, umask, n)
  {
    var f := Moved(Staged(d, c, umask, run, COUNT), c, umask, run, n);
    var dropped := PresentBelow(c, umask, COUNT) - PresentBelow(c, umask, w);
    StagedThenMoved(d, c, umask, run, n);
    forall m: Name | !m.Temporary? || m.run != run || m.kind < w || Replacement(c, m.kind, umask).None?
      ensures SameEntry(f, e, m)
    {
      assert m !in Temporaries(dropped, run);
    }
    forall m: Name | m.Temporary? && m.run == run && m.kind >= w && Replacement(c, m.kind, umask).Some?
      ensures m !in e
    {
      assert m.kind in dropped;
    }
    forall k: Kind
      ensures if k < n then Holds(e, k, Replacement(c, k, umask)) else SameEntry(d, e, Live(k))
    {
      assert SameEntry(f, e, Live(k));
    }
    forall m: Name | !m.Live? && (w == n || m != Temporary(n, run) || Replacement(c, n, umask).None?)
      ensures SameEntry(d, e, m)
    {
      if m.Temporary? && m.run == run && Replacement(c, m.kind, umask).Some? {
        assert Waits(m, f, c, umask, n);
      }
    }
    if w == n + 1 && Replacement(c, n, umask).Some? {
      assert Waits(Temporary(n, run), f, c, umask, n) && SameEntry(f, e, Temporary(n, run));
      forall m: Name | !m.Live? ensures SameEntry(d, e - {Temporary(n, run)}, m) {
        assert m != Temporary(n, run) ==> SameEntry(d, e, m);
      }
    }
    forall m: Name | m.Temporary? && m.run >= run + 1 ensures m !in e {
      assert SameEntry(d, e, m);
    }
  }
}
