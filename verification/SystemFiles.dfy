/**
 Installing system files and undoing it in scripts/install_server_wide_coordinator.py:
 install_payload, restore_installed_system_file, and the part of apply_install and
 rollback_install that walks the journal of system files forwards and backwards.

 The host maps paths to nodes; a file keeps its content, mode and owner.  The digest is
 an arbitrary function of content.  A file operation may fail before or after its effect,
 and the whole run may end between any two of them.
 */
module SystemFiles {
  import opened Faults
  import opened Options
  import opened Posix

  type Path = nat
  type Digest = int

  datatype Node =
    | File(bytes: seq<Byte>, mode: Mode, uid: nat, gid: nat)
    | Dangling                           // a symbolic link to nowhere
    | Other                              // a directory, a link to something, a device

  type Files = map<Path, Node>

  const INSTALLED_MODE: Mode := {8, 7, 5, 2}

  datatype Before = Before(sha: Digest, mode: Mode, uid: nat, gid: nat)
  datatype Entry = Entry(destination: Path, installed: Digest, before: Option<Before>)

  /** One file to install. */
  datatype Item = Item(destination: Path, payload: seq<Byte>)

  /** A dangling link does not exist for the code that asks. */
  predicate Exists(files: Files, p: Path) {
    p in files && !files[p].Dangling?
  }

  predicate Replaceable(n: Node) {
    n.File? && n.uid == 0 && n.gid == 0 && 4 !in n.mode && 1 !in n.mode
  }

  predicate Installable(files: Files, p: Path) {
    Exists(files, p) ==> Replaceable(files[p])
  }

  function Installed(payload: seq<Byte>): Node {
    File(payload, INSTALLED_MODE, 0, 0)
  }

  function EntryFor(files: Files, item: Item, digest: seq<Byte> -> Digest): Entry {
    Entry(item.destination, digest(item.payload),
          if Exists(files, item.destination) && files[item.destination].File? then
            var n := files[item.destination];
            Some(Before(digest(n.bytes), n.mode, n.uid, n.gid))
          else None)
  }

  // ---- The first n items, one after the other ----

  ghost function After(files: Files, plan: seq<Item>, n: nat): Files
    requires n <= |plan|
  {
    if n == 0 then files
    else After(files, plan, n - 1)[plan[n - 1].destination := Installed(plan[n - 1].payload)]
  }

  /** The backup of a path is overwritten by every later installation of that path. */
  ghost function Backups(files: Files, backups: Files, plan: seq<Item>, n: nat): Files
    requires n <= |plan|
  {
    if n == 0 then backups
    else
      var f, b, p := After(files, plan, n - 1), Backups(files, backups, plan, n - 1), plan[n - 1].destination;
      if Exists(f, p) then b[p := f[p]] else b
  }

  ghost function Entries(files: Files, plan: seq<Item>, n: nat, digest: seq<Byte> -> Digest): (r: seq<Entry>)
    requires n <= |plan|
    ensures |r| == n
  {
    if n == 0 then []
    else Entries(files, plan, n - 1, digest) + [EntryFor(After(files, plan, n - 1), plan[n - 1], digest)]
  }

  lemma {:induction false} EntryAt(files: Files, plan: seq<Item>, n: nat, digest: seq<Byte> -> Digest, i: nat)
    requires i < n <= |plan|
    ensures Entries(files, plan, n, digest)[i] == EntryFor(After(files, plan, i), plan[i], digest)
  {
    if i < n - 1 { EntryAt(files, plan, n - 1, digest, i); }
  }

  ghost predicate AllInstallable(files: Files, plan: seq<Item>, n: nat)
    requires n <= |plan|
  {
    forall i :: 0 <= i < n ==> InstallableAt(files, plan, i)
  }

  ghost predicate InstallableAt(files: Files, plan: seq<Item>, i: nat)
    requires i < |plan|
  {
    Installable(After(files, plan, i), plan[i].destination)
  }

  ghost predicate Distinct(plan: seq<Item>) {
    forall i, j :: 0 <= i < j < |plan| ==> plan[i].destination != plan[j].destination
  }

  // ---- Undoing the last entries, one after the other ----

  /** The target still holds what was installed; only its content is compared. */
  predicate Unchanged(files: Files, e: Entry, digest: seq<Byte> -> Digest) {
    e.destination in files && files[e.destination].File? && digest(files[e.destination].bytes) == e.installed
  }

  predicate BackedUp(backups: Files, e: Entry, digest: seq<Byte> -> Digest) {
    e.before.Some? ==>
      e.destination in backups && backups[e.destination].File? && digest(backups[e.destination].bytes) == e.before.value.sha
  }

  predicate Undoable(files: Files, backups: Files, e: Entry, digest: seq<Byte> -> Digest) {
    Unchanged(files, e, digest) && BackedUp(backups, e, digest)
  }

  function Undone(files: Files, backups: Files, e: Entry): Files {
    if e.before.Some? && e.destination in backups && backups[e.destination].File? then
      files[e.destination := File(backups[e.destination].bytes, e.before.value.mode, e.before.value.uid, e.before.value.gid)]
    else files - {e.destination}
  }

  /** The files after undoing `entries[k..]`, last entry first. */
  ghost function Rewind(files: Files, backups: Files, entries: seq<Entry>, k: nat): Files
    requires k <= |entries|
    decreases |entries| - k
  {
    if k == |entries| then files else Undone(Rewind(files, backups, entries, k + 1), backups, entries[k])
  }

  /** No entry of `entries[k..]` is refused on the way. */
  ghost predicate Clears(files: Files, backups: Files, entries: seq<Entry>, k: nat, digest: seq<Byte> -> Digest)
    requires k <= |entries|
  {
    forall i :: k <= i < |entries| ==> ClearsAt(files, backups, entries, i, digest)
  }

  ghost predicate ClearsAt(files: Files, backups: Files, entries: seq<Entry>, i: nat, digest: seq<Byte> -> Digest)
    requires i < |entries|
  {
    Undoable(Rewind(files, backups, entries, i + 1), backups, entries[i], digest)
  }

  // ---- The round trip ----

  ghost predicate IsDestination(plan: seq<Item>, n: nat, p: Path)
    requires n <= |plan|
  {
    exists i :: 0 <= i < n && plan[i].destination == p
  }

  /** What undoing the first `n` items leaves: dangling links that were replaced are lost. */
  ghost function Restored(files: Files, plan: seq<Item>, n: nat): Files
    requires n <= |plan|
  {
    map p | p in files && !(files[p].Dangling? && IsDestination(plan, n, p)) :: files[p]
  }

  lemma {:induction false} AfterElsewhere(files: Files, plan: seq<Item>, n: nat, p: Path)
    requires n <= |plan| && forall i :: 0 <= i < n ==> plan[i].destination != p
    ensures p in After(files, plan, n) <==> p in files
    ensures p in files ==> After(files, plan, n)[p] == files[p]
  {
    if n > 0 { AfterElsewhere(files, plan, n - 1, p); }
  }

  lemma {:induction false} AfterAt(files: Files, plan: seq<Item>, n: nat, i: nat)
    requires i < n <= |plan| && Distinct(plan)
    ensures plan[i].destination in After(files, plan, n)
    ensures After(files, plan, n)[plan[i].destination] == Installed(plan[i].payload)
  {
    if i < n - 1 {
      AfterAt(files, plan, n - 1, i);
      assert plan[n - 1].destination != plan[i].destination;
    }
  }

  /** While destinations are distinct, each keeps the backup of what it held. */
  lemma {:induction false} BackupAt(files: Files, backups: Files, plan: seq<Item>, n: nat, i: nat)
    requires i < n <= |plan| && Distinct(plan) && Exists(After(files, plan, i), plan[i].destination)
    ensures plan[i].destination in Backups(files, backups, plan, n)
    ensures Backups(files, backups, plan, n)[plan[i].destination] == After(files, plan, i)[plan[i].destination]
  {
    if i < n - 1 {
      BackupAt(files, backups, plan, n - 1, i);
      assert plan[n - 1].destination != plan[i].destination;
    }
  }

  /** One installation and its undoing. */
  lemma StepBack(f: Files, b: Files, item: Item, digest: seq<Byte> -> Digest)
    requires Installable(f, item.destination) && !(item.destination in f && f[item.destination].Dangling?)
    requires Exists(f, item.destination) ==> item.destination in b && b[item.destination] == f[item.destination]
    ensures var g, e := f[item.destination := Installed(item.payload)], EntryFor(f, item, digest);
            Undoable(g, b, e, digest) && Undone(g, b, e) == f
  {
    var g, e := f[item.destination := Installed(item.payload)], EntryFor(f, item, digest);
    if Exists(f, item.destination) {
      assert Undone(g, b, e) == g[item.destination := f[item.destination]];
    }
  }

  ghost predicate NoneDangling(files: Files, plan: seq<Item>, n: nat)
    requires n <= |plan|
  {
    forall i :: 0 <= i < n ==> !(plan[i].destination in files && files[plan[i].destination].Dangling?)
  }

  lemma StepBackAt(files: Files, backups: Files, plan: seq<Item>, n: nat, k: nat, digest: seq<Byte> -> Digest)
    requires k < n <= |plan| && Distinct(plan) && AllInstallable(files, plan, n) && NoneDangling(files, plan, n)
    ensures var e := EntryFor(After(files, plan, k), plan[k], digest);
            && Undoable(After(files, plan, k + 1), Backups(files, backups, plan, n), e, digest)
            && Undone(After(files, plan, k + 1), Backups(files, backups, plan, n), e) == After(files, plan, k)
  {
    AfterElsewhere(files, plan, k, plan[k].destination);
    if Exists(After(files, plan, k), plan[k].destination) { BackupAt(files, backups, plan, n, k); }
    assert InstallableAt(files, plan, k);
    StepBack(After(files, plan, k), Backups(files, backups, plan, n), plan[k], digest);
  }

  /** Without dangling links, undoing down to `k` gives exactly the files after `k` items. */
  lemma {:induction false} RewindIsExact(files: Files, backups: Files, plan: seq<Item>, n: nat, k: nat, digest: seq<Byte> -> Digest)
    requires k <= n <= |plan| && Distinct(plan) && AllInstallable(files, plan, n) && NoneDangling(files, plan, n)
    ensures Rewind(After(files, plan, n), Backups(files, backups, plan, n), Entries(files, plan, n, digest), k)
            == After(files, plan, k)
    decreases n - k
  {
    if k < n {
      RewindIsExact(files, backups, plan, n, k + 1, digest);
      EntryAt(files, plan, n, digest, k);
      StepBackAt(files, backups, plan, n, k, digest);
    }
  }

  lemma NothingRefused(files: Files, backups: Files, plan: seq<Item>, n: nat, digest: seq<Byte> -> Digest)
    requires n <= |plan| && Distinct(plan) && AllInstallable(files, plan, n) && NoneDangling(files, plan, n)
    ensures Clears(After(files, plan, n), Backups(files, backups, plan, n), Entries(files, plan, n, digest), 0, digest)
  {
    var f, b, e := After(files, plan, n), Backups(files, backups, plan, n), Entries(files, plan, n, digest);
    forall i | 0 <= i < n ensures ClearsAt(f, b, e, i, digest) {
      RewindIsExact(files, backups, plan, n, i + 1, digest);
      EntryAt(files, plan, n, digest, i);
      StepBackAt(files, backups, plan, n, i, digest);
    }
  }

  /** Until its turn comes a destination holds what it held, so removing the dangling links
      first changes no entry and no backup. */
  lemma {:induction false} LinksDoNotMatter(files: Files, f: Files, backups: Files, plan: seq<Item>, n: nat, m: nat, digest: seq<Byte> -> Digest)
    requires m <= n <= |plan| && Distinct(plan) && f == Restored(files, plan, n)
    ensures Backups(f, backups, plan, m) == Backups(files, backups, plan, m)
    ensures Entries(f, plan, m, digest) == Entries(files, plan, m, digest)
    ensures AllInstallable(files, plan, m) ==> AllInstallable(f, plan, m)
  {
    if m > 0 {
      var q := plan[m - 1].destination;
      LinksDoNotMatter(files, f, backups, plan, n, m - 1, digest);
      AfterElsewhere(files, plan, m - 1, q);
      AfterElsewhere(f, plan, m - 1, q);
      assert IsDestination(plan, n, q);
      assert InstallableAt(files, plan, m - 1) ==> InstallableAt(f, plan, m - 1);
    }
  }

  lemma SameAfter(files: Files, plan: seq<Item>, n: nat)
    requires n <= |plan| && Distinct(plan)
    ensures After(Restored(files, plan, n), plan, n) == After(files, plan, n)
  {
    var f := Restored(files, plan, n);
    var x, y := After(f, plan, n), After(files, plan, n);
    forall p: Path ensures (p in x <==> p in y) && (p in x && p in y ==> x[p] == y[p]) {
      if IsDestination(plan, n, p) {
        var i :| 0 <= i < n && plan[i].destination == p;
        AfterAt(files, plan, n, i);
        AfterAt(f, plan, n, i);
      } else {
        AfterElsewhere(files, plan, n, p);
        AfterElsewhere(f, plan, n, p);
      }
    }
  }

  /** Rollback is never refused, and it gives back every file exactly when no destination
      was a dangling link. */
  lemma RoundTrip(files: Files, backups: Files, plan: seq<Item>, n: nat, digest: seq<Byte> -> Digest)
    requires n <= |plan| && Distinct(plan) && AllInstallable(files, plan, n)
    ensures var f, b, e := After(files, plan, n), Backups(files, backups, plan, n), Entries(files, plan, n, digest);
            Clears(f, b, e, 0, digest) && Rewind(f, b, e, 0) == Restored(files, plan, n)
    ensures Restored(files, plan, n) == files <==> NoneDangling(files, plan, n)
  {
    var f := Restored(files, plan, n);
    forall i | 0 <= i < n ensures !(plan[i].destination in f && f[plan[i].destination].Dangling?) {
      assert IsDestination(plan, n, plan[i].destination);
    }
    LinksDoNotMatter(files, f, backups, plan, n, n, digest);
    SameAfter(files, plan, n);
    RewindIsExact(f, backups, plan, n, 0, digest);
    NothingRefused(f, backups, plan, n, digest);
    if NoneDangling(files, plan, n) {
      assert forall p :: p in files ==> p in f;
    } else {
      var i :| 0 <= i < n && plan[i].destination in files && files[plan[i].destination].Dangling?;
      assert IsDestination(plan, n, plan[i].destination);
      assert plan[i].destination !in f;
    }
  }

  // ---- Interference ----

  predicate SameAt(f: Files, g: Files, p: Path) {
    (p in f <==> p in g) && (p in f ==> f[p] == g[p])
  }

  ghost predicate DistinctEntries(entries: seq<Entry>) {
    forall i, j :: 0 <= i < j < |entries| ==> entries[i].destination != entries[j].destination
  }

  lemma {:induction false} RewindElsewhere(files: Files, backups: Files, entries: seq<Entry>, k: nat, p: Path)
    requires k <= |entries| && forall i :: k <= i < |entries| ==> entries[i].destination != p
    ensures p in Rewind(files, backups, entries, k) <==> p in files
    ensures p in files ==> Rewind(files, backups, entries, k)[p] == files[p]
    decreases |entries| - k
  {
    if k < |entries| { RewindElsewhere(files, backups, entries, k + 1, p); }
  }

  /** Whatever others did meanwhile, rollback goes through exactly when every target still
      holds what was installed and every backup what was saved; and it passes no target
      that does not. */
  lemma RefusedExactlyWhenChanged(files: Files, backups: Files, entries: seq<Entry>, k: nat, digest: seq<Byte> -> Digest)
    requires k <= |entries| && DistinctEntries(entries)
    ensures Clears(files, backups, entries, k, digest) <==>
            forall i :: k <= i < |entries| ==> Undoable(files, backups, entries[i], digest)
  {
    forall i | k <= i < |entries|
      ensures ClearsAt(files, backups, entries, i, digest) <==> Undoable(files, backups, entries[i], digest)
    {
      RewindElsewhere(files, backups, entries, i + 1, entries[i].destination);
    }
  }

  /** A changed target is never overwritten: wherever rollback stops, it holds what it held. */
  lemma ChangedTargetIsKept(files: Files, backups: Files, entries: seq<Entry>, k: nat, i: nat, digest: seq<Byte> -> Digest)
    requires k <= |entries| && DistinctEntries(entries) && Clears(files, backups, entries, k, digest)
    requires i < |entries| && !Unchanged(files, entries[i], digest)
    ensures i < k
    ensures var r, p := Rewind(files, backups, entries, k), entries[i].destination;
            (p in r <==> p in files) && (p in r ==> r[p] == files[p])
  {
    RefusedExactlyWhenChanged(files, backups, entries, k, digest);
    RewindElsewhere(files, backups, entries, k, entries[i].destination);
  }

  /** A rollback that was cut short, or that finished, cannot be repeated: its first entry
      is refused, unless that file held the installed content before. */
  lemma RepeatedExactlyWhenContentWasThere(files: Files, backups: Files, entries: seq<Entry>, k: nat, digest: seq<Byte> -> Digest)
    requires k < |entries| && DistinctEntries(entries) && Clears(files, backups, entries, k, digest)
    ensures var last := entries[|entries| - 1];
            Undoable(Rewind(files, backups, entries, k), backups, last, digest)
            <==> (last.before.Some? && last.before.value.sha == last.installed)
  {
    var n := |entries| - 1;
    assert ClearsAt(files, backups, entries, n, digest);
    StaysUndone(files, backups, entries, k);
    assert Rewind(files, backups, entries, n) == Undone(Rewind(files, backups, entries, n + 1), backups, entries[n]);
  }

  lemma {:induction false} StaysUndone(files: Files, backups: Files, entries: seq<Entry>, k: nat)
    requires k < |entries| && DistinctEntries(entries)
    ensures var p, n := entries[|entries| - 1].destination, |entries| - 1;
            && (p in Rewind(files, backups, entries, k) <==> p in Rewind(files, backups, entries, n))
            && (p in Rewind(files, backups, entries, k) ==>
                  Rewind(files, backups, entries, k)[p] == Rewind(files, backups, entries, n)[p])
    decreases |entries| - k
  {
    if k < |entries| - 1 {
      StaysUndone(files, backups, entries, k + 1);
      assert entries[k].destination != entries[|entries| - 1].destination;
    }
  }

  predicate HeldTheSame(e: Entry) {
    e.before.Some? && e.before.value.sha == e.installed
  }

  /** The whole of a rollback that came down to `k` goes through again exactly when each of
      the files it undid held the installed content before. */
  lemma RepeatsExactlyWhenAllHeldTheSame(files: Files, backups: Files, entries: seq<Entry>, k: nat, digest: seq<Byte> -> Digest)
    requires k <= |entries| && DistinctEntries(entries) && Clears(files, backups, entries, k, digest)
    ensures Clears(Rewind(files, backups, entries, k), backups, entries, k, digest) <==>
            forall i :: k <= i < |entries| ==> HeldTheSame(entries[i])
  {
    var r := Rewind(files, backups, entries, k);
    RefusedExactlyWhenChanged(r, backups, entries, k, digest);
    forall i | k <= i < |entries|
      ensures Undoable(r, backups, entries[i], digest) <==> HeldTheSame(entries[i])
    {
      assert ClearsAt(files, backups, entries, i, digest);
      UndoneStays(files, backups, entries, k, i);
    }
  }

  lemma {:induction false} UndoneStays(files: Files, backups: Files, entries: seq<Entry>, k: nat, i: nat)
    requires k <= i < |entries| && DistinctEntries(entries)
    ensures SameAt(Rewind(files, backups, entries, k), Rewind(files, backups, entries, i), entries[i].destination)
    decreases i - k
  {
    if k < i {
      UndoneStays(files, backups, entries, k + 1, i);
      assert entries[k].destination != entries[i].destination;
    }
  }

  // ---- Rollbacks that fail half way ----

  predicate HeldTheSameFrom(entries: seq<Entry>, from: nat) {
    forall i :: from <= i < |entries| ==> HeldTheSame(entries[i])
  }

  /** How the file of entry `i` stands: undone from `from` on, else as installed; the undo of
      those in `cuts` failed half way and left anything. */
  ghost predicate StandsAt(files: Files, backups: Files, entries: seq<Entry>, from: nat, cuts: set<nat>, i: nat,
                           digest: seq<Byte> -> Digest)
    requires i < |entries|
  {
    var e := entries[i];
    && BackedUp(backups, e, digest)
    && (if i in cuts then i < from || HeldTheSame(e)
        else if i < from then Unchanged(files, e, digest)
        else SameAt(files, Undone(files, backups, e), e.destination))
  }

  /** What any number of rollbacks, each stopped anywhere, made of the files. */
  ghost predicate PartWay(files: Files, backups: Files, entries: seq<Entry>, from: nat, cuts: set<nat>, digest: seq<Byte> -> Digest) {
    from <= |entries| && forall i :: 0 <= i < |entries| ==> StandsAt(files, backups, entries, from, cuts, i, digest)
  }

  ghost predicate Intact(files: Files, entries: seq<Entry>, cuts: set<nat>, digest: seq<Byte> -> Digest) {
    forall i :: 0 <= i < |entries| && i in cuts ==> Unchanged(files, entries[i], digest)
  }

  /** Each file undone held the installed content before, and each file whose undo failed half
      way still reads as installed: it is not torn, not unlinked, and not restored to other content. */
  ghost predicate Repeatable(files: Files, entries: seq<Entry>, from: nat, cuts: set<nat>, digest: seq<Byte> -> Digest) {
    HeldTheSameFrom(entries, from) && Intact(files, entries, cuts, digest)
  }

  /** From there, a rollback goes through exactly when it is repeatable. */
  lemma RepeatsExactlyWhenIntact(files: Files, backups: Files, entries: seq<Entry>, from: nat, cuts: set<nat>, digest: seq<Byte> -> Digest)
    requires DistinctEntries(entries) && PartWay(files, backups, entries, from, cuts, digest)
    ensures Clears(files, backups, entries, 0, digest) <==> Repeatable(files, entries, from, cuts, digest)
  {
    RefusedExactlyWhenChanged(files, backups, entries, 0, digest);
    forall i | 0 <= i < |entries|
      ensures Undoable(files, backups, entries[i], digest) <==>
              (i in cuts ==> Unchanged(files, entries[i], digest)) && (i >= from ==> HeldTheSame(entries[i]))
    {
      assert StandsAt(files, backups, entries, from, cuts, i, digest);
    }
  }

  function Least(a: nat, b: nat): nat {
    if a < b then a else b
  }

  function Below(cuts: set<nat>, k: nat): set<nat> {
    set c | c in cuts && c < k
  }

  /** A rollback that came down to `k` undid what lies above, half-undone files included. */
  lemma RewoundStands(files: Files, backups: Files, entries: seq<Entry>, from: nat, cuts: set<nat>, k: nat, digest: seq<Byte> -> Digest)
    requires k <= |entries| && DistinctEntries(entries) && PartWay(files, backups, entries, from, cuts, digest)
    ensures PartWay(Rewind(files, backups, entries, k), backups, entries, Least(from, k), Below(cuts, k), digest)
  {
    var r := Rewind(files, backups, entries, k);
    forall i | 0 <= i < |entries| ensures StandsAt(r, backups, entries, Least(from, k), Below(cuts, k), i, digest) {
      assert StandsAt(files, backups, entries, from, cuts, i, digest);
      if i < k {
        RewindElsewhere(files, backups, entries, k, entries[i].destination);
      } else {
        UndoneStays(files, backups, entries, k, i);
      }
    }
  }

  /** ... and where it failed at entry `at`, that file is left anyhow. */
  lemma CutStands(files: Files, backups: Files, entries: seq<Entry>, from: nat, cuts: set<nat>, at: nat, cut: Files, digest: seq<Byte> -> Digest)
    requires at < |entries| && DistinctEntries(entries) && PartWay(files, backups, entries, from, cuts, digest)
    requires Clears(files, backups, entries, at, digest)
    requires AgreeBut(cut, Rewind(files, backups, entries, at + 1), entries[at].destination)
    ensures PartWay(cut, backups, entries, Least(from, at + 1), Below(cuts, at + 1) + {at}, digest)
  {
    var r, lower, left := Rewind(files, backups, entries, at + 1), Least(from, at + 1), Below(cuts, at + 1);
    RewoundStands(files, backups, entries, from, cuts, at + 1, digest);
    assert ClearsAt(files, backups, entries, at, digest);
    RewindElsewhere(files, backups, entries, at + 1, entries[at].destination);
    forall i | 0 <= i < |entries| ensures StandsAt(cut, backups, entries, lower, left + {at}, i, digest) {
      assert StandsAt(r, backups, entries, lower, left, i, digest);
      assert StandsAt(files, backups, entries, from, cuts, i, digest);
      assert i != at ==> entries[i].destination != entries[at].destination;
    }
  }

  /** What a failure at entry `at` means for the next rollback. */
  lemma CutRepeats(files: Files, backups: Files, entries: seq<Entry>, from: nat, cuts: set<nat>, at: nat, cut: Files, digest: seq<Byte> -> Digest)
    requires at < |entries| && DistinctEntries(entries) && PartWay(files, backups, entries, from, cuts, digest)
    requires Clears(files, backups, entries, at, digest)
    requires AgreeBut(cut, Rewind(files, backups, entries, at + 1), entries[at].destination)
    ensures Repeatable(cut, entries, Least(from, at + 1), Below(cuts, at + 1) + {at}, digest) <==>
            && Repeatable(files, entries, from, cuts, digest)
            && HeldTheSameFrom(entries, at + 1) && Unchanged(cut, entries[at], digest)
  {
    var r, lower, left := Rewind(files, backups, entries, at + 1), Least(from, at + 1), Below(cuts, at + 1) + {at};
    RefusedExactlyWhenChanged(files, backups, entries, at, digest);
    forall i | 0 <= i < at ensures Unchanged(cut, entries[i], digest) <==> Unchanged(files, entries[i], digest) {
      RewindElsewhere(files, backups, entries, at + 1, entries[i].destination);
      assert entries[i].destination != entries[at].destination;
    }
    assert forall i :: at <= i < |entries| ==> Undoable(files, backups, entries[i], digest);
    assert at in left;
    assert forall i :: 0 <= i < at ==> (i in left <==> i in cuts);
    assert HeldTheSameFrom(entries, lower) <==> HeldTheSameFrom(entries, from) && HeldTheSameFrom(entries, at + 1);
  }

  // ---- Repeated destinations ----

  /** The content that the path held before item `i`, when there was a file. */
  ghost predicate SameBefore(files: Files, plan: seq<Item>, i: nat, l: nat, digest: seq<Byte> -> Digest)
    requires i < |plan| && l < |plan|
  {
    var p := plan[i].destination;
    var f, g := After(files, plan, i), After(files, plan, l);
    Exists(f, p) && f[p].File? && Exists(g, p) && g[p].File? ==> digest(f[p].bytes) == digest(g[p].bytes)
  }

  /** Item `l` is the last one for the destination of item `i`. */
  ghost predicate LastFor(plan: seq<Item>, n: nat, i: nat, l: nat)
    requires i < n <= |plan| && l < n
  {
    plan[l].destination == plan[i].destination && forall j :: l < j < n ==> plan[j].destination != plan[i].destination
  }

  ghost function LastOf(plan: seq<Item>, n: nat, i: nat): (l: nat)
    requires i < n <= |plan|
    ensures i <= l < n && LastFor(plan, n, i, l)
  {
    if plan[n - 1].destination == plan[i].destination then n - 1 else LastOf(plan, n - 1, i)
  }

  lemma {:induction false} AfterLast(files: Files, plan: seq<Item>, n: nat, i: nat)
    requires i < n <= |plan|
    ensures var p := plan[i].destination;
            p in After(files, plan, n) && After(files, plan, n)[p] == Installed(plan[LastOf(plan, n, i)].payload)
  {
    if plan[n - 1].destination != plan[i].destination { AfterLast(files, plan, n - 1, i); }
  }

  /** The one backup of a destination is what its last item replaced. */
  lemma {:induction false} BackupOfLast(files: Files, backups: Files, plan: seq<Item>, n: nat, i: nat)
    requires i < n <= |plan|
    ensures var p, l := plan[i].destination, LastOf(plan, n, i);
            Exists(After(files, plan, l), p) ==>
              p in Backups(files, backups, plan, n) && Backups(files, backups, plan, n)[p] == After(files, plan, l)[p]
  {
    if plan[n - 1].destination != plan[i].destination { BackupOfLast(files, backups, plan, n - 1, i); }
  }

  predicate SavedAt(backups: Files, entries: seq<Entry>, j: nat, digest: seq<Byte> -> Digest)
    requires j < |entries|
  {
    BackedUp(backups, entries[j], digest)
  }

  ghost predicate AllBackedUp(backups: Files, entries: seq<Entry>, digest: seq<Byte> -> Digest) {
    forall j :: 0 <= j < |entries| ==> SavedAt(backups, entries, j, digest)
  }

  ghost predicate FoundTheSame(files: Files, plan: seq<Item>, n: nat, i: nat, digest: seq<Byte> -> Digest)
    requires i < n <= |plan|
  {
    SameBefore(files, plan, i, LastOf(plan, n, i), digest)
  }

  ghost predicate AllFoundTheSame(files: Files, plan: seq<Item>, n: nat, digest: seq<Byte> -> Digest)
    requires n <= |plan|
  {
    forall i :: 0 <= i < n ==> FoundTheSame(files, plan, n, i, digest)
  }

  /** Undoing down to `k` gives back, up to the digest, what the first `k` items installed. */
  lemma {:induction false} RewindUpToDigest(files: Files, backups: Files, plan: seq<Item>, n: nat, k: nat, i: nat, digest: seq<Byte> -> Digest)
    requires i < k <= n <= |plan|
    requires AllBackedUp(Backups(files, backups, plan, n), Entries(files, plan, n, digest), digest)
    ensures var r := Rewind(After(files, plan, n), Backups(files, backups, plan, n), Entries(files, plan, n, digest), k);
            var p := plan[i].destination;
            && p in r && r[p].File? && p in After(files, plan, k) && After(files, plan, k)[p].File?
            && digest(r[p].bytes) == digest(After(files, plan, k)[p].bytes)
    decreases n - k
  {
    AfterLast(files, plan, k, i);
    if k < n {
      RewindUpToDigest(files, backups, plan, n, k + 1, i, digest);
      EntryAt(files, plan, n, digest, k);
      assert SavedAt(Backups(files, backups, plan, n), Entries(files, plan, n, digest), k, digest);
    }
  }

  lemma ClearsExactlyWhenBackedUp(files: Files, backups: Files, plan: seq<Item>, n: nat, digest: seq<Byte> -> Digest)
    requires n <= |plan|
    ensures var b, e := Backups(files, backups, plan, n), Entries(files, plan, n, digest);
            Clears(After(files, plan, n), b, e, 0, digest) <==> AllBackedUp(b, e, digest)
  {
    var f, b, e := After(files, plan, n), Backups(files, backups, plan, n), Entries(files, plan, n, digest);
    if Clears(f, b, e, 0, digest) {
      forall j | 0 <= j < n ensures SavedAt(b, e, j, digest) {
        assert ClearsAt(f, b, e, j, digest);
      }
    }
    if AllBackedUp(b, e, digest) {
      forall j | 0 <= j < n ensures ClearsAt(f, b, e, j, digest) {
        assert SavedAt(b, e, j, digest);
        EntryAt(files, plan, n, digest, j);
        RewindUpToDigest(files, backups, plan, n, j + 1, j, digest);
      }
    }
  }

  lemma BackedUpMeans(files: Files, backups: Files, plan: seq<Item>, n: nat, i: nat, digest: seq<Byte> -> Digest)
    requires i < n <= |plan| && AllInstallable(files, plan, n)
    ensures SavedAt(Backups(files, backups, plan, n), Entries(files, plan, n, digest), i, digest) <==>
            FoundTheSame(files, plan, n, i, digest)
  {
    var p, l := plan[i].destination, LastOf(plan, n, i);
    EntryAt(files, plan, n, digest, i);
    BackupOfLast(files, backups, plan, n, i);
    assert InstallableAt(files, plan, i) && InstallableAt(files, plan, l);
    if i < l { AfterLast(files, plan, l, i); }
  }

  /** With repeated destinations, undoing goes through exactly when every item found the
      content that the last item for its destination found, up to the digest. */
  lemma RepeatedDestinationIsRefused(files: Files, backups: Files, plan: seq<Item>, n: nat, digest: seq<Byte> -> Digest)
    requires n <= |plan| && AllInstallable(files, plan, n)
    ensures Clears(After(files, plan, n), Backups(files, backups, plan, n), Entries(files, plan, n, digest), 0, digest) <==>
            AllFoundTheSame(files, plan, n, digest)
  {
    var b, e := Backups(files, backups, plan, n), Entries(files, plan, n, digest);
    ClearsExactlyWhenBackedUp(files, backups, plan, n, digest);
    if AllBackedUp(b, e, digest) {
      forall i | 0 <= i < n ensures FoundTheSame(files, plan, n, i, digest) {
        assert SavedAt(b, e, i, digest);
        BackedUpMeans(files, backups, plan, n, i, digest);
      }
    }
    if AllFoundTheSame(files, plan, n, digest) {
      forall j | 0 <= j < n ensures SavedAt(b, e, j, digest) {
        assert FoundTheSame(files, plan, n, j, digest);
        BackedUpMeans(files, backups, plan, n, j, digest);
      }
    }
  }

  /** For two items of one destination: a file there with other content makes undoing fail. */
  lemma TwiceTheSameDestination(files: Files, backups: Files, first: Item, second: Item, digest: seq<Byte> -> Digest)
    requires first.destination == second.destination && Installable(files, first.destination)
    ensures var plan := [first, second];
            && AllInstallable(files, plan, 2)
            && (Clears(After(files, plan, 2), Backups(files, backups, plan, 2), Entries(files, plan, 2, digest), 0, digest) <==>
                (Exists(files, first.destination) ==> digest(files[first.destination].bytes) == digest(first.payload)))
  {
    var plan := [first, second];
    var p := first.destination;
    assert After(files, plan, 0) == files && After(files, plan, 1) == files[p := Installed(first.payload)];
    assert InstallableAt(files, plan, 0) && InstallableAt(files, plan, 1);
    RepeatedDestinationIsRefused(files, backups, plan, 2, digest);
    assert LastOf(plan, 2, 0) == 1 && LastOf(plan, 2, 1) == 1;
    assert FoundTheSame(files, plan, 2, 1, digest);
    assert FoundTheSame(files, plan, 2, 0, digest) <==>
           (Exists(files, p) ==> digest(files[p].bytes) == digest(first.payload));
    forall i | 0 <= i < 2 && FoundTheSame(files, plan, 2, 0, digest) ensures FoundTheSame(files, plan, 2, i, digest) {}
  }

  // ---- A failed installation ----

  /** The two maps agree but for one path. */
  ghost predicate AgreeBut(f: Files, g: Files, q: Path) {
    forall p :: p != q ==> (p in f <==> p in g) && (p in f ==> f[p] == g[p])
  }

  lemma {:induction false} RewindIgnores(f: Files, b: Files, g: Files, c: Files, entries: seq<Entry>, k: nat, q: Path)
    requires k <= |entries| && AgreeBut(f, g, q) && AgreeBut(b, c, q)
    requires forall i :: k <= i < |entries| ==> entries[i].destination != q
    ensures AgreeBut(Rewind(f, b, entries, k), Rewind(g, c, entries, k), q)
    decreases |entries| - k
  {
    if k < |entries| { RewindIgnores(f, b, g, c, entries, k + 1, q); }
  }

  /** The journal lags behind the files by at most the item being installed.  Undoing it
      clears, and every other path is restored. */
  lemma FailedApplyIsUndone(files: Files, backups: Files, plan: seq<Item>, n: nat, f: Files, b: Files, digest: seq<Byte> -> Digest)
    requires n < |plan| && Distinct(plan) && AllInstallable(files, plan, n)
    requires AgreeBut(f, After(files, plan, n), plan[n].destination)
    requires AgreeBut(b, Backups(files, backups, plan, n), plan[n].destination)
    ensures var e := Entries(files, plan, n, digest);
            && Clears(f, b, e, 0, digest)
            && AgreeBut(Rewind(f, b, e, 0), Restored(files, plan, n), plan[n].destination)
            && SameAt(Rewind(f, b, e, 0), f, plan[n].destination)
            && SameAt(After(files, plan, n), files, plan[n].destination)
  {
    var q, e := plan[n].destination, Entries(files, plan, n, digest);
    var g, c := After(files, plan, n), Backups(files, backups, plan, n);
    RoundTrip(files, backups, plan, n, digest);
    forall i | 0 <= i < n ensures e[i].destination == plan[i].destination {
      EntryAt(files, plan, n, digest, i);
    }
    assert DistinctEntries(e);
    RewindIgnores(f, b, g, c, e, 0, q);
    RewindElsewhere(f, b, e, 0, q);
    AfterElsewhere(files, plan, n, q);
    RefusedExactlyWhenChanged(g, c, e, 0, digest);
    RefusedExactlyWhenChanged(f, b, e, 0, digest);
  }

  /** The files that a failed installation leaves: the last rename may have taken effect. */
  ghost function Left(files: Files, plan: seq<Item>, n: nat, replaced: bool): Files
    requires n <= |plan|
  {
    if n < |plan| && replaced then After(files, plan, n)[plan[n].destination := Installed(plan[n].payload)]
    else After(files, plan, n)
  }

  /** ... and those that rollback makes of them, once it goes through. */
  ghost function LeftBehind(files: Files, plan: seq<Item>, n: nat, replaced: bool): Files
    requires n <= |plan|
  {
    if n < |plan| && replaced then Restored(files, plan, n)[plan[n].destination := Installed(plan[n].payload)]
    else Restored(files, plan, n)
  }

  /** Undoing after a failure gives back everything, but for a file that was replaced and
      whose installation then raised. */
  lemma FailureIsUndone(files: Files, backups: Files, plan: seq<Item>, n: nat, replaced: bool, b: Files, digest: seq<Byte> -> Digest)
    requires n <= |plan| && Distinct(plan) && AllInstallable(files, plan, n)
    requires if n < |plan| then AgreeBut(b, Backups(files, backups, plan, n), plan[n].destination)
             else b == Backups(files, backups, plan, n)
    ensures var f, e := Left(files, plan, n, replaced), Entries(files, plan, n, digest);
            Clears(f, b, e, 0, digest) && Rewind(f, b, e, 0) == LeftBehind(files, plan, n, replaced)
  {
    if n == |plan| {
      RoundTrip(files, backups, plan, n, digest);
    } else {
      var f, e, q := Left(files, plan, n, replaced), Entries(files, plan, n, digest), plan[n].destination;
      FailedApplyIsUndone(files, backups, plan, n, f, b, digest);
      var r, t := Rewind(f, b, e, 0), LeftBehind(files, plan, n, replaced);
      assert !IsDestination(plan, n, q);
      assert SameAt(r, t, q);
      assert forall p :: p in r <==> p in t;
    }
  }

  lemma OneMoreInstalled(files: Files, backups: Files, plan: seq<Item>, n: nat, digest: seq<Byte> -> Digest)
    requires n < |plan| && AllInstallable(files, plan, n) && Installable(After(files, plan, n), plan[n].destination)
    ensures After(files, plan, n + 1) == After(files, plan, n)[plan[n].destination := Installed(plan[n].payload)]
    ensures Entries(files, plan, n + 1, digest) == Entries(files, plan, n, digest) + [EntryFor(After(files, plan, n), plan[n], digest)]
    ensures Backups(files, backups, plan, n + 1) ==
            if Exists(After(files, plan, n), plan[n].destination)
            then Backups(files, backups, plan, n)[plan[n].destination := After(files, plan, n)[plan[n].destination]]
            else Backups(files, backups, plan, n)
    ensures AllInstallable(files, plan, n + 1)
  {
    assert InstallableAt(files, plan, n);
  }

  datatype RollbackResult =
    | Complete
    | Refused(at: nat)           // the target or the backup of this entry changed
    | Interrupted(at: nat)       // a file operation failed while this entry was being undone

  class Installer {
    const digest: seq<Byte> -> Digest
    const fate: nat -> Fate
    const torn: nat -> seq<Byte>           // what a copy that fails leaves in its target
    var tick: nat
    var files: Files
    var backups: Files
    var memory: seq<Entry>                 // the list of system files in the running program
    var journal: seq<Entry>                // the same list in the journal on disk

    constructor (digest: seq<Byte> -> Digest, fate: nat -> Fate, torn: nat -> seq<Byte>, files: Files)
      ensures this.digest == digest && this.fate == fate && this.torn == torn && this.files == files
      ensures backups == map[] && memory == [] && journal == [] && tick == 0
    {
      this.digest, this.fate, this.torn, this.files := digest, fate, torn, files;
      backups, memory, journal, tick := map[], [], [], 0;
    }

    method Next() returns (f: Fate)
      modifies this`tick
      ensures tick == old(tick) + 1 && f == fate(old(tick))
    {
      f := fate(tick);
      tick := tick + 1;
    }

    /** The rename at tick `t` took effect, and the installation raised all the same. */
    ghost predicate RaisedAfterRename(t: Option<nat>) {
      t.Some? && (fate(t.value).FailsAfterwards? || (fate(t.value).Works? && !fate(t.value + 1).Works?))
    }

    /** install_payload; `renamed` is the tick of the rename, if it came to that. */
    method Install(item: Item) returns (r: Option<Entry>, ghost renamed: Option<nat>)
      modifies this`tick, this`files, this`backups
      ensures old(tick) <= tick && (renamed.Some? ==> old(tick) <= renamed.value < tick)
      ensures r.Some? ==> fate(old(tick)).Works?
      ensures r.Some? ==> renamed.Some? && fate(renamed.value).Works? && fate(renamed.value + 1).Works?
      ensures r.Some? ==> Installable(old(files), item.destination)
      ensures r.Some? ==> r.value == EntryFor(old(files), item, digest)
      ensures r.Some? ==> backups == if Exists(old(files), item.destination)
                                     then old(backups)[item.destination := old(files)[item.destination]]
                                     else old(backups)
      ensures files == if r.Some? || RaisedAfterRename(renamed)
                       then old(files)[item.destination := Installed(item.payload)] else old(files)
      ensures AgreeBut(backups, old(backups), item.destination)
      ensures !Exists(old(files), item.destination) ==> renamed == Some(old(tick))
      ensures CalmFrom(fate, old(tick)) && Installable(old(files), item.destination) ==> r.Some?
    {
      var p := item.destination;
      var entry := EntryFor(files, item, digest);
      if Exists(files, p) {
        var n := files[p];
        if !Replaceable(n) { return None, None; }
        var copied := Next();
        if !copied.Works? {
          backups := backups[p := n.(bytes := torn(tick - 1))];
          return None, None;
        }
        backups := backups[p := n];
      }
      renamed := Some(tick);
      var moved := Next();
      if moved.Fails? { return None, renamed; }
      files := files[p := Installed(item.payload)];
      if moved.FailsAfterwards? { return None, renamed; }
      var synced := Next();
      if !synced.Works? { return None, renamed; }
      return Some(entry), renamed;
    }

    /** Writes the list of the running program to disk. */
    method Persist() returns (ok: bool)
      modifies this`tick, this`journal
      ensures tick == old(tick) + 1 && (ok <==> fate(old(tick)).Works?)
      ensures journal == if fate(old(tick)).Fails? then old(journal) else memory
    {
      var written := Next();
      if !written.Fails? { journal := memory; }
      ok := written.Works?;
    }

    /** One turn of the loop: install, append the entry, write the journal. */
    method InstallAndJournal(item: Item) returns (ok: bool, installed: bool, ghost renamed: Option<nat>)
      requires journal == memory
      modifies this`tick, this`files, this`backups, this`memory, this`journal
      ensures old(tick) < tick || (tick == old(tick) && !installed)
      ensures ok ==> installed && journal == memory
      ensures installed ==> Installable(old(files), item.destination) && fate(old(tick)).Works?
      ensures memory == if installed then old(memory) + [EntryFor(old(files), item, digest)] else old(memory)
      ensures journal == memory || (installed && journal == old(journal))
      ensures installed ==> backups == if Exists(old(files), item.destination)
                                       then old(backups)[item.destination := old(files)[item.destination]]
                                       else old(backups)
      ensures files == if installed || RaisedAfterRename(renamed)
                       then old(files)[item.destination := Installed(item.payload)] else old(files)
      ensures AgreeBut(backups, old(backups), item.destination)
      ensures !Exists(old(files), item.destination) ==> renamed == Some(old(tick)) && old(tick) < tick
      ensures CalmFrom(fate, old(tick)) && Installable(old(files), item.destination) ==> ok
    {
      var r;
      r, renamed := Install(item);
      ok, installed := false, false;
      if r.None? { return; }
      memory := memory + [r.value];
      installed := true;
      ok := Persist();
    }

    /** The loop of apply_install over the system files: install, append, write the journal. */
    method Apply(plan: seq<Item>) returns (ok: bool, n: nat, ghost renamed: Option<nat>)
      requires memory == [] && journal == []
      modifies this`tick, this`files, this`backups, this`memory, this`journal
      ensures n <= |plan| && old(tick) <= tick
      ensures memory == Entries(old(files), plan, n, digest) && AllInstallable(old(files), plan, n)
      ensures ok ==> n == |plan| && journal == memory
      // Wherever it stops, the journal on disk lags by at most one entry, and then that file is in place.
      ensures journal != memory ==> n > 0 && !ok && journal == Entries(old(files), plan, n - 1, digest) && renamed.None?
      ensures journal != memory ==> backups == Backups(old(files), old(backups), plan, n)
      ensures files == Left(old(files), plan, n, RaisedAfterRename(renamed))
      ensures if n < |plan| then AgreeBut(backups, Backups(old(files), old(backups), plan, n), plan[n].destination)
              else backups == Backups(old(files), old(backups), plan, n)
      ensures plan != [] && !Exists(old(files), plan[0].destination) && !fate(old(tick)).Works? ==>
                !ok && n == 0 && renamed == Some(old(tick)) && old(tick) < tick
      ensures CalmFrom(fate, old(tick)) && AllInstallable(old(files), plan, |plan|) ==> ok
    {
      n, ok, renamed := 0, true, None;
      while n < |plan|
        invariant n <= |plan| && old(tick) <= tick && ok && renamed == None
        invariant memory == Entries(old(files), plan, n, digest) && AllInstallable(old(files), plan, n)
        invariant journal == memory
        invariant files == After(old(files), plan, n) && backups == Backups(old(files), old(backups), plan, n)
        invariant n == 0 ==> tick == old(tick)
        invariant n > 0 ==> fate(old(tick)).Works?
      {
        assert AllInstallable(old(files), plan, |plan|) ==> InstallableAt(old(files), plan, n);
        var installed;
        ghost var at;
        ok, installed, at := InstallAndJournal(plan[n]);
        if !installed {
          renamed := at;
          return;
        }
        OneMoreInstalled(old(files), old(backups), plan, n, digest);
        n := n + 1;
        if !ok { return; }
      }
    }

    /** restore_installed_system_file. */
    method Undo(e: Entry) returns (done: bool, refused: bool)
      modifies this`tick, this`files
      ensures old(tick) <= tick && !(done && refused)
      ensures refused <==> !Undoable(old(files), backups, e, digest)
      ensures refused ==> files == old(files)
      ensures done ==> files == Undone(old(files), backups, e)
      ensures AgreeBut(files, old(files), e.destination)
      ensures CalmFrom(fate, old(tick)) ==> done || refused
      // A copy that fails leaves whatever it had written so far.
      ensures !refused && e.before.Some? && !fate(old(tick)).Works? ==>
                !done && tick == old(tick) + 1
                && files == old(files)[e.destination := old(files)[e.destination].(bytes := torn(old(tick)))]
    {
      if !Undoable(files, backups, e, digest) { return false, true; }
      var p := e.destination;
      if e.before.Some? {
        var copied := Next();
        if !copied.Works? {
          files := files[p := files[p].(bytes := torn(tick - 1))];
          return false, false;
        }
        files := files[p := files[p].(bytes := backups[p].bytes)];
        var owned := Next();
        if owned.Fails? { return false, false; }
        files := files[p := files[p].(uid := e.before.value.uid, gid := e.before.value.gid)];
        if owned.FailsAfterwards? { return false, false; }
        var moded := Next();
        if moded.Fails? { return false, false; }
        files := files[p := files[p].(mode := e.before.value.mode)];
        return moded.Works?, false;
      }
      var removed := Next();
      if removed.Fails? { return false, false; }
      files := files - {p};
      done, refused := removed.Works?, false;
    }

    function Last(): Entry
      requires journal != []
      reads this`journal
    {
      journal[|journal| - 1]
    }

    /** The first copy of a rollback, that of the last entry, fails. */
    ghost predicate CutAtOnce(at: nat)
      reads this`files, this`backups, this`journal
    {
      && journal != [] && Undoable(files, backups, Last(), digest)
      && Last().before.Some? && !fate(at).Works?
    }

    /** The loop of rollback_install over the system files, last entry first. */
    method Rollback() returns (r: RollbackResult)
      modifies this`tick, this`files
      ensures old(tick) <= tick
      ensures r.Complete? ==> files == Rewind(old(files), backups, journal, 0) && Clears(old(files), backups, journal, 0, digest)
      ensures r.Refused? ==> r.at < |journal| && Clears(old(files), backups, journal, r.at + 1, digest)
                             && files == Rewind(old(files), backups, journal, r.at + 1)
                             && !ClearsAt(old(files), backups, journal, r.at, digest)
      ensures r.Interrupted? ==> r.at < |journal| && Clears(old(files), backups, journal, r.at, digest)
                                 && AgreeBut(files, Rewind(old(files), backups, journal, r.at + 1), journal[r.at].destination)
      ensures CalmFrom(fate, old(tick)) ==> !r.Interrupted?
      ensures old(CutAtOnce(tick)) ==>
                && r == Interrupted(|journal| - 1) && tick == old(tick) + 1
                && files == old(files)[Last().destination := old(files)[Last().destination].(bytes := torn(old(tick)))]
    {
      var k: nat := |journal|;
      while k > 0
        invariant k <= |journal| && old(tick) <= tick
        invariant if k == |journal| then tick == old(tick) else !old(CutAtOnce(tick))
        invariant files == Rewind(old(files), backups, journal, k)
        invariant Clears(old(files), backups, journal, k, digest)
      {
        k := k - 1;
        var done, refused := Undo(journal[k]);
        assert refused <==> !ClearsAt(old(files), backups, journal, k, digest);
        if refused { return Refused(k); }
        if !done { return Interrupted(k); }
      }
      r := Complete;
    }

    /** Any number of rollbacks: from wherever earlier ones stopped, this one goes through exactly
        when it is repeatable, and what can not be repeated once can never be. */
    method RollbackAgain(ghost from: nat, ghost cuts: set<nat>) returns (r: RollbackResult, ghost reached: nat, ghost left: set<nat>)
      requires DistinctEntries(journal) && PartWay(files, backups, journal, from, cuts, digest)
      modifies this`tick, this`files
      ensures reached <= from && PartWay(files, backups, journal, reached, left, digest)
      ensures r.Complete? ==> reached == 0 && left == {}
      ensures r.Refused? <==> !r.Interrupted? && !old(Repeatable(files, journal, from, cuts, digest))
      ensures CalmFrom(fate, old(tick)) ==> (r.Complete? <==> old(Repeatable(files, journal, from, cuts, digest)))
      ensures r.Complete? ==> old(Repeatable(files, journal, from, cuts, digest))
      ensures !old(Repeatable(files, journal, from, cuts, digest)) ==> !Repeatable(files, journal, reached, left, digest)
      // A failure half way lets the next rollback go through exactly when what it undid held the
      // installed content before and the file at which it failed still reads as installed.
      ensures r.Interrupted? ==>
                r.at < |journal|
                && (Repeatable(files, journal, reached, left, digest) <==>
                    && old(Repeatable(files, journal, from, cuts, digest))
                    && HeldTheSameFrom(journal, r.at + 1) && Unchanged(files, journal[r.at], digest))
    {
      RepeatsExactlyWhenIntact(files, backups, journal, from, cuts, digest);
      hide PartWay, Repeatable, Clears, HeldTheSameFrom;
      r := Rollback();
      match r {
        case Complete =>
          RewoundStands(old(files), backups, journal, from, cuts, 0, digest);
          reached, left := 0, {};
          assert Below(cuts, 0) == {};
        case Refused(at) =>
          RewoundStands(old(files), backups, journal, from, cuts, at + 1, digest);
          reached, left := Least(from, at + 1), Below(cuts, at + 1);
          StillRefused(old(files), from, cuts, at);
        case Interrupted(at) =>
          CutStands(old(files), backups, journal, from, cuts, at, files, digest);
          CutRepeats(old(files), backups, journal, from, cuts, at, files, digest);
          reached, left := Least(from, at + 1), Below(cuts, at + 1) + {at};
      }
    }

    lemma StillRefused(before: Files, from: nat, cuts: set<nat>, at: nat)
      requires at < |journal| && DistinctEntries(journal) && PartWay(before, backups, journal, from, cuts, digest)
      requires Clears(before, backups, journal, at + 1, digest) && !ClearsAt(before, backups, journal, at, digest)
      ensures !Clears(before, backups, journal, 0, digest)
      ensures !Repeatable(Rewind(before, backups, journal, at + 1), journal, Least(from, at + 1), Below(cuts, at + 1), digest)
    {
      var r := Rewind(before, backups, journal, at + 1);
      RewoundStands(before, backups, journal, from, cuts, at + 1, digest);
      RepeatsExactlyWhenIntact(r, backups, journal, Least(from, at + 1), Below(cuts, at + 1), digest);
      RefusedExactlyWhenChanged(r, backups, journal, 0, digest);
    }

    /** A copy cut short: the file reads as neither content, so the next rollback is refused
        although it held the installed content before and nothing fails any more. */
    method CutShort() returns (first: RollbackResult, second: RollbackResult)
      requires CutAtOnce(tick) && HeldTheSame(Last())
      requires digest(torn(tick)) != Last().installed && CalmFrom(fate, tick + 1)
      modifies this`tick, this`files
      ensures first == Interrupted(|journal| - 1) && second == Refused(|journal| - 1)
    {
      first := Rollback();
      assert !ClearsAt(files, backups, journal, |journal| - 1, digest);
      second := Rollback();
    }

    /** apply_install with the handler of its failures: write the journal of the running
        program, and only if that works, undo.  `handled` is the tick of that write. */
    method ApplyOrUndo(plan: seq<Item>)
      returns (ok: bool, undone: bool, r: RollbackResult, ghost n: nat, ghost renamed: Option<nat>, ghost handled: nat)
      requires memory == [] && journal == [] && Distinct(plan)
      modifies this`tick, this`files, this`backups, this`memory, this`journal
      ensures n <= |plan| && (!ok ==> old(tick) <= handled < tick)
      ensures ok ==> files == After(old(files), plan, |plan|) && journal == Entries(old(files), plan, |plan|, digest)
      ensures !ok ==> (undone <==> fate(handled).Works?)
      ensures !ok && !undone ==> files == Left(old(files), plan, n, RaisedAfterRename(renamed))
      // A file stays behind exactly when its rename took effect and its installation raised afterwards.
      ensures !ok && undone && r.Complete? ==> files == LeftBehind(old(files), plan, n, RaisedAfterRename(renamed))
      ensures !ok && undone ==> !r.Refused? && journal == Entries(old(files), plan, n, digest)
      ensures CalmFrom(fate, old(tick)) && AllInstallable(old(files), plan, |plan|) ==> ok
      ensures !ok && CalmFrom(fate, handled) ==> undone && r.Complete?
      ensures plan != [] && !Exists(old(files), plan[0].destination) && !fate(old(tick)).Works? ==>
                !ok && n == 0 && renamed == Some(old(tick)) && old(tick) < handled
    {
      ok, n, renamed := Apply(plan);
      undone, r, handled := false, Complete, tick;
      if ok { return; }
      undone := Persist();
      if !undone { return; }
      FailureIsUndone(old(files), old(backups), plan, n, RaisedAfterRename(renamed), backups, digest);
      r := Rollback();
    }

    /** The program dies during the installation, and an operator rolls back from the journal
        on disk: the one file it may not know stays, everything else is back. */
    method ApplyThenRollback(plan: seq<Item>) returns (ok: bool, r: RollbackResult, ghost renamed: Option<nat>)
      requires memory == [] && journal == [] && Distinct(plan)
      modifies this`tick, this`files, this`backups, this`memory, this`journal
      ensures !r.Refused? && |journal| <= |plan|
      ensures r.Complete? ==>
                files == LeftBehind(old(files), plan, |journal|, |journal| < |memory| || RaisedAfterRename(renamed))
    {
      var n;
      ok, n, renamed := Apply(plan);
      if journal == memory {
        FailureIsUndone(old(files), old(backups), plan, n, RaisedAfterRename(renamed), backups, digest);
      } else {
        Lagging(old(files), old(backups), plan, n, backups);
        FailureIsUndone(old(files), old(backups), plan, n - 1, true, backups, digest);
      }
      r := Rollback();
    }

    /** The file that stays behind: a rename that takes effect and raises, and nothing else fails. */
    method StaysBehind(item: Item)
      requires memory == [] && journal == [] && item.destination !in files
      requires fate(tick).FailsAfterwards? && CalmFrom(fate, tick + 1)
      modifies this`tick, this`files, this`backups, this`memory, this`journal
      ensures files == old(files)[item.destination := Installed(item.payload)] && journal == []
    {
      var ok, undone, r, n, renamed, handled := ApplyOrUndo([item]);
      assert Restored(old(files), [item], 0) == old(files);
    }
  }

  /** One entry less on disk: the files lead it by that one, which is in place. */
  lemma Lagging(files: Files, backups: Files, plan: seq<Item>, n: nat, b: Files)
    requires 0 < n <= |plan| && b == Backups(files, backups, plan, n)
    ensures AgreeBut(b, Backups(files, backups, plan, n - 1), plan[n - 1].destination)
    ensures Left(files, plan, n, false) == Left(files, plan, n - 1, true)
  {
  }
}
