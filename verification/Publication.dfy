/**
 Publishing an immutable runtime in scripts/install_browser_lcp_runtime.py: `stage` and
 the functions it uses to build, freeze, verify, publish and repair directory trees.

 A tree maps relative paths to entries; the empty path is the root of the tree.  Every
 primitive may raise, and the process may die at any of them; a rename that was not yet
 synced may be undone by such a death.  Runs hold the root lock, so they follow one
 another; a death releases the lock.
 */
module Publication {
  import opened Options
  import opened Posix

  type Rel = seq<nat>
  type Digest = int

  datatype Entry =
    | Directory(mode: Mode, uid: nat, gid: nat)
    | Regular(bytes: seq<Byte>, mode: Mode, uid: nat, gid: nat, links: nat)
    | Special

  type Tree = map<Rel, Entry>

  const PRIVATE_DIRECTORY: Mode := {8, 7, 6}
  const FROZEN: Mode := {8, 6, 5, 3, 2, 0}
  const PRIVATE_FILE: Mode := {8, 7}

  /** The text of a path, cut at its slashes: two slashes in a row leave an empty part. */
  datatype Part = Named(n: nat) | Empty | Dot

  type Text = seq<Part>

  /** The path that a text stands for: empty parts and dots do not count. */
  function Parts(text: Text): Rel {
    if text == [] then [] else (if text[0].Named? then [text[0].n] else []) + Parts(text[1..])
  }

  /** How a path is written when it is found on disk. */
  function AsText(p: Rel): (text: Text)
    ensures |text| == |p| && forall k :: 0 <= k < |p| ==> text[k] == Named(p[k])
  {
    if p == [] then [] else [Named(p[0])] + AsText(p[1..])
  }

  predicate Normal(text: Text) {
    forall k :: 0 <= k < |text| ==> text[k].Named?
  }

  lemma {:induction false} TextRead(p: Rel)
    ensures Parts(AsText(p)) == p && Normal(AsText(p))
  {
    if p != [] {
      TextRead(p[1..]);
      assert AsText(p)[1..] == AsText(p[1..]);
    }
  }

  lemma {:induction false} NormalIsRead(text: Text)
    requires Normal(text)
    ensures AsText(Parts(text)) == text
  {
    if text != [] {
      NormalIsRead(text[1..]);
      assert Parts(text)[1..] == Parts(text[1..]);
    }
  }

  /** One planned file: where it goes, its final mode, size and digest, and its source. */
  datatype Item = Item(text: Text, mode: Mode, size: nat, sha: Digest, source: nat) {
    function Path(): Rel {
      Parts(text)
    }
  }

  /** The part of an item that the runtime digest seals. */
  datatype Portable = Portable(text: Text, mode: Mode, size: nat, sha: Digest)

  function PortableOf(items: seq<Item>): (r: seq<Portable>)
    ensures |r| == |items|
    ensures forall i :: 0 <= i < |items| ==> r[i] == Portable(items[i].text, items[i].mode, items[i].size, items[i].sha)
  {
    if items == [] then []
    else [Portable(items[0].text, items[0].mode, items[0].size, items[0].sha)] + PortableOf(items[1..])
  }

  function Parent(p: Rel): Rel
    requires p != []
  {
    p[..|p| - 1]
  }

  predicate IsPrefix(p: Rel, q: Rel) {
    |p| <= |q| && q[..|p|] == p
  }

  /** A directory tree: everything lies in a directory. */
  ghost predicate Closed(t: Tree) {
    forall p {:trigger Housed(t, p)} :: p in t ==> Housed(t, p)
  }

  ghost predicate Housed(t: Tree, p: Rel) {
    p != [] ==> Parent(p) in t && t[Parent(p)].Directory?
  }

  /** Changing or adding one entry keeps the tree closed, if no directory becomes a file. */
  lemma ClosedWith(t: Tree, p: Rel, e: Entry)
    requires Closed(t) && Housed(t, p) && (p in t && t[p].Directory? ==> e.Directory?)
    ensures Closed(t[p := e])
  {
    var u := t[p := e];
    forall q | q in u ensures Housed(u, q) {
      assert Housed(t, q);
    }
  }

  // ---- What verification accepts ----

  predicate FileMatches(e: Entry, f: Portable, sha: seq<Byte> -> Digest) {
    e.Regular? && e.uid == 0 && e.gid == 0 && e.mode == f.mode && |e.bytes| == f.size && sha(e.bytes) == f.sha
  }

  predicate EntryMatches(t: Tree, files: seq<Portable>, p: Rel, sha: seq<Byte> -> Digest)
    requires p in t
  {
    if t[p].Directory? then t[p] == Directory(FROZEN, 0, 0)
    else exists i :: 0 <= i < |files| && files[i].text == AsText(p) && FileMatches(t[p], files[i], sha)
  }

  /** The text is that of something in the tree that is no directory. */
  predicate Shown(t: Tree, text: Text) {
    Normal(text) && Parts(text) in t && !t[Parts(text)].Directory?
  }

  /** The tree is exactly the planned files, frozen. */
  ghost predicate Verified(t: Tree, files: seq<Portable>, sha: seq<Byte> -> Digest) {
    && [] in t && t[[]].Directory?
    && (forall p {:trigger EntryMatches(t, files, p, sha)} :: p in t ==> EntryMatches(t, files, p, sha))
    && (forall i :: 0 <= i < |files| ==> Shown(t, files[i].text))
  }

  // ---- What repair accepts ----

  predicate Removable(e: Entry) {
    !e.Special? && e.uid == 0 && e.gid == 0 && (e.Regular? ==> e.links == 1)
  }

  predicate Repairable(t: Tree) {
    && [] in t && t[[]].Directory? && (t[[]].mode == PRIVATE_DIRECTORY || t[[]].mode == FROZEN)
    && (forall p :: p in t ==> Removable(t[p]))
  }

  /** Nothing is left, or a tree that the next repair removes. */
  ghost predicate Leftover(t: Tree) {
    t == map[] || (Repairable(t) && Closed(t))
  }

  // ---- Building ----

  ghost function WithDirectories(t: Tree, p: Rel): Tree
    decreases |p|
  {
    if p == [] then t
    else
      var u := WithDirectories(t, Parent(p));
      if p in u then u else u[p := Directory(PRIVATE_DIRECTORY, 0, 0)]
  }

  function FileOf(item: Item, content: nat -> seq<Byte>): Entry {
    Regular(content(item.source), item.mode, 0, 0, 1)
  }

  predicate SourceMatches(item: Item, content: nat -> seq<Byte>, sha: seq<Byte> -> Digest) {
    |content(item.source)| == item.size && sha(content(item.source)) == item.sha
  }

  ghost function Built(items: seq<Item>, n: nat, content: nat -> seq<Byte>): Tree
    requires n <= |items| && PlannedPaths(items, n)
  {
    if n == 0 then map[[] := Directory(PRIVATE_DIRECTORY, 0, 0)]
    else WithFile(Built(items, n - 1, content), items[n - 1], content)
  }

  ghost function WithFile(t: Tree, item: Item, content: nat -> seq<Byte>): Tree
    requires item.Path() != []
  {
    WithDirectories(t, Parent(item.Path()))[item.Path() := FileOf(item, content)]
  }

  ghost function Frozen(t: Tree): Tree {
    map p | p in t :: if t[p].Directory? then Directory(FROZEN, 0, 0) else t[p]
  }

  /** None of the first `n` paths is the root itself. */
  ghost predicate PlannedPaths(items: seq<Item>, n: nat)
    requires n <= |items|
  {
    forall i :: 0 <= i < n ==> items[i].Path() != []
  }

  /** Every path is written as it will be found. */
  ghost predicate AllNormal(items: seq<Item>) {
    forall i :: 0 <= i < |items| ==> Normal(items[i].text)
  }

  /** No planned path is another one, or lies below another one. */
  ghost predicate PrefixFree(items: seq<Item>, n: nat)
    requires n <= |items|
  {
    forall i, j :: 0 <= i < n && 0 <= j < n && i != j ==> Apart(items, i, j)
  }

  ghost predicate Apart(items: seq<Item>, i: nat, j: nat)
    requires i < |items| && j < |items|
  {
    !IsPrefix(items[i].Path(), items[j].Path())
  }

  lemma PrefixOfParent(p: Rel, q: Rel)
    requires q != []
    ensures IsPrefix(p, q) <==> p == q || IsPrefix(p, Parent(q))
  {
    if |p| <= |Parent(q)| {
      assert q[..|p|] == Parent(q)[..|p|];
    }
  }

  lemma {:induction false} DirectoriesAt(t: Tree, p: Rel, q: Rel)
    ensures var u := WithDirectories(t, p);
            if q in t then q in u && u[q] == t[q]
            else if IsPrefix(q, p) && q != [] then q in u && u[q] == Directory(PRIVATE_DIRECTORY, 0, 0)
            else q !in u
    decreases |p|
  {
    if p == [] {
      assert IsPrefix(q, p) ==> q == [];
    } else {
      DirectoriesAt(t, Parent(p), q);
      PrefixOfParent(q, p);
      DirectoriesAt(t, Parent(p), p);
    }
  }

  ghost predicate Below(items: seq<Item>, n: nat, p: Rel)
    requires n <= |items|
  {
    exists i :: 0 <= i < n && IsPrefix(p, items[i].Path())
  }

  /** Every planned file is in the built tree ... */
  lemma {:induction false} BuiltFile(items: seq<Item>, n: nat, content: nat -> seq<Byte>, i: nat)
    requires i < n <= |items| && PlannedPaths(items, n) && PrefixFree(items, n)
    ensures items[i].Path() in Built(items, n, content)
    ensures Built(items, n, content)[items[i].Path()] == FileOf(items[i], content)
  {
    if i < n - 1 {
      BuiltFile(items, n - 1, content, i);
      DirectoriesAt(Built(items, n - 1, content), Parent(items[n - 1].Path()), items[i].Path());
      assert Apart(items, i, n - 1);
    }
  }

  /** ... and everything else in it is the root or a directory above a planned file. */
  lemma {:induction false} BuiltDirectory(items: seq<Item>, n: nat, content: nat -> seq<Byte>, p: Rel)
    requires n <= |items| && PlannedPaths(items, n)
    requires forall i :: 0 <= i < n ==> items[i].Path() != p
    ensures p in Built(items, n, content) <==> p == [] || Below(items, n, p)
    ensures p in Built(items, n, content) ==> Built(items, n, content)[p] == Directory(PRIVATE_DIRECTORY, 0, 0)
  {
    if n > 0 {
      var q := items[n - 1].Path();
      BuiltDirectory(items, n - 1, content, p);
      DirectoriesAt(Built(items, n - 1, content), Parent(q), p);
      PrefixOfParent(p, q);
      if Below(items, n - 1, p) {
        var i :| 0 <= i < n - 1 && IsPrefix(p, items[i].Path());
        assert Below(items, n, p);
      } else if IsPrefix(p, q) {
        assert Below(items, n, p);
      }
    }
  }

  ghost predicate SourcesMatch(items: seq<Item>, content: nat -> seq<Byte>, sha: seq<Byte> -> Digest) {
    forall i :: 0 <= i < |items| ==> SourceMatches(items[i], content, sha)
  }

  /** Copying every planned file and freezing the tree passes verification. */
  lemma {:induction false} FrozenIsVerified(items: seq<Item>, content: nat -> seq<Byte>, sha: seq<Byte> -> Digest)
    requires PlannedPaths(items, |items|) && AllNormal(items) && PrefixFree(items, |items|) && SourcesMatch(items, content, sha)
    ensures Verified(Frozen(Built(items, |items|, content)), PortableOf(items), sha)
  {
    var b, n, files := Built(items, |items|, content), |items|, PortableOf(items);
    var t := Frozen(b);
    forall i | 0 <= i < n
      ensures Shown(t, files[i].text) && AsText(items[i].Path()) == files[i].text
      ensures FileMatches(t[items[i].Path()], files[i], sha)
    {
      NormalIsRead(items[i].text);
      BuiltFile(items, n, content, i);
      assert SourceMatches(items[i], content, sha);
    }
    BuiltDirectory(items, n, content, []);
    forall p | p in t ensures EntryMatches(t, files, p, sha) {
      if i :| 0 <= i < n && items[i].Path() == p {
        assert files[i].text == AsText(p);
      } else {
        BuiltDirectory(items, n, content, p);
      }
    }
  }

  // ---- Trees as the primitives change them ----

  lemma RemainsClosed(t: Tree, p: Rel)
    requires Closed(t) && forall q :: q in t && q != [] ==> Parent(q) != p
    ensures Closed(t - {p})
  {
    forall q | q in t - {p} ensures Housed(t - {p}, q) {
      assert Housed(t, q);
    }
  }

  lemma FilesHoldNothing(t: Tree, p: Rel)
    requires Closed(t) && p in t && !t[p].Directory?
    ensures forall q :: q in t && q != [] ==> Parent(q) != p
  {
    forall q | q in t && q != [] ensures Parent(q) != p {
      assert Housed(t, q);
    }
  }

  /** The deepest directory is empty, and what is left without it can still be removed. */
  lemma DeepestGoesFirst(t: Tree, p: Rel)
    requires Repairable(t) && Closed(t) && p in t && forall q :: q in t.Keys ==> |q| <= |p|
    ensures forall q :: q in t && q != [] ==> Parent(q) != p
    ensures Leftover(t - {p})
  {
    RemainsClosed(t, p);
    if p == [] {
      assert forall q :: q in t ==> q == [];
      assert t - {p} == map[];
    }
  }

  lemma {:induction false} Deepest(s: set<Rel>)
    requires s != {}
    ensures exists p :: p in s && forall q :: q in s ==> |q| <= |p|
    decreases |s|
  {
    var p :| p in s;
    if s == {p} {
    } else {
      Deepest(s - {p});
      var r :| r in s - {p} && forall q :: q in s - {p} ==> |q| <= |r|;
      var best := if |r| <= |p| then p else r;
      assert best in s && forall q :: q in s ==> |q| <= |best|;
    }
  }

  datatype Fate = Works | Raises | Dies

  /** Partials of other digests are as they were, and there are no new ones. */
  ghost predicate OthersKept(before: map<Name, Tree>, after: map<Name, Tree>, d: Digest) {
    && (forall n: Name :: n.digest != d && n in before ==> n in after)
    && (forall n: Name :: n in after ==> n in before && after[n] == before[n])
  }

  /** What verify_plan asks of the paths: relative, and no text twice. */
  predicate PlanOk(items: seq<Item>) {
    && (forall i :: 0 <= i < |items| ==> items[i].text != [] && items[i].text[0] != Empty)
    && (forall i, j :: 0 <= i < j < |items| ==> items[i].text != items[j].text)
  }

  ghost predicate Injective(seal: seq<Portable> -> Digest) {
    forall a, b :: seal(a) == seal(b) ==> a == b
  }

  /** What was published stays; at most the runtime `d` is new. */
  ghost predicate PublishedGrows(before: map<Digest, Tree>, after: map<Digest, Tree>, d: Digest) {
    && (forall e :: e in before ==> e in after && after[e] == before[e])
    && (forall e :: e in after ==> e in before || e == d)
  }

  /** Partials of other digests are exactly as they were. */
  ghost predicate OthersSpared(before: map<Name, Tree>, after: map<Name, Tree>, d: Digest) {
    forall n: Name :: n.digest != d ==> (n in before <==> n in after) && (n in before ==> after[n] == before[n])
  }

  ghost predicate AllLeftover(partials: map<Name, Tree>, serial: nat) {
    forall n :: n in partials ==> Leftover(partials[n]) && partials[n] != map[] && n.serial < serial
  }

  // ---- Several runs at once ----

  /** The name of a partial directory. */
  datatype Name = Name(digest: Digest, serial: nat)

  /** Which run holds the root lock, which run is building which partial, and the partials. */
  datatype Runs = Runs(holder: Option<nat>, building: map<nat, Name>, partials: set<Name>)

  datatype Move =
    | Acquire(run: nat)
    | RepairOne(run: nat, name: Name)
    | Make(run: nat, name: Name)
    | Complete(run: nat)              // the partial is renamed into place or removed
    | GiveUp(run: nat)                // an exception leaves the partial behind
    | Release(run: nat)
    | Die(run: nat)                   // the kernel drops the lock of a dead process

  ghost predicate Moves(s: Runs, m: Move, t: Runs) {
    match m
    case Acquire(r) => s.holder.None? && t == s.(holder := Some(r))
    case RepairOne(r, n) => s.holder == Some(r) && r !in s.building && n in s.partials && t == s.(partials := s.partials - {n})
    case Make(r, n) =>
      s.holder == Some(r) && r !in s.building && n !in s.partials
      && t == s.(building := s.building[r := n], partials := s.partials + {n})
    case Complete(r) =>
      s.holder == Some(r) && r in s.building
      && t == s.(building := s.building - {r}, partials := s.partials - {s.building[r]})
    case GiveUp(r) => s.holder == Some(r) && r in s.building && t == s.(building := s.building - {r})
    case Release(r) => s.holder == Some(r) && r !in s.building && t == s.(holder := None)
    case Die(r) => t == s.(building := s.building - {r}, holder := if s.holder == Some(r) then None else s.holder)
  }

  ghost predicate MovesAt(states: seq<Runs>, moves: seq<Move>, i: nat)
    requires i < |moves| && i + 1 < |states|
  {
    Moves(states[i], moves[i], states[i + 1])
  }

  /** Any interleaving of any number of runs, starting from any leftovers. */
  ghost predicate Interleaving(states: seq<Runs>, moves: seq<Move>) {
    && |states| == |moves| + 1 && states[0].holder.None? && states[0].building == map[]
    && forall i :: 0 <= i < |moves| ==> MovesAt(states, moves, i)
  }

  function OneBuilding(run: nat, n: Name): map<nat, Name> {
    map[run := n]
  }

  /** The states and moves of a root so far. */
  datatype Log = Log(states: seq<Runs>, moves: seq<Move>)

  type History = log: Log | Interleaving(log.states, log.moves) ghost witness Log([Runs(None, map[], {})], [])

  ghost predicate Extends(earlier: History, log: History) {
    earlier.states <= log.states && earlier.moves <= log.moves
  }

  lemma {:induction false} OnlyTheHolderBuilds(states: seq<Runs>, moves: seq<Move>, i: nat)
    requires Interleaving(states, moves) && i < |states|
    ensures forall r :: r in states[i].building ==> states[i].holder == Some(r) && states[i].building[r] in states[i].partials
  {
    if i > 0 {
      OnlyTheHolderBuilds(states, moves, i - 1);
      assert MovesAt(states, moves, i - 1);
    }
  }

  /** Repair never removes the partial of a running stage, and nobody else's building is
      disturbed by any move: a partial being built goes away only by its own run. */
  lemma RepairSparesRunningStages(states: seq<Runs>, moves: seq<Move>, i: nat, r: nat)
    requires Interleaving(states, moves) && i < |moves| && r in states[i].building
    requires moves[i].run == r ==> !moves[i].Complete? && !moves[i].Die? && !moves[i].GiveUp?
    ensures r in states[i + 1].building && states[i + 1].building[r] == states[i].building[r]
    ensures states[i].building[r] in states[i + 1].partials
    ensures moves[i].RepairOne? ==> moves[i].name != states[i].building[r]
  {
    OnlyTheHolderBuilds(states, moves, i);
    assert MovesAt(states, moves, i);
  }

  class Root {
    const sha: seq<Byte> -> Digest
    const seal: seq<Portable> -> Digest
    const content: nat -> seq<Byte>          // what reading a source yields
    const fate: nat -> Fate
    var tick: nat
    var serial: nat
    var published: map<Digest, Tree>
    var partials: map<Name, Tree>            // partial directories, but for the one being worked on
    var current: Name
    var tree: Tree                           // the partial directory being built or removed, if any
    ghost var log: History                   // every move of every run on this root
    ghost var runs: nat                      // runs are numbered as they come

    constructor (sha: seq<Byte> -> Digest, seal: seq<Portable> -> Digest, content: nat -> seq<Byte>, fate: nat -> Fate)
      ensures Valid() && Idle() && published == map[] && partials == map[] && tree == map[] && tick == 0
      ensures this.sha == sha && this.seal == seal && this.content == content && this.fate == fate
    {
      this.sha, this.seal, this.content, this.fate := sha, seal, content, fate;
      tick, serial, published, partials, current, tree := 0, 0, map[], map[], Name(0, 0), map[];
      log, runs := Log([Runs(None, map[], {})], []), 0;
    }

    ghost function Now(): Runs
      reads this`log
    {
      log.states[|log.states| - 1]
    }

    /** The names of the partial directories on disk. */
    ghost function Names(): set<Name>
      reads this`partials, this`current, this`tree
    {
      partials.Keys + if tree == map[] then {} else {current}
    }

    /** No run holds the lock. */
    ghost predicate Idle()
      reads this`log, this`partials, this`current, this`tree
    {
      Now() == Runs(None, map[], Names())
    }

    /** Run `me` holds the lock and has no partial in the making. */
    ghost predicate Holding(me: nat)
      reads this`log, this`partials, this`current, this`tree
    {
      Now() == Runs(Some(me), map[], Names())
    }

    /** Run `me` holds the lock and is building the partial `current`. */
    ghost predicate Making(me: nat)
      reads this`log, this`partials, this`current, this`tree
    {
      tree != map[] && Now() == Runs(Some(me), OneBuilding(me, current), Names())
    }

    ghost method Record(m: Move, s: Runs)
      requires Moves(Now(), m, s)
      modifies this`log
      ensures Now() == s && Extends(old(log), log)
    {
      ghost var next := Log(log.states + [s], log.moves + [m]);
      forall i | 0 <= i < |next.moves| ensures MovesAt(next.states, next.moves, i) {
        if i < |log.moves| {
          assert MovesAt(log.states, log.moves, i);
        }
      }
      log := next;
    }

    /** All partial directories on disk. */
    function Partials(): map<Name, Tree>
      reads this
    {
      if tree == map[] then partials else partials[current := tree]
    }

    /** Everything published verifies, every partial directory can be repaired. */
    ghost predicate Valid()
      reads this
    {
      && AllGenuine(published) && AllLeftover(partials, serial)
      && Leftover(tree) && (tree != map[] ==> current !in partials && current.serial < serial)
    }

    /** The tree verifies for the planned files that its digest seals. */
    ghost predicate Genuine(d: Digest, t: Tree) {
      Closed(t) && exists files :: seal(files) == d && Verified(t, files, sha)
    }

    ghost predicate AllGenuine(runtimes: map<Digest, Tree>) {
      forall d :: d in runtimes ==> Genuine(d, runtimes[d])
    }

    ghost predicate Calm(from: nat) {
      forall n :: from <= n ==> fate(n).Works?
    }

    method Next() returns (f: Fate)
      modifies this`tick
      ensures tick == old(tick) + 1 && f == fate(old(tick))
    {
      f := fate(tick);
      tick := tick + 1;
    }

    /** chmod 0700 on every directory of a partial. */
    method Thaw() returns (f: Fate)
      requires Repairable(tree) && Closed(tree)
      modifies this`tick, this`tree
      ensures old(tick) <= tick && Repairable(tree) && Closed(tree) && tree.Keys == old(tree).Keys
      ensures old(Calm(tick)) ==> f.Works?
    {
      var rest := set p | p in tree && tree[p].Directory?;
      while rest != {}
        invariant old(tick) <= tick && Repairable(tree) && Closed(tree) && tree.Keys == old(tree).Keys
        invariant forall p :: p in rest ==> p in tree && tree[p].Directory?
        modifies this`tick, this`tree
        decreases rest
      {
        var p :| p in rest;
        rest := rest - {p};
        f := Next();
        if !f.Works? { return; }
        assert Housed(tree, p);
        ClosedWith(tree, p, Directory(PRIVATE_DIRECTORY, tree[p].uid, tree[p].gid));
        tree := tree[p := Directory(PRIVATE_DIRECTORY, tree[p].uid, tree[p].gid)];
      }
      f := Works;
    }

    /** Unlinks every file of a partial. */
    method UnlinkFiles() returns (f: Fate)
      requires Repairable(tree) && Closed(tree)
      modifies this`tick, this`tree
      ensures old(tick) <= tick && Repairable(tree) && Closed(tree)
      ensures f.Works? ==> forall p :: p in tree ==> tree[p].Directory?
      ensures !f.Works? ==> tree != map[]
      ensures old(Calm(tick)) ==> f.Works?
    {
      var rest := set p | p in tree && !tree[p].Directory?;
      while rest != {}
        invariant old(tick) <= tick && Repairable(tree) && Closed(tree)
        invariant rest == set p | p in tree && !tree[p].Directory?
        modifies this`tick, this`tree
        decreases rest
      {
        var p :| p in rest;
        f := Next();
        if !f.Works? {
          assert p in tree;
          return;
        }
        rest := rest - {p};
        FilesHoldNothing(tree, p);
        RemainsClosed(tree, p);
        tree := tree - {p};
      }
      f := Works;
      assert forall p :: p in tree && !tree[p].Directory? ==> p in rest;
    }

    /** Removes the directories, deepest first, so that none is ever still occupied. */
    method RemoveDirectories() returns (f: Fate)
      requires Repairable(tree) && Closed(tree) && forall p :: p in tree ==> tree[p].Directory?
      modifies this`tick, this`tree
      ensures old(tick) <= tick && Leftover(tree)
      ensures f.Works? <==> tree == map[]
      ensures old(Calm(tick)) ==> f.Works?
    {
      while tree != map[]
        invariant old(tick) <= tick && Leftover(tree)
        invariant forall p :: p in tree ==> tree[p].Directory?
        modifies this`tick, this`tree
        decreases tree.Keys
      {
        Deepest(tree.Keys);
        var p :| p in tree.Keys && forall q :: q in tree.Keys ==> |q| <= |p|;
        DeepestGoesFirst(tree, p);
        f := Next();
        if !f.Works? { return; }
        tree := tree - {p};
      }
      f := Works;
    }

    /** _remove_private_partial: wherever it stops, what is left can be removed again. */
    method RemovePartial() returns (f: Fate)
      requires Leftover(tree) && tree != map[]
      modifies this`tick, this`tree
      ensures old(tick) <= tick && Leftover(tree)
      ensures f.Works? <==> tree == map[]
      ensures old(Calm(tick)) ==> f.Works?
    {
      if !Repairable(tree) { return Raises; }
      f := Thaw();
      if !f.Works? { return; }
      f := UnlinkFiles();
      if !f.Works? { return; }
      f := RemoveDirectories();
    }

    /** _repair_stale_partials: removes the partials of this digest and no others. */
    method Repair(d: Digest, ghost me: nat) returns (f: Fate)
      requires Valid() && tree == map[] && Holding(me)
      modifies this`tick, this`tree, this`partials, this`current, this`log
      ensures Valid() && old(tick) <= tick && (tree != map[] ==> current.digest == d)
      ensures Holding(me) && Extends(old(log), log)
      ensures OthersKept(old(partials), partials, d)
      ensures f.Works? ==> tree == map[] && forall n :: n in partials ==> n.digest != d
      ensures old(Calm(tick)) ==> f.Works?
    {
      var rest := set n | n in partials && n.digest == d;
      while rest != {}
        invariant Valid() && old(tick) <= tick && tree == map[]
        invariant Holding(me) && Extends(old(log), log)
        invariant rest == set n | n in partials && n.digest == d
        invariant OthersKept(old(partials), partials, d)
        modifies this`tick, this`tree, this`partials, this`current, this`log
        decreases rest
      {
        var n :| n in rest;
        rest := rest - {n};
        f := RepairOne(n, me);
        if !f.Works? { return; }
      }
      assert forall n :: n in partials && n.digest == d ==> n in rest;
      f := Next();
    }

    /** Removes one partial. */
    method RepairOne(n: Name, ghost me: nat) returns (f: Fate)
      requires Valid() && tree == map[] && Holding(me) && n in partials
      modifies this`tick, this`tree, this`partials, this`current, this`log
      ensures Valid() && old(tick) <= tick && (tree != map[] ==> current == n)
      ensures Holding(me) && Extends(old(log), log)
      ensures partials == old(partials) - {n} && (f.Works? <==> tree == map[])
      ensures old(Calm(tick)) ==> f.Works?
    {
      current, tree, partials := n, partials[n], partials - {n};     // the model's bookkeeping only
      assert Names() == old(Names());
      f := RemovePartial();
      if f.Works? {
        assert Names() == old(Names()) - {n};
        Record(Move.RepairOne(me, n), Now().(partials := Names()));
      }
    }

    /** mkdir 0700 of one directory in the partial. */
    method MakeDirectory(p: Rel) returns (f: Fate)
      requires Growing(tree) && p != [] && p !in tree && Parent(p) in tree && tree[Parent(p)].Directory?
      modifies this`tick, this`tree
      ensures tick == old(tick) + 1 && f == fate(old(tick)) && Growing(tree)
      ensures tree == if f.Works? then old(tree)[p := Directory(PRIVATE_DIRECTORY, 0, 0)] else old(tree)
    {
      f := Next();
      ClosedWith(tree, p, Directory(PRIVATE_DIRECTORY, 0, 0));
      if f.Works? { tree := tree[p := Directory(PRIVATE_DIRECTORY, 0, 0)]; }
    }

    /** _ensure_private_directory: climb to what exists, then make what is missing downwards. */
    method EnsureDirectory(path: Rel) returns (f: Fate)
      requires Growing(tree)
      modifies this`tick, this`tree
      ensures old(tick) <= tick && Growing(tree)
      ensures f.Works? ==> tree == WithDirectories(old(tree), path) && Passable(old(tree), path)
      ensures old(Calm(tick)) && Passable(old(tree), path) ==> f.Works?
    {
      var depth: nat := |path|;
      while path[..depth] != [] && path[..depth] !in tree
        invariant depth <= |path|
        invariant forall k :: depth < k <= |path| ==> path[..k] !in tree
        decreases depth
      {
        depth := depth - 1;
      }
      var current := path[..depth];
      assert IsPrefix(current, path);
      if current != [] && tree[current] != Directory(PRIVATE_DIRECTORY, 0, 0) {
        assert !Passable(tree, path);
        return Raises;
      }
      ExistingIsDirectory(tree, path, depth);
      AlreadyThere(tree, current);
      f := Works;
      while depth < |path|
        invariant depth <= |path| && old(tick) <= tick && Growing(tree)
        invariant tree == WithDirectories(old(tree), path[..depth]) && path[..depth] in tree && tree[path[..depth]].Directory?
        invariant forall k :: depth < k <= |path| ==> path[..k] !in old(tree)
      {
        var next := path[..depth + 1];
        assert Parent(next) == path[..depth];
        DirectoriesAt(old(tree), path[..depth], next);
        f := MakeDirectory(next);
        if !f.Works? { return; }
        depth := depth + 1;
      }
      assert path[..depth] == path;
      f := Works;
    }

    /** _copy_planned_file. */
    method CopyFile(item: Item) returns (f: Fate)
      requires Growing(tree) && item.Path() != []
      modifies this`tick, this`tree
      ensures old(tick) <= tick && Growing(tree)
      ensures f.Works? ==> SourceMatches(item, content, sha) && Fits(old(tree), item.Path()) && tree == WithFile(old(tree), item, content)
      ensures old(Calm(tick)) && SourceMatches(item, content, sha) && Fits(old(tree), item.Path()) ==> f.Works?
    {
      f := EnsureDirectory(Parent(item.Path()));
      if !f.Works? { return; }
      DirectoriesAt(old(tree), Parent(item.Path()), item.Path());
      DirectoriesAt(old(tree), Parent(item.Path()), Parent(item.Path()));
      if item.Path() in tree { return Raises; }
      assert Parent(item.Path()) in tree && tree[Parent(item.Path())].Directory? by {
        RootIsThere(old(tree), Parent(item.Path()));
      }
      f := WriteFile(item);
    }

    /** Creates the file exclusively, fills it, checks it, and gives it its mode. */
    method WriteFile(item: Item) returns (f: Fate)
      requires Growing(tree) && item.Path() != [] && item.Path() !in tree
      requires Parent(item.Path()) in tree && tree[Parent(item.Path())].Directory?
      modifies this`tick, this`tree
      ensures old(tick) <= tick && Growing(tree)
      ensures f.Works? ==> SourceMatches(item, content, sha) && tree == old(tree)[item.Path() := FileOf(item, content)]
      ensures old(Calm(tick)) && SourceMatches(item, content, sha) ==> f.Works?
    {
      var bytes := content(item.source);
      forall b: seq<Byte>, m: Mode { ClosedWith(tree, item.Path(), Regular(b, m, 0, 0, 1)); }
      f := Next();
      if !f.Works? { return; }
      tree := tree[item.Path() := Regular([], PRIVATE_FILE, 0, 0, 1)];
      f := Pour(item, bytes, old(tree));
      if !f.Works? { return; }
      assert bytes[..|bytes|] == bytes;
      if |bytes| > item.size || sha(tree[item.Path()].bytes) != item.sha { return Raises; }
      f := Next();
      if !f.Works? { return; }
      tree := tree[item.Path() := FileOf(item, content)];
      assert tree == old(tree)[item.Path() := FileOf(item, content)];
    }

    /** The chunked copy: reads and writes may be short, no byte is lost or repeated. */
    method Pour(item: Item, bytes: seq<Byte>, ghost directories: Tree) returns (f: Fate)
      requires item.Path() != [] && Growing(directories) && item.Path() !in directories
      requires Parent(item.Path()) in directories && directories[Parent(item.Path())].Directory?
      requires tree == directories[item.Path() := Regular([], PRIVATE_FILE, 0, 0, 1)]
      modifies this`tick, this`tree
      ensures old(tick) <= tick && Growing(tree)
      ensures item.Path() in tree && tree[item.Path()].Regular?
      ensures tree == directories[item.Path() := Regular(tree[item.Path()].bytes, PRIVATE_FILE, 0, 0, 1)]
      ensures f.Works? ==> item.size <= |bytes| && tree[item.Path()].bytes == bytes[..item.size]
      ensures old(Calm(tick)) && item.size <= |bytes| ==> f.Works?
    {
      forall b: seq<Byte>, m: Mode { ClosedWith(directories, item.Path(), Regular(b, m, 0, 0, 1)); }
      var copied := 0;
      while copied < item.size
        invariant 0 <= copied <= item.size && old(tick) <= tick && (copied > 0 ==> copied <= |bytes|)
        invariant copied <= |bytes|
        invariant tree == directories[item.Path() := Regular(bytes[..copied], PRIVATE_FILE, 0, 0, 1)]
        decreases item.size - copied
      {
        f := Next();
        if !f.Works? { return; }
        if copied == |bytes| { return Raises; }             // the source ended during the copy
        var size :| 0 < size <= item.size - copied && size <= |bytes| - copied;
        tree := tree[item.Path() := tree[item.Path()].(bytes := tree[item.Path()].bytes + bytes[copied..copied + size])];
        assert bytes[..copied] + bytes[copied..copied + size] == bytes[..copied + size];
        copied := copied + size;
      }
      f := Works;
    }

    /** Copies the next planned file. */
    method CopyNext(items: seq<Item>, n: nat) returns (f: Fate)
      requires Growing(tree) && n < |items|
      requires Copyable(items, n, content, sha) && tree == Built(items, n, content)
      modifies this`tick, this`tree
      ensures old(tick) <= tick && Growing(tree)
      ensures f.Works? ==> Copyable(items, n + 1, content, sha) && tree == Built(items, n + 1, content)
      ensures old(Calm(tick)) && Copyable(items, |items|, content, sha) ==> f.Works?
    {
      if items[n].Path() == [] { return Raises; }          // the parent lies outside the partial
      OneMoreCopyable(items, n, content, sha);
      f := CopyFile(items[n]);
    }

    /** Copies every planned file. */
    method CopyAll(items: seq<Item>) returns (f: Fate)
      requires tree == map[[] := Directory(PRIVATE_DIRECTORY, 0, 0)]
      modifies this`tick, this`tree
      ensures old(tick) <= tick && Growing(tree)
      ensures f.Works? ==> Copyable(items, |items|, content, sha) && tree == Built(items, |items|, content)
      ensures old(Calm(tick)) && Copyable(items, |items|, content, sha) ==> f.Works?
    {
      f := Works;
      var n := 0;
      assert Growing(tree) && Copyable(items, 0, content, sha);
      while n < |items|
        invariant n <= |items| && old(tick) <= tick && Growing(tree)
        invariant Copyable(items, n, content, sha) && tree == Built(items, n, content) && f.Works?
      {
        f := CopyNext(items, n);
        if !f.Works? { return; }
        n := n + 1;
      }
    }

    /** _freeze_and_sync_directories, deepest directories first. */
    method Freeze() returns (f: Fate)
      requires Growing(tree)
      modifies this`tick, this`tree
      ensures old(tick) <= tick && Leftover(tree) && tree != map[]
      ensures f.Works? ==> tree == Frozen(old(tree)) && Closed(tree)
      ensures old(Calm(tick)) ==> f.Works?
    {
      ghost var directories := set p | p in tree && tree[p].Directory?;
      var rest := set p | p in tree && tree[p].Directory?;
      f := Works;
      assert tree == Thawed(tree, rest);
      while rest != {}
        invariant old(tick) <= tick && Leftover(tree) && tree != map[] && f.Works?
        invariant rest <= directories
        invariant tree == Thawed(old(tree), rest)
        modifies this`tick, this`tree
        decreases rest
      {
        Deepest(rest);
        var p :| p in rest && forall q :: q in rest ==> |q| <= |p|;
        f := Next();
        if !f.Works? { return; }
        ThawedStep(old(tree), rest, p);
        rest := rest - {p};
        tree := tree[p := Directory(FROZEN, 0, 0)];
      }
      assert tree == Frozen(old(tree)) && Closed(tree);
    }

    /** _verify_tree_contents: walks the tree, gathers the files it saw, compares the inventory. */
    method Check(t: Tree, files: seq<Portable>) returns (ok: bool)
      requires forall i, j :: 0 <= i < j < |files| ==> files[i].text != files[j].text
      ensures ok <==> Verified(t, files, sha)
    {
      if [] !in t || !t[[]].Directory? { return false; }
      var actual, rest := {}, t.Keys;
      while rest != {}
        invariant rest <= t.Keys
        invariant forall p :: p in t && p !in rest ==> EntryMatches(t, files, p, sha)
        invariant actual == set p | p in t && p !in rest && !t[p].Directory?
        decreases rest
      {
        var p :| p in rest;
        ghost var before := rest;
        rest := rest - {p};
        if !EntryMatches(t, files, p, sha) { return false; }
        if !t[p].Directory? { actual := actual + {p}; }
        assert forall q :: q in t && q !in rest <==> q == p || (q in t && q !in before);
      }
      var expected := set i | 0 <= i < |files| :: files[i].text;
      var shown := set p | p in actual :: AsText(p);
      ok := shown == expected;
      if ok {
        forall i | 0 <= i < |files| ensures Shown(t, files[i].text) {
          assert files[i].text in shown;
          var p :| p in actual && AsText(p) == files[i].text;
          TextRead(p);
        }
      } else if Verified(t, files, sha) {
        forall text ensures text in shown <==> text in expected {
          if text in expected {
            var i :| 0 <= i < |files| && files[i].text == text;
            assert Shown(t, text);
            NormalIsRead(text);
            assert Parts(text) in actual;
          }
        }
      }
    }

    /** Fills, freezes and checks the new partial. */
    method Build(items: seq<Item>) returns (f: Fate)
      requires tree == map[[] := Directory(PRIVATE_DIRECTORY, 0, 0)] && PlanOk(items)
      modifies this`tick, this`tree
      ensures old(tick) <= tick && Leftover(tree) && tree != map[]
      ensures f.Works? ==> Verified(tree, PortableOf(items), sha) && Buildable(items, content, sha)
      ensures old(Calm(tick)) && Buildable(items, content, sha) ==> f.Works?
    {
      assert [] in tree;
      f := Next();                                        // the source directories are as planned
      if !f.Works? { return; }
      f := CopyAll(items);
      if !f.Works? { return; }
      f := Next();                                        // and still are
      if !f.Works? { return; }
      f := Freeze();
      if !f.Works? { return; }
      VerifiedExactlyWhenNormal(items, content, sha);
      var ok := Check(tree, PortableOf(items));
      f := if ok then Works else Raises;
    }

    /** Repairs the stale partials of the digest and makes a new, empty one. */
    method StartPartial(d: Digest, ghost me: nat) returns (f: Fate)
      requires Valid() && Holding(me)
      modifies this`tick, this`serial, this`partials, this`current, this`tree, this`log
      ensures Valid() && old(tick) <= tick
      ensures (if f.Works? then Making(me) else Holding(me)) && Extends(old(log), log)
      ensures OthersSpared(old(Partials()), Partials(), d)
      ensures f.Works? ==> tree == map[[] := Directory(PRIVATE_DIRECTORY, 0, 0)] && current.digest == d
      ensures old(Calm(tick)) ==> f.Works?
    {
      Settle();
      f := Repair(d, me);
      if !f.Works? { return; }
      f := Next();
      if !f.Works? { return; }
      MakePartial(d, me);
    }

    /** mkdir 0700 of a new partial. */
    method MakePartial(d: Digest, ghost me: nat)
      requires Valid() && Holding(me) && tree == map[]
      modifies this`serial, this`current, this`tree, this`log
      ensures Valid() && Making(me) && Extends(old(log), log)
      ensures tree == map[[] := Directory(PRIVATE_DIRECTORY, 0, 0)] && current.digest == d
    {
      current, serial := Name(d, serial), serial + 1;
      tree := map[[] := Directory(PRIVATE_DIRECTORY, 0, 0)];
      assert [] in tree;
      Record(Make(me, current), Runs(Some(me), OneBuilding(me, current), Names()));
    }

    /** Builds the tree and publishes it. */
    method Finish(items: seq<Item>, d: Digest, ghost me: nat) returns (f: Fate)
      requires Valid() && PlanOk(items) && d == seal(PortableOf(items)) && d !in published && Making(me)
      requires tree == map[[] := Directory(PRIVATE_DIRECTORY, 0, 0)]
      modifies this`tick, this`published, this`tree, this`log
      ensures Valid() && old(tick) <= tick
      ensures (if tree != map[] then Making(me) else Holding(me)) && (f.Works? ==> tree == map[]) && Extends(old(log), log)
      ensures PublishedGrows(old(published), published, d) && (tree == map[] ==> current !in partials)
      ensures f.Works? ==> d in published && Verified(published[d], PortableOf(items), sha) && Buildable(items, content, sha)
      ensures old(Calm(tick)) && Buildable(items, content, sha) ==> f.Works?
    {
      assert [] in tree;
      f := Build(items);
      assert old(Calm(tick)) ==> Calm(tick);
      if f.Works? { f := Publish(d, PortableOf(items), me); }
    }

    /** Repairs stale partials, builds a new one, and renames it into place. */
    method StageNew(items: seq<Item>, d: Digest, ghost me: nat) returns (f: Fate)
      requires Valid() && PlanOk(items) && d == seal(PortableOf(items)) && d !in published && Holding(me)
      modifies this`tick, this`serial, this`published, this`partials, this`current, this`tree, this`log
      ensures Valid()
      ensures (Holding(me) || (f.Dies? && Making(me))) && Extends(old(log), log)
      ensures PublishedGrows(old(published), published, d) && OthersSpared(old(Partials()), Partials(), d)
      ensures f.Works? ==> d in published && Verified(published[d], PortableOf(items), sha) && Buildable(items, content, sha)
      ensures old(Calm(tick)) && Buildable(items, content, sha) ==> f.Works?
    {
      f := StartPartial(d, me);
      if !f.Works? { return; }
      f := Finish(items, d, me);
      if f.Raises? && tree != map[] {
        var g := CleanUp(me);                              // the `finally` clause
        if g.Dies? { f := Dies; }
      }
    }

    /** Removes the partial of a failed build, or leaves it to a later repair. */
    method CleanUp(ghost me: nat) returns (f: Fate)
      requires Valid() && Making(me)
      modifies this`tick, this`tree, this`log
      ensures Valid() && old(tick) <= tick && (f.Works? <==> tree == map[])
      ensures (if f.Dies? then Making(me) else Holding(me)) && Extends(old(log), log)
      ensures old(Calm(tick)) ==> f.Works?
    {
      f := RemovePartial();
      if f.Works? {
        assert Names() == old(Names()) - {current};
        Record(Complete(me), Runs(Some(me), map[], Names()));
      } else if f.Raises? {
        Record(GiveUp(me), Runs(Some(me), map[], Names()));
      }
    }

    /** Rename and sync.  A death before the sync may undo the rename. */
    method Publish(d: Digest, files: seq<Portable>, ghost me: nat) returns (f: Fate)
      requires Valid() && tree != map[] && Verified(tree, files, sha) && seal(files) == d && d !in published && Making(me)
      modifies this`tick, this`published, this`tree, this`log
      ensures Valid() && old(tick) <= tick
      ensures (if tree != map[] then Making(me) else Holding(me)) && Extends(old(log), log)
      ensures (published == old(published) && tree == old(tree)) || (published == old(published)[d := old(tree)] && tree == map[])
      ensures f.Works? ==> published == old(published)[d := old(tree)]
      ensures old(Calm(tick)) ==> f.Works?
    {
      f := Next();
      if !f.Works? { return; }
      var renamed := tree;
      published, tree := published[d := tree], map[];
      f := Next();
      if f.Dies? {
        var undone: bool :| true;
        if undone {
          published, tree := published - {d}, renamed;
          return;
        }
      }
      assert Names() == old(Names()) - {current};
      Record(Complete(me), Runs(Some(me), map[], Names()));
    }

    /** The model's bookkeeping only: no partial is being worked on any more. */
    method Settle()
      requires Valid()
      modifies this`partials, this`tree
      ensures Valid() && tree == map[] && partials == old(Partials()) && Names() == old(Names())
    {
      if tree != map[] { partials := partials[current := tree]; }
      tree := map[];
    }

    /** flock: the next run takes the root lock. */
    ghost method Lock() returns (me: nat)
      requires Idle()
      modifies this`log, this`runs
      ensures me == old(runs) && runs == me + 1 && Holding(me) && Extends(old(log), log)
    {
      me, runs := runs, runs + 1;
      Record(Acquire(me), Runs(Some(me), map[], Names()));
    }

    /** The lock is released, or dropped by the kernel when the run dies. */
    ghost method Unlock(me: nat, died: bool)
      requires Holding(me) || (died && Making(me))
      modifies this`log
      ensures Idle() && Extends(old(log), log)
    {
      assert died && Making(me) ==> OneBuilding(me, current) - {me} == map[];
      Record(if died then Die(me) else Release(me), Runs(None, map[], Names()));
    }

    /** stage, under the root lock.  Whatever happens, everything published verifies and every
        partial directory can be repaired; nothing published is ever changed or removed.  Every
        step is a legal move of the run, which gives the lock back in every outcome. */
    method Stage(items: seq<Item>) returns (f: Fate)
      requires Valid() && Idle()
      modifies this`tick, this`serial, this`published, this`partials, this`current, this`tree, this`log, this`runs
      ensures Valid() && Idle() && Extends(old(log), log)
      ensures PublishedGrows(old(published), published, seal(PortableOf(items)))
      ensures OthersSpared(old(Partials()), Partials(), seal(PortableOf(items)))
      ensures f.Works? ==> PlanOk(items) && seal(PortableOf(items)) in published
                           && Verified(published[seal(PortableOf(items))], PortableOf(items), sha)
      ensures f.Works? ==> Buildable(items, content, sha) || seal(PortableOf(items)) in old(published)
      // The next stage can always proceed, whatever crashes came before it.
      ensures old(Calm(tick)) && PlanOk(items) && Injective(seal) ==>
                (f.Works? <==> seal(PortableOf(items)) in old(published) || Buildable(items, content, sha))
    {
      if !PlanOk(items) { return Raises; }
      ghost var me := Lock();
      f := StageLocked(items, me);
      Unlock(me, f.Dies?);
    }

    method StageLocked(items: seq<Item>, ghost me: nat) returns (f: Fate)
      requires Valid() && PlanOk(items) && Holding(me)
      modifies this`tick, this`serial, this`published, this`partials, this`current, this`tree, this`log
      ensures Valid()
      ensures (Holding(me) || (f.Dies? && Making(me))) && Extends(old(log), log)
      ensures PublishedGrows(old(published), published, seal(PortableOf(items)))
      ensures OthersSpared(old(Partials()), Partials(), seal(PortableOf(items)))
      ensures f.Works? ==> seal(PortableOf(items)) in published
                           && Verified(published[seal(PortableOf(items))], PortableOf(items), sha)
      ensures f.Works? ==> Buildable(items, content, sha) || seal(PortableOf(items)) in old(published)
      ensures old(Calm(tick)) && Injective(seal) ==>
                (f.Works? <==> seal(PortableOf(items)) in old(published) || Buildable(items, content, sha))
    {
      var files := PortableOf(items);
      var d := seal(files);
      if d in published {
        var ok := Check(published[d], files);
        if Injective(seal) {
          var others :| seal(others) == d && Verified(published[d], others, sha);
          assert others == files;
        }
        return if ok then Works else Raises;
      }
      f := StageNew(items, d, me);
    }

    /** What is published under a digest passes the verification of every plan of that digest. */
    lemma EveryPlanVerifies(items: seq<Item>)
      requires Valid() && Injective(seal) && seal(PortableOf(items)) in published
      ensures Verified(published[seal(PortableOf(items))], PortableOf(items), sha)
    {
      var d := seal(PortableOf(items));
      assert Genuine(d, published[d]);
      var files :| seal(files) == d && Verified(published[d], files, sha);
      assert files == PortableOf(items);
    }
  }

  /** The plan can be copied, and what was copied is found under the planned texts. */
  ghost predicate Buildable(items: seq<Item>, content: nat -> seq<Byte>, sha: seq<Byte> -> Digest) {
    Copyable(items, |items|, content, sha) && AllNormal(items)
  }

  /** The copied and frozen tree passes the verification exactly when every path is normal. */
  lemma VerifiedExactlyWhenNormal(items: seq<Item>, content: nat -> seq<Byte>, sha: seq<Byte> -> Digest)
    requires Copyable(items, |items|, content, sha)
    ensures Verified(Frozen(Built(items, |items|, content)), PortableOf(items), sha) <==> AllNormal(items)
  {
    assert items[..|items|] == items;
    if AllNormal(items) {
      FrozenIsVerified(items, content, sha);
    } else {
      var i :| 0 <= i < |items| && !Normal(items[i].text);
      assert !Shown(Frozen(Built(items, |items|, content)), PortableOf(items)[i].text);
    }
  }

  /** A dot in a planned path passes the check of the plan and the copy, and no more. */
  lemma DottedIsNotBuildable(item: Item, content: nat -> seq<Byte>, sha: seq<Byte> -> Digest)
    requires item.text == [Named(1), Dot, Named(2)] && SourceMatches(item, content, sha)
    ensures PlanOk([item]) && Copyable([item], 1, content, sha) && !Buildable([item], content, sha)
  {
    assert item.text[1..] == [Dot, Named(2)];
    assert Parts(item.text)[0] == 1;
    assert !Normal(item.text);
    assert [item][0] == item;
  }

  /** The first `n` files have the planned content, and none is in another one's way. */
  ghost predicate Copyable(items: seq<Item>, n: nat, content: nat -> seq<Byte>, sha: seq<Byte> -> Digest)
    requires n <= |items|
  {
    PlannedPaths(items, n) && PrefixFree(items, n) && SourcesMatch(items[..n], content, sha)
  }

  lemma OneMoreCopyable(items: seq<Item>, n: nat, content: nat -> seq<Byte>, sha: seq<Byte> -> Digest)
    requires n < |items| && Copyable(items, n, content, sha) && items[n].Path() != []
    ensures Copyable(items, n + 1, content, sha) <==> (SourceMatches(items[n], content, sha) && Fits(Built(items, n, content), items[n].Path()))
    ensures Copyable(items, |items|, content, sha) ==> Copyable(items, n + 1, content, sha)
  {
    OneMoreFits(items, n, content);
    var fewer, more := items[..n], items[..n + 1];
    assert more == fewer + [items[n]];
    assert SourcesMatch(more, content, sha) ==> SourceMatches(more[n], content, sha);
    assert items[..|items|] == items;
  }

  lemma ThawedStep(t: Tree, rest: set<Rel>, p: Rel)
    requires Growing(t) && p in t && t[p].Directory? && p in rest
    ensures Thawed(t, rest - {p}) == Thawed(t, rest)[p := Directory(FROZEN, 0, 0)]
    ensures Repairable(Thawed(t, rest - {p})) && Closed(Thawed(t, rest - {p}))
  {
    forall q | q in t ensures Housed(Thawed(t, rest - {p}), q) {
      assert Housed(t, q);
    }
  }

  /** The tree frozen but for the directories in `rest`. */
  ghost function Thawed(t: Tree, rest: set<Rel>): Tree {
    map p | p in t :: if t[p].Directory? && p !in rest then Directory(FROZEN, 0, 0) else t[p]
  }

  /** A partial while files are being copied: private directories, nothing frozen yet. */
  ghost predicate Growing(t: Tree) {
    Repairable(t) && Closed(t) && forall p :: p in t && t[p].Directory? ==> t[p] == Directory(PRIVATE_DIRECTORY, 0, 0)
  }

  /** No file is in the way of the directories down to `p`. */
  ghost predicate Passable(t: Tree, p: Rel) {
    forall q :: q in t && IsPrefix(q, p) ==> t[q].Directory?
  }

  /** The file can be created here. */
  ghost predicate Fits(t: Tree, p: Rel)
    requires p != []
  {
    p !in t && Passable(t, Parent(p))
  }

  lemma RootIsThere(t: Tree, p: Rel)
    requires Growing(t) && Passable(t, p)
    ensures p in WithDirectories(t, p) && WithDirectories(t, p)[p].Directory?
  {
    DirectoriesAt(t, p, p);
    if p in t { assert IsPrefix(p, p); }
  }

  lemma {:induction false} AncestorsAreDirectories(t: Tree, p: Rel, q: Rel)
    requires Closed(t) && p in t && IsPrefix(q, p) && q != p
    ensures q in t && t[q].Directory?
    decreases |p|
  {
    PrefixOfParent(q, p);
    assert Housed(t, p);
    if q != Parent(p) { AncestorsAreDirectories(t, Parent(p), q); }
  }

  lemma ExistingIsDirectory(t: Tree, path: Rel, depth: nat)
    requires Growing(t) && depth <= |path| && path[..depth] in t && t[path[..depth]].Directory?
    requires forall k :: depth < k <= |path| ==> path[..k] !in t
    ensures Passable(t, path)
  {
    forall q | q in t && IsPrefix(q, path) ensures t[q].Directory? {
      assert q == path[..|q|];
      if q != path[..depth] {
        assert |q| < depth && IsPrefix(q, path[..depth]);
        AncestorsAreDirectories(t, path[..depth], q);
      }
    }
  }

  lemma {:induction false} AlreadyThere(t: Tree, p: Rel)
    requires Closed(t) && p in t
    ensures WithDirectories(t, p) == t
    decreases |p|
  {
    assert Housed(t, p);
    if p != [] { AlreadyThere(t, Parent(p)); }
  }

  /** The next file fits into the tree built so far exactly when the plan stays prefix-free. */
  lemma OneMoreFits(items: seq<Item>, n: nat, content: nat -> seq<Byte>)
    requires n < |items| && PlannedPaths(items, n + 1) && PrefixFree(items, n)
    ensures PrefixFree(items, n + 1) <==>
            Fits(Built(items, n, content), items[n].Path())
  {
    var t, p := Built(items, n, content), items[n].Path();
    if PrefixFree(items, n + 1) {
      forall i | 0 <= i < n ensures !IsPrefix(items[i].Path(), p) && !IsPrefix(p, items[i].Path()) {
        assert Apart(items, i, n) && Apart(items, n, i);
      }
      BuiltDirectory(items, n, content, p);
      forall q | q in t && IsPrefix(q, Parent(p)) ensures t[q].Directory? {
        PrefixOfParent(q, p);
        BuiltDirectory(items, n, content, q);
      }
    }
    if p !in t && Passable(t, Parent(p)) {
      forall i | 0 <= i < n ensures Apart(items, i, n) && Apart(items, n, i) {
        BuiltFile(items, n, content, i);
        PrefixOfParent(items[i].Path(), p);
        if IsPrefix(p, items[i].Path()) {
          assert Below(items, n, p);
          if j :| 0 <= j < n && items[j].Path() == p {
            BuiltFile(items, n, content, j);
          } else {
            BuiltDirectory(items, n, content, p);
          }
        }
      }
    }
  }
}
