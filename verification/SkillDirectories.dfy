/**
 The skill directories of scripts/install_server_wide_coordinator.py:
 install_owned_skill_directory and rollback_skill_root_directories.

 The host is a tree of named nodes; a directory has an identity (device and inode), an
 owner and a mode.  Every entry is journaled before the directory is touched and again
 when it is secured, and the run may end between any two effects.  One directory may be
 installed several times.
 */
module SkillDirectories {
  import opened Faults
  import opened Options
  import opened Posix

  type Path = nat

  datatype Node =
    | Directory(id: nat, uid: nat, gid: nat, mode: Mode)
    | Other                                  // a file, a symbolic link, a device

  type Tree = map<Path, Node>

  const PRIVATE: Mode := {8, 7, 6}

  /** What the rollback reads of a journal entry. */
  datatype Entry = Entry(path: Path, before: Option<Node>, installed: Option<Node>)

  datatype Item = Item(path: Path, uid: nat, gid: nat)

  function StateOf(t: Tree, p: Path): Option<Node> {
    if p in t then Some(t[p]) else None
  }

  /** The directory exists, or can be made in its parent. */
  predicate Installable(t: Tree, parent: Path -> Option<Path>, p: Path) {
    if p in t then t[p].Directory?
    else parent(p).Some? ==> parent(p).value in t && t[parent(p).value].Directory?
  }

  /** Every node lies in a directory of the tree. */
  ghost predicate Closed(t: Tree, parent: Path -> Option<Path>) {
    forall p :: p in t && parent(p).Some? ==> parent(p).value in t && parent(p).value != p
  }

  predicate Empty(t: Tree, parent: Path -> Option<Path>, p: Path) {
    forall q :: q in t ==> parent(q) != Some(p)
  }

  /** The tree with the item secured; `newId` is the identity a new directory gets. */
  function Placed(t: Tree, item: Item, newId: nat): Tree {
    t[item.path := Directory(if item.path in t && t[item.path].Directory? then t[item.path].id else newId,
                             item.uid, item.gid, PRIVATE)]
  }

  // ---- Undoing one entry ----

  predicate SameIdentity(recorded: Node, n: Node) {
    recorded.Directory? && n.Directory? && recorded.id == n.id
  }

  predicate Undoable(t: Tree, parent: Path -> Option<Path>, e: Entry) {
    if e.path !in t then e.before.None?
    else
      && t[e.path].Directory?
      && (e.installed.Some? ==> e.installed.value == t[e.path])
      && (if e.before.Some? then SameIdentity(e.before.value, t[e.path])
          else e.installed.Some? && Empty(t, parent, e.path))
  }

  function Undone(t: Tree, e: Entry): Tree {
    if e.path !in t then t
    else if e.before.Some? && e.before.value.Directory? && t[e.path].Directory? then
      t[e.path := t[e.path].(uid := e.before.value.uid, gid := e.before.value.gid, mode := e.before.value.mode)]
    else t - {e.path}
  }

  ghost function Rewind(t: Tree, entries: seq<Entry>, k: nat): Tree
    requires k <= |entries|
    decreases |entries| - k
  {
    if k == |entries| then t else Undone(Rewind(t, entries, k + 1), entries[k])
  }

  ghost predicate ClearsAt(t: Tree, parent: Path -> Option<Path>, entries: seq<Entry>, i: nat)
    requires i < |entries|
  {
    Undoable(Rewind(t, entries, i + 1), parent, entries[i])
  }

  ghost predicate Clears(t: Tree, parent: Path -> Option<Path>, entries: seq<Entry>, k: nat)
    requires k <= |entries|
  {
    forall i :: k <= i < |entries| ==> ClearsAt(t, parent, entries, i)
  }

  // ---- Runs ----

  /** How far one installation got: the tree `h` and the entry `e` on disk. */
  ghost predicate Reached(t: Tree, parent: Path -> Option<Path>, item: Item, h: Tree, e: Entry) {
    && e.path == item.path && e.before == StateOf(t, item.path)
    && (item.path in t ==> t[item.path].Directory?)
    && (h == t || (Installable(t, parent, item.path) && item.path in h && h - {item.path} == t - {item.path}
                   && h[item.path].Directory? && (item.path in t ==> h[item.path].id == t[item.path].id)))
    && (e.installed.Some? ==> item.path in h && e.installed.value == h[item.path])
  }

  /** A directory was made and its entry does not say how it was left. */
  predicate Unrecorded(t: Tree, e: Entry) {
    e.path in t && e.before.None? && e.installed.None?
  }

  /** Undoing one entry gives the tree before it exactly, unless the run ended after the
      directory was made and before that was recorded; then undoing is refused. */
  lemma StepBack(t: Tree, parent: Path -> Option<Path>, item: Item, h: Tree, e: Entry)
    requires Closed(t, parent) && Reached(t, parent, item, h, e)
    ensures Closed(h, parent)
    ensures Undoable(h, parent, e) <==> !Unrecorded(h, e)
    ensures Undoable(h, parent, e) ==> Undone(h, e) == t
  {
    var p := item.path;
    assert h.Keys == t.Keys || h.Keys == t.Keys + {p} by {
      if h != t {
        assert forall q :: q != p ==> (q in h <==> q in h - {p}) && (q in t <==> q in t - {p});
      }
    }
    assert forall q :: q in t && q != p ==> h[q] == t[q] by {
      if h != t { assert forall q :: q in t && q != p ==> (h - {p})[q] == (t - {p})[q]; }
    }
    ClosedBy(t, h, parent, p);
    if p in h && p !in t {
      assert Empty(h, parent, p);
    }
    if Undoable(h, parent, e) {
      if p in t { assert Undone(h, e)[p] == t[p]; }
      assert Undone(h, e) == t;
    }
  }

  lemma ClosedBy(t: Tree, h: Tree, parent: Path -> Option<Path>, p: Path)
    requires Closed(t, parent) && (h.Keys == t.Keys || (h.Keys == t.Keys + {p} && Installable(t, parent, p)))
    ensures Closed(h, parent)
  {
    forall q | q in h && parent(q).Some? ensures parent(q).value in h && parent(q).value != q {
      if q in t { assert parent(q).value in t; }
    }
  }

  /** Consecutive trees of a run: entry i was taken between trees i and i + 1. */
  ghost predicate StepOf(trees: seq<Tree>, parent: Path -> Option<Path>, items: seq<Item>, entries: seq<Entry>, i: nat)
    requires i < |items| && i + 1 < |trees| && i < |entries|
  {
    Reached(trees[i], parent, items[i], trees[i + 1], entries[i])
  }

  ghost predicate IsRun(trees: seq<Tree>, parent: Path -> Option<Path>, items: seq<Item>, entries: seq<Entry>) {
    && |trees| == |entries| + 1 && |entries| <= |items| && Closed(trees[0], parent)
    && (forall i :: 0 <= i < |entries| ==> StepOf(trees, parent, items, entries, i))
    && (forall i :: 0 <= i < |entries| - 1 ==> entries[i].installed.Some?)
  }

  lemma {:induction false} AllClosed(trees: seq<Tree>, parent: Path -> Option<Path>, items: seq<Item>, entries: seq<Entry>, i: nat)
    requires IsRun(trees, parent, items, entries) && i < |trees|
    ensures Closed(trees[i], parent)
  {
    if i > 0 {
      AllClosed(trees, parent, items, entries, i - 1);
      assert StepOf(trees, parent, items, entries, i - 1);
      StepBack(trees[i - 1], parent, items[i - 1], trees[i], entries[i - 1]);
    }
  }

  lemma {:induction false} RewindIsExact(trees: seq<Tree>, parent: Path -> Option<Path>, items: seq<Item>, entries: seq<Entry>, k: nat)
    requires IsRun(trees, parent, items, entries) && k <= |entries|
    requires |entries| > 0 ==> !Unrecorded(trees[|entries|], entries[|entries| - 1])
    ensures Rewind(trees[|entries|], entries, k) == trees[k]
    decreases |entries| - k
  {
    if k < |entries| {
      RewindIsExact(trees, parent, items, entries, k + 1);
      AllClosed(trees, parent, items, entries, k);
      assert StepOf(trees, parent, items, entries, k);
      StepBack(trees[k], parent, items[k], trees[k + 1], entries[k]);
    }
  }

  /** However a run ended, and however often a directory was installed, rollback goes through
      exactly when the last directory is not unrecorded, and then it gives back every
      directory that was there and removes every one that was made. */
  lemma RoundTrip(trees: seq<Tree>, parent: Path -> Option<Path>, items: seq<Item>, entries: seq<Entry>)
    requires IsRun(trees, parent, items, entries)
    ensures var last := trees[|entries|];
            && (Clears(last, parent, entries, 0) <==> (|entries| > 0 ==> !Unrecorded(last, entries[|entries| - 1])))
            && (Clears(last, parent, entries, 0) ==> Rewind(last, entries, 0) == trees[0])
  {
    var n := |entries|;
    if n > 0 {
      AllClosed(trees, parent, items, entries, n - 1);
      assert StepOf(trees, parent, items, entries, n - 1);
      StepBack(trees[n - 1], parent, items[n - 1], trees[n], entries[n - 1]);
      assert Rewind(trees[n], entries, n) == trees[n];
      assert ClearsAt(trees[n], parent, entries, n - 1) <==> !Unrecorded(trees[n], entries[n - 1]);
    }
    if n > 0 ==> !Unrecorded(trees[n], entries[n - 1]) {
      forall i | 0 <= i < n ensures ClearsAt(trees[n], parent, entries, i) {
        RewindIsExact(trees, parent, items, entries, i + 1);
        AllClosed(trees, parent, items, entries, i);
        assert StepOf(trees, parent, items, entries, i);
        StepBack(trees[i], parent, items[i], trees[i + 1], entries[i]);
      }
      RewindIsExact(trees, parent, items, entries, 0);
    }
  }

  // ---- Interference ----

  ghost predicate Knows(e: Entry, p: Path, id: nat) {
    e.path == p && ((e.before.Some? && e.before.value.Directory? && e.before.value.id == id)
                    || (e.installed.Some? && e.installed.value.Directory? && e.installed.value.id == id))
  }

  lemma {:induction false} RewindElsewhere(t: Tree, entries: seq<Entry>, k: nat, p: Path)
    requires k <= |entries| && forall i :: k <= i < |entries| ==> entries[i].path != p
    ensures StateOf(Rewind(t, entries, k), p) == StateOf(t, p)
    decreases |entries| - k
  {
    if k < |entries| { RewindElsewhere(t, entries, k + 1, p); }
  }

  /** A node that no entry recorded is never changed: rollback stops before its path. */
  lemma {:induction false} ForeignNodeIsKept(t: Tree, parent: Path -> Option<Path>, entries: seq<Entry>, k: nat, p: Path)
    requires k <= |entries| && p in t && Clears(t, parent, entries, k)
    requires t[p].Directory? ==> forall i :: 0 <= i < |entries| ==> !Knows(entries[i], p, t[p].id)
    ensures forall i :: k <= i < |entries| ==> entries[i].path != p
    ensures StateOf(Rewind(t, entries, k), p) == StateOf(t, p)
    decreases |entries| - k
  {
    if k < |entries| {
      ForeignNodeIsKept(t, parent, entries, k + 1, p);
      assert ClearsAt(t, parent, entries, k);
      RewindElsewhere(t, entries, k, p);
    }
  }

  /** A secured directory whose owner or mode was changed since is kept as it is. */
  lemma ChangedMetadataIsKept(t: Tree, parent: Path -> Option<Path>, entries: seq<Entry>, k: nat, i: nat)
    requires k <= |entries| && Clears(t, parent, entries, k)
    requires i < |entries| && entries[i].installed.Some? && entries[i].path in t && t[entries[i].path] != entries[i].installed.value
    requires forall j :: i < j < |entries| ==> entries[j].path != entries[i].path
    ensures i < k && StateOf(Rewind(t, entries, k), entries[i].path) == StateOf(t, entries[i].path)
  {
    RewindElsewhere(t, entries, i + 1, entries[i].path);
    assert !ClearsAt(t, parent, entries, i);
    RewindElsewhere(t, entries, k, entries[i].path);
  }

  datatype RollbackResult = Complete | Refused(at: nat) | Interrupted(at: nat)

  class SkillRoots {
    const parent: Path -> Option<Path>
    const fate: nat -> Fate
    var tick: nat
    var nextId: nat
    var tree: Tree
    var memory: seq<Entry>             // skill_root_directories in the running program
    var journal: seq<Entry>            // the same list in the journal on disk

    constructor (parent: Path -> Option<Path>, fate: nat -> Fate, tree: Tree)
      ensures this.parent == parent && this.fate == fate && this.tree == tree && tick == 0
      ensures memory == [] && journal == []
    {
      this.parent, this.fate, this.tree := parent, fate, tree;
      memory, journal, tick, nextId := [], [], 0, 0;
    }

    method Next() returns (f: Fate)
      modifies this`tick
      ensures tick == old(tick) + 1 && f == fate(old(tick))
    {
      f := fate(tick);
      tick := tick + 1;
    }

    /** One effect on the directory `p`; tells whether the run goes on. */
    method Change(p: Path, n: Node) returns (on: bool)
      modifies this`tick, this`tree
      ensures tick == old(tick) + 1
      ensures tree == if fate(old(tick)).Fails? then old(tree) else old(tree)[p := n]
      ensures on <==> fate(old(tick)).Works?
    {
      var f := Next();
      if !f.Fails? { tree := tree[p := n]; }
      on := f.Works?;
    }

    /** Writes the list of the running program to disk. */
    method Persist() returns (on: bool)
      modifies this`tick, this`journal
      ensures tick == old(tick) + 1 && (on <==> fate(old(tick)).Works?)
      ensures journal == if fate(old(tick)).Fails? then old(journal) else memory
    {
      var f := Next();
      if !f.Fails? { journal := memory; }
      on := f.Works?;
    }

    /** install_owned_skill_directory. */
    method InstallOwned(item: Item) returns (ok: bool)
      requires journal == memory
      modifies this`tick, this`nextId, this`tree, this`memory, this`journal
      ensures old(tick) <= tick
      ensures ok ==> |memory| > |old(memory)| && journal == memory
      ensures memory == old(memory) ==> tree == old(tree) && journal == memory
      ensures memory != old(memory) ==> OneMore(old(memory), old(tree), item, memory)
      // The journal on disk may lag behind, by the whole entry only as long as nothing was touched.
      ensures journal == old(journal) ==> tree == old(tree)
      ensures journal != old(journal) ==> OneMore(old(memory), old(tree), item, journal)
      ensures ok ==> item.path in tree && memory[|old(memory)|].installed == Some(tree[item.path])
                     && tree == Placed(old(tree), item, old(nextId)) && nextId > old(nextId)
      ensures old(CalmFrom(fate, tick)) && Installable(old(tree), parent, item.path) ==> ok
      // A directory that was made by a command which raised is known to no entry.
      ensures old(MadeLate(item, tick)) ==>
                && !ok && tick == old(tick) + 2 && memory == old(memory) + [Entry(item.path, None, None)]
                && tree == old(tree)[item.path := Directory(old(nextId), 0, 0, PRIVATE)]
    {
      var p := item.path;
      var before := StateOf(tree, p);
      if before.Some? && !before.value.Directory? { return false; }
      var entry := Entry(p, before, None);
      memory := memory + [entry];
      ok := Persist();
      if !ok { return; }
      ok := Make(p);
      if !ok { return; }
      ok := Secure(item);
      if !ok { return; }
      memory := memory[..|memory| - 1] + [entry.(installed := Some(tree[p]))];
      ok := Persist();
    }

    /** Makes the directory if it is not there, and journals what that adds. */
    method Make(p: Path) returns (ok: bool)
      requires p in tree ==> tree[p].Directory?
      requires journal == memory
      modifies this`tick, this`nextId, this`tree, this`journal
      ensures old(tick) <= tick && nextId == old(nextId) + 1 && journal == memory
      ensures tree == old(tree) || (p !in old(tree) && Installable(old(tree), parent, p)
                                    && tree == old(tree)[p := Directory(old(nextId), 0, 0, PRIVATE)])
      ensures ok ==> p in tree && tree[p].Directory?
      ensures old(CalmFrom(fate, tick)) && Installable(old(tree), parent, p) ==> ok
      ensures p !in old(tree) && Installable(old(tree), parent, p) && fate(old(tick)).FailsAfterwards? ==>
                !ok && tick == old(tick) + 1 && tree == old(tree)[p := Directory(old(nextId), 0, 0, PRIVATE)]
    {
      var id := nextId;
      nextId := nextId + 1;
      ok := true;
      if p !in tree {
        if !Installable(tree, parent, p) { return false; }
        ok := Change(p, Directory(id, 0, 0, PRIVATE));
        if !ok { return; }
        ok := Persist();                                   // adds only `created`, which nobody reads
      }
    }

    /** chown, then chmod. */
    method Secure(item: Item) returns (ok: bool)
      requires item.path in tree && tree[item.path].Directory?
      modifies this`tick, this`tree
      ensures old(tick) <= tick
      ensures item.path in tree && tree[item.path].Directory? && tree[item.path].id == old(tree)[item.path].id
      ensures tree == old(tree)[item.path := tree[item.path]]
      ensures ok ==> tree[item.path] == Directory(old(tree)[item.path].id, item.uid, item.gid, PRIVATE)
      ensures old(CalmFrom(fate, tick)) ==> ok
    {
      var p := item.path;
      ok := Change(p, tree[p].(uid := item.uid, gid := item.gid));
      if !ok { return; }
      ok := Change(p, tree[p].(mode := PRIVATE));
    }

    /** The list with the entry of this item at its end, as far as the installation got. */
    ghost predicate OneMore(earlier: seq<Entry>, t: Tree, item: Item, entries: seq<Entry>)
      reads this`tree
    {
      |entries| == |earlier| + 1 && entries[..|earlier|] == earlier && Reached(t, parent, item, tree, entries[|earlier|])
    }

    /** The entry is journaled, and making the directory takes effect and raises. */
    ghost predicate MadeLate(item: Item, at: nat)
      reads this`tree
    {
      item.path !in tree && Installable(tree, parent, item.path) && fate(at).Works? && fate(at + 1).FailsAfterwards?
    }

    /** The installations of one run, up to where it ended. */
    method InstallAll(items: seq<Item>) returns (ok: bool, ghost trees: seq<Tree>)
      requires memory == [] && journal == [] && Closed(tree, parent)
      modifies this`tick, this`nextId, this`tree, this`memory, this`journal
      ensures IsRun(trees, parent, items, memory) && trees[0] == old(tree) && trees[|memory|] == tree
      ensures |journal| <= |memory| && trees[|journal|] == tree && IsRun(trees[..|journal| + 1], parent, items, journal)
      ensures ok ==> journal == memory && |journal| == |items| && (|items| > 0 ==> journal[|items| - 1].installed.Some?)
      ensures items != [] && old(MadeLate(items[0], tick)) ==>
                && !ok && tick == old(tick) + 2 && memory == [Entry(items[0].path, None, None)]
                && tree == old(tree)[items[0].path := Directory(old(nextId), 0, 0, PRIVATE)]
    {
      trees := [tree];
      var i := 0;
      while i < |items|
        invariant i <= |items| && i == |memory| && journal == memory
        invariant IsRun(trees, parent, items, memory) && trees[0] == old(tree) && trees[i] == tree
        invariant i > 0 ==> memory[i - 1].installed.Some?
        invariant if i == 0 then tick == old(tick) && tree == old(tree) && nextId == old(nextId) else !old(MadeLate(items[0], tick))
      {
        ghost var earlier, was, before := memory, trees, tree;
        ok := InstallOwned(items[i]);
        assert was[..i + 1] == was;
        if |memory| == i {
          assert memory == earlier;
          return;
        }
        trees := trees + [tree];
        assert memory == earlier + [memory[i]];
        Longer(was, parent, items, earlier, tree, memory[i]);
        assert trees[..i + 2] == trees && trees[..i + 1] == was;
        if journal != earlier {
          assert journal == earlier + [journal[i]];
          Longer(was, parent, items, earlier, tree, journal[i]);
        }
        if !ok { return; }
        i := i + 1;
      }
      assert trees[..i + 1] == trees;
      ok := true;
    }

    /** Restores the owner and mode of one directory, or removes it. */
    method Undo(e: Entry) returns (on: bool)
      requires Undoable(tree, parent, e)
      modifies this`tick, this`tree
      ensures old(tick) <= tick
      ensures on ==> tree == Undone(old(tree), e)
      ensures forall p :: p != e.path ==> StateOf(tree, p) == StateOf(old(tree), p)
      ensures old(CalmFrom(fate, tick)) ==> on
    {
      on := true;
      if e.path !in tree { return; }
      if e.before.Some? {
        on := Change(e.path, tree[e.path].(uid := e.before.value.uid, gid := e.before.value.gid));
        if !on { return; }
        on := Change(e.path, tree[e.path].(mode := e.before.value.mode));
      } else {
        var f := Next();
        if !f.Fails? { tree := tree - {e.path}; }
        on := f.Works?;
      }
    }

    /** rollback_skill_root_directories. */
    method Rollback() returns (r: RollbackResult)
      modifies this`tick, this`tree
      ensures old(tick) <= tick
      ensures r.Complete? ==> Clears(old(tree), parent, journal, 0) && tree == Rewind(old(tree), journal, 0)
      ensures r.Refused? ==> r.at < |journal| && Clears(old(tree), parent, journal, r.at + 1)
                             && tree == Rewind(old(tree), journal, r.at + 1) && !ClearsAt(old(tree), parent, journal, r.at)
      ensures r.Interrupted? ==> r.at < |journal| && Clears(old(tree), parent, journal, r.at)
      ensures r.Interrupted? ==> forall p :: p != journal[r.at].path ==>
                StateOf(tree, p) == StateOf(Rewind(old(tree), journal, r.at + 1), p)
      ensures old(CalmFrom(fate, tick)) ==> !r.Interrupted?
    {
      var k: nat := |journal|;
      while k > 0
        invariant k <= |journal| && old(tick) <= tick
        invariant tree == Rewind(old(tree), journal, k) && Clears(old(tree), parent, journal, k)
      {
        k := k - 1;
        var e := journal[k];
        assert Undoable(tree, parent, e) <==> ClearsAt(old(tree), parent, journal, k);
        if !Undoable(tree, parent, e) { return Refused(k); }
        var on := Undo(e);
        if !on { return Interrupted(k); }
      }
      r := Complete;
    }

    /** A list is stuck when its last directory was made and not recorded as installed. */
    ghost predicate Stuck()
      reads this`tree, this`journal
    {
      journal != [] && Unrecorded(tree, journal[|journal| - 1])
    }

    /** The rollback after a run whose list, as it is on disk, is that of `trees`. */
    method RollbackRun(ghost trees: seq<Tree>, items: seq<Item>) returns (r: RollbackResult)
      requires IsRun(trees, parent, items, journal) && trees[|journal|] == tree && Closed(trees[0], parent)
      modifies this`tick, this`tree
      ensures r.Complete? ==> tree == trees[0]
      ensures r.Refused? ==> r.at == |journal| - 1 && tree == old(tree)
      ensures !r.Interrupted? ==> (r.Refused? <==> old(Stuck()))
      ensures old(CalmFrom(fate, tick)) ==> !r.Interrupted?
    {
      RoundTrip(trees, parent, items, journal);
      ghost var last, n := tree, |journal|;
      if n > 0 {
        AllClosed(trees, parent, items, journal, n - 1);
        assert StepOf(trees, parent, items, journal, n - 1);
        StepBack(trees[n - 1], parent, items[n - 1], trees[n], journal[n - 1]);
        assert Rewind(last, journal, n) == last;
        assert ClearsAt(last, parent, journal, n - 1) <==> !Unrecorded(last, journal[n - 1]);
      }
      r := Rollback();
    }

    /** The program dies during a run, or completes it, and an operator rolls back from the journal. */
    method InstallThenRollback(items: seq<Item>) returns (r: RollbackResult, ghost stuck: bool)
      requires memory == [] && journal == [] && Closed(tree, parent)
      modifies this`tick, this`nextId, this`tree, this`memory, this`journal
      ensures r.Complete? ==> tree == old(tree)
      ensures !r.Interrupted? ==> (r.Refused? <==> stuck)
      ensures r.Refused? ==> r.at == |journal| - 1 && Unrecorded(tree, journal[r.at])
    {
      var ok, trees := InstallAll(items);
      stuck := Stuck();
      r := RollbackRun(trees[..|journal| + 1], items);
    }

    /** The run raises instead: the handler writes the list of the program and only then undoes
        it, so a directory that was secured is recorded whatever became of the last write. */
    method InstallOrUndo(items: seq<Item>) returns (ok: bool, undone: bool, r: RollbackResult, ghost stuck: bool)
      requires memory == [] && journal == [] && Closed(tree, parent)
      modifies this`tick, this`nextId, this`tree, this`memory, this`journal
      ensures !ok && undone ==> journal == memory
      ensures !ok && undone && r.Complete? ==> tree == old(tree)
      ensures !ok && undone && !r.Interrupted? ==> (r.Refused? <==> stuck)
      ensures !ok && undone && r.Refused? ==> r.at == |memory| - 1 && Unrecorded(tree, memory[r.at])
      ensures items != [] && old(MadeLate(items[0], tick)) && CalmFrom(fate, old(tick) + 2) ==>
                && !ok && undone && r == Refused(0)
                && tree == old(tree)[items[0].path := Directory(old(nextId), 0, 0, PRIVATE)]
    {
      ghost var trees;
      ok, trees := InstallAll(items);
      undone, r, stuck := false, Complete, false;
      if ok { return; }
      undone := Persist();
      if !undone { return; }
      stuck := Stuck();
      r := RollbackRun(trees, items);
    }

    /** The directory that stays: making it takes effect and raises, and nothing else fails. */
    method StaysBehind(item: Item)
      requires memory == [] && journal == [] && Closed(tree, parent)
      requires MadeLate(item, tick) && CalmFrom(fate, tick + 2)
      modifies this`tick, this`nextId, this`tree, this`memory, this`journal
      ensures item.path !in old(tree) && item.path in tree
    {
      var ok, undone, r, stuck := InstallOrUndo([item]);
    }
  }

  lemma Longer(trees: seq<Tree>, parent: Path -> Option<Path>, items: seq<Item>, entries: seq<Entry>, t: Tree, e: Entry)
    requires IsRun(trees, parent, items, entries) && |entries| < |items|
    requires |entries| > 0 ==> entries[|entries| - 1].installed.Some?
    requires Reached(trees[|entries|], parent, items[|entries|], t, e)
    ensures IsRun(trees + [t], parent, items, entries + [e])
  {
    forall i | 0 <= i < |entries| + 1 ensures StepOf(trees + [t], parent, items, entries + [e], i) {
      if i < |entries| { assert StepOf(trees, parent, items, entries, i); }
    }
  }
}
