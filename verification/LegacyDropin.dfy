/**
 The legacy Docker drop-in of scripts/install_server_wide_coordinator.py: it is inspected,
 backed up, journaled and unlinked during installation, and linked back by rollback.

 Between any two primitives others may change the file under the drop-in's name, and any
 primitive may fail before or after its effect, or be the last thing the run does.
 */
module LegacyDropin {
  import opened Faults
  import opened Options
  import opened Posix

  datatype Node =
    | Regular(id: nat, bytes: seq<Byte>, mode: Mode, uid: nat, gid: nat)
    | Directory
    | Irregular                              // a symbolic link, a device

  /** The journal entry.  The recorded digest is always that of the known content. */
  datatype Entry = Entry(id: nat, mode: Mode, uid: nat, gid: nat)

  /** The one file that may be migrated: known content, owned by root, not writable by others. */
  predicate Known(n: Node, content: seq<Byte>) {
    n.Regular? && n.bytes == content && n.uid == 0 && n.gid == 0 && 4 !in n.mode && 1 !in n.mode
  }

  function EntryOf(n: Node): Entry
    requires n.Regular?
  {
    Entry(n.id, n.mode, n.uid, n.gid)
  }

  /** Content, mode and owner are the recorded ones; the inode need not be. */
  predicate Matches(n: Node, e: Entry, content: seq<Byte>) {
    n.Regular? && n.bytes == content && n.mode == e.mode && n.uid == e.uid && n.gid == e.gid
  }

  /** The same file but for its inode. */
  predicate SameFile(before: Option<Node>, after: Option<Node>) {
    || before == after
    || (before.Some? && before.value.Regular? && after.Some? && after.value.Regular?
        && after.value == before.value.(id := after.value.id))
  }

  datatype Inspected = Absent | Unsafe | Found(node: Node)

  /** What this program did to the name. */
  datatype Effect = Effect(before: Option<Node>, after: Option<Node>)

  datatype Prepared = Nothing | Refused | Ready(entry: Entry)

  class Host {
    const content: seq<Byte>
    const fate: nat -> Fate
    const others: nat -> Option<Option<Node>>    // what others make of the name at each tick
    var tick: nat
    var nextId: nat
    var node: Option<Node>                       // what the drop-in's name refers to
    var backup: Option<seq<Byte>>
    var journal: Option<Entry>                   // legacy_docker_dropin in the journal on disk
    ghost var effects: seq<Effect>

    constructor (content: seq<Byte>, fate: nat -> Fate, others: nat -> Option<Option<Node>>, node: Option<Node>)
      ensures this.content == content && this.fate == fate && this.others == others && this.node == node
      ensures backup == None && journal == None && effects == [] && tick == 0
    {
      this.content, this.fate, this.others, this.node := content, fate, others, node;
      backup, journal, effects, tick, nextId := None, None, [], 0, 0;
    }

    ghost predicate Quiet(from: nat) {
      forall t :: from <= t ==> others(t).None?
    }

    /** Others leave the name alone for `n` ticks. */
    ghost predicate QuietFor(from: nat, n: nat) {
      forall t :: from <= t < from + n ==> others(t).None?
    }

    /** Others have their turn, then the next primitive meets its fate. */
    method Pass() returns (f: Fate)
      modifies this`tick, this`node
      ensures tick == old(tick) + 1 && f == fate(old(tick))
      ensures node == if others(old(tick)).Some? then others(old(tick)).value else old(node)
    {
      if others(tick).Some? { node := others(tick).value; }
      f := fate(tick);
      tick := tick + 1;
    }

    /** inspect_legacy_docker_dropin: exists, open and read, look at the name again. */
    method Inspect() returns (r: Inspected)
      modifies this`tick, this`node
      ensures old(tick) < tick
      ensures r.Found? ==> Known(r.node, content) && node.Some? && node.value.Regular? && node.value.id == r.node.id
      ensures r.Found? && others(tick - 1).None? ==> node == Some(r.node)
      ensures r.Absent? ==> node == None
      ensures old(Quiet(tick)) ==> node == old(node)
      ensures old(Quiet(tick) && CalmFrom(fate, tick)) ==>
                r == if node.None? then Absent else if Known(node.value, content) then Found(node.value) else Unsafe
      ensures (old(QuietFor(tick, 3) && CalmFrom(fate, tick)) && old(node).Some? && Known(old(node).value, content)) ==>
                tick == old(tick) + 3 && r == Found(old(node).value) && node == old(node)
    {
      var f := Pass();
      if !f.Works? { return Unsafe; }
      if node.None? { return Absent; }
      f := Pass();
      if !f.Works? || node.None? || !Known(node.value, content) { return Unsafe; }
      var n := node.value;
      f := Pass();
      if !f.Works? || node.None? || !node.value.Regular? || node.value.id != n.id { return Unsafe; }
      r := Found(n);
    }

    /** prepare_legacy_docker_dropin_removal. */
    method Prepare() returns (r: Prepared)
      modifies this`tick, this`node, this`backup
      ensures old(tick) < tick
      ensures r.Ready? ==> old(backup) == None && backup == Some(content) && Trustworthy(r.entry)
      ensures !r.Ready? && old(backup).Some? ==> backup == old(backup)
      ensures old(Quiet(tick)) ==> node == old(node)
      ensures old(Quiet(tick)) && r.Ready? ==> node.Some? && Known(node.value, content) && r.entry == EntryOf(node.value)
      ensures old(Quiet(tick) && CalmFrom(fate, tick) && backup == None) ==>
                if node.None? then r.Nothing? else (r.Ready? <==> Known(node.value, content))
    {
      var seen := Inspect();
      if seen.Unsafe? { return Refused; }
      if seen.Absent? { return Nothing; }
      if backup.Some? { return Refused; }
      var f := Pass();
      if !f.Works? {
        // An exception removes the partial backup, a crash leaves it.
        var torn: Option<seq<Byte>> :| true;
        backup := torn;
        return Refused;
      }
      backup := Some(content);
      r := Ready(EntryOf(seen.node));
    }

    /** The name holds the very file that the entry was made of. */
    predicate IsProved(e: Entry)
      reads this`node
    {
      node.Some? && Known(node.value, content) && EntryOf(node.value) == e
    }

    /** remove_prepared_legacy_docker_dropin; `window` is the tick of the unlink. */
    method Remove(e: Entry) returns (ok: bool, ghost window: nat, ghost removed: Option<Node>)
      modifies this`tick, this`node, this`effects
      ensures old(tick) <= tick && (ok ==> effects != old(effects))
      // The only effect is one unlink, after the backup was found intact.
      ensures effects == old(effects) || effects == old(effects) + [Effect(removed, None)]
      ensures effects != old(effects) ==> backup == Some(content) && removed.Some? && !removed.value.Directory?
      ensures effects != old(effects) ==> old(tick) + 2 <= window
      // It hits what others put under the name after the last look, else the inode that was proved.
      ensures effects != old(effects) ==>
                if others(window).Some? then removed == others(window).value
                else removed.value.Regular? && removed.value.id == e.id
      // Unless others wrote to that inode since it was read, it is the backed-up file.
      ensures effects != old(effects) && (forall t :: window - 2 <= t <= window && 0 <= t ==> others(t).None?) ==>
                Known(removed.value, content) && EntryOf(removed.value) == e
      // The race is real: calm primitives unlink whatever others put there in that one step,
      // but for a directory, which unlink refuses.
      ensures (old(CalmFrom(fate, tick)) && old(backup == Some(content)) && old(IsProved(e)) && old(QuietFor(tick, 4))) ==>
                var last := others(old(tick) + 4);
                effects == if last == Some(None) || last == Some(Some(Directory)) then old(effects)
                           else old(effects) + [Effect(if last.Some? then last.value else old(node), None)]
      ensures old(Quiet(tick)) ==> node == if effects == old(effects) then old(node) else None
      ensures old(Quiet(tick)) && effects != old(effects) ==> removed == old(node)
      ensures old(Quiet(tick) && CalmFrom(fate, tick)) && old(backup == Some(content)) && old(IsProved(e)) ==> ok
    {
      ok, window, removed := false, 0, None;
      if backup != Some(content) { return; }
      var seen := Inspect();
      if !seen.Found? || EntryOf(seen.node) != e { return; }
      var f := Pass();
      if !f.Works? || node.None? || !node.value.Regular? || node.value.id != e.id { return; }
      window := tick;
      f := Pass();
      removed := node;
      if f.Fails? || node.None? || node.value.Directory? { return; }
      node := None;
      effects := effects + [Effect(removed, None)];
      if !f.Works? { return; }
      f := Pass();                                        // fsync of the directory
      ok := f.Works?;
    }

    /** Writes the backup aside and links it where nothing may be. */
    method Fill(e: Entry) returns (ok: bool)
      modifies this`tick, this`node, this`nextId, this`effects
      ensures old(tick) < tick
      ensures effects == old(effects) || exists id: nat ::
                effects == old(effects) + [Effect(None, Some(Regular(id, content, e.mode, e.uid, e.gid)))]
      ensures old(Quiet(tick)) && effects == old(effects) ==> node == old(node)
      ensures old(Quiet(tick)) && effects != old(effects) ==>
                old(node) == None && node.Some? && node.value.Regular? && node.value == Regular(node.value.id, content, e.mode, e.uid, e.gid)
      ensures ok ==> effects != old(effects)
      ensures old(Quiet(tick) && CalmFrom(fate, tick)) && old(node) == None ==> ok
    {
      ok := false;
      var f := Pass();                                    // the temporary file: create, write, chown, chmod, sync
      if !f.Works? { return; }
      f := Pass();
      if f.Fails? || node.Some? { return; }
      node := Some(Regular(nextId, content, e.mode, e.uid, e.gid));
      nextId := nextId + 1;
      effects := effects + [Effect(None, node)];
      if !f.Works? { return; }
      f := Pass();                                        // unlink the temporary name, sync
      ok := f.Works?;
    }

    /** restore_legacy_docker_dropin. */
    method Restore(e: Entry) returns (ok: bool)
      modifies this`tick, this`node, this`nextId, this`effects
      ensures old(tick) <= tick
      // Nothing is ever replaced: the only effect is to fill an absent name.
      ensures effects == old(effects) || exists id: nat ::
                effects == old(effects) + [Effect(None, Some(Regular(id, content, e.mode, e.uid, e.gid)))]
      // Success was read off the name at the very end.
      ensures ok ==> old(tick) < tick && backup == Some(content) && node.Some? && node.value.Regular?
      ensures ok && others(tick - 1).None? ==> Matches(node.value, e, content)
      ensures old(Quiet(tick)) && effects == old(effects) ==> node == old(node)
      ensures old(Quiet(tick)) && effects != old(effects) ==> old(node) == None && node.Some? && Matches(node.value, e, content)
      ensures old(Quiet(tick) && CalmFrom(fate, tick)) ==>
                (ok <==> backup == Some(content)
                         && (old(node).Some? ==> Known(old(node).value, content) && Matches(old(node).value, e, content))
                         && (old(node).None? ==> Trustworthy(e)))
    {
      ok := false;
      if backup != Some(content) { return; }
      var seen := Inspect();
      if seen.Unsafe? { return; }
      if seen.Found? { return Matches(seen.node, e, content); }
      ok := Fill(e);
      if !ok { return; }
      seen := Inspect();
      ok := seen.Found? && Matches(seen.node, e, content);
    }

    /** A restore that was stopped anywhere can be repeated, and left alone it then completes. */
    method RestoreTwice(e: Entry) returns (first: bool, second: bool, ghost between: nat)
      modifies this`tick, this`node, this`nextId, this`effects
      ensures old(tick) <= between <= tick
      ensures (old(Quiet(tick)) && CalmFrom(fate, between) && backup == Some(content) && Trustworthy(e)
               && (old(node).Some? ==> Known(old(node).value, content) && Matches(old(node).value, e, content))) ==>
                second && node.Some? && Matches(node.value, e, content)
    {
      first := Restore(e);
      between := tick;
      second := Restore(e);
    }

    /** The removal as apply_install runs it, stopped anywhere, then the rollback. */
    method RemoveThenRollback() returns (prepared: bool, restored: bool, ghost stopped: nat)
      requires journal == None && backup == None
      modifies this
      ensures old(tick) <= stopped <= tick
      // Left alone, rollback brings the file back wherever the removal stopped, unless the
      // rollback itself is interrupted; then the name is at worst still absent.
      ensures old(Quiet(tick)) ==> SameFile(old(node), node) || node == None
      ensures old(Quiet(tick)) && restored ==> SameFile(old(node), node)
      ensures old(Quiet(tick)) && CalmFrom(fate, stopped) ==> restored
      ensures prepared ==> journal.Some?
    {
      var r := Prepare();
      prepared := false;
      if r.Ready? {
        var f := Pass();
        if !f.Fails? {
          journal, prepared := Some(r.entry), true;
          if f.Works? {
            var ok, window, removed := Remove(r.entry);
          }
        }
      }
      stopped := tick;
      if journal.None? { return prepared, true, stopped; }
      restored := Restore(journal.value);
    }
  }

  /** The entry of a file that may be migrated. */
  predicate Trustworthy(e: Entry) {
    e.uid == 0 && e.gid == 0 && 4 !in e.mode && 1 !in e.mode
  }
}
