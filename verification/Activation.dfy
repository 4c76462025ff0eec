/**
 The journaled activate / restore-activation-baseline / rollback state machine of
 scripts/install_server_wide_coordinator.py.

 Durable state is the installation journal, the systemd unit and the installed
 files.  Each journal write and each systemctl call is one primitive; after any of
 them the process may raise or die, with the effect applied or not.  `Next` is the
 protocol: which durable change is legal in which durable state.  The methods below
 have the source's control flow; their contracts say that every durable state they
 pass through is a step of `Next`, and what each way of ending proves.
 */
module Activation {
  import Faults
  import opened Options
  import opened Posix
  import SystemFiles

  datatype Status =
    | RollbackRequired | Applied | Activated | ActivationRollbackRequired | RollingBack | RolledBack

  datatype Phase = Starting | Restoring | Failed | Ready | CleanupFailed | Undone

  datatype Attempt = Attempt(
    operation: string,
    clients: seq<string>,
    initialActive: bool,
    initialEnabled: bool,
    attempts: nat,
    phase: Phase,
    readiness: Option<nat>)

  datatype Journal = Journal(
    status: Status,
    explicitActivation: bool,   // starts_service is False and a restart is required
    clients: seq<string>,
    route: nat,                 // the restart precondition proved by apply
    activation: Option<Attempt>)

  /** `active` is every state but `inactive`; a unit in `failed` counts as active. */
  datatype Unit = Unit(active: bool, enabled: bool)

  /** The system files: `from` is the first entry of the journal's list that was undone; `intact`
      says that every file whose undo failed half way still reads as installed. */
  datatype Files = Installed | PartlyUndone(from: nat, intact: bool) | AllUndone

  datatype Durable = Durable(journal: Journal, unit: Unit, files: Files)

  ghost predicate InPhase(d: Durable, phases: set<Phase>) {
    d.journal.activation.Some? && d.journal.activation.value.phase in phases
  }

  ghost predicate Attempting(d: Durable) {
    d.journal.activation.Some? && (d.journal.activation.value.phase.Starting? || d.journal.activation.value.phase.Restoring?)
  }

  ghost predicate IsStarting(d: Durable) {
    d.journal.activation.Some? && d.journal.activation.value.phase.Starting?
  }

  ghost predicate IsRestoring(d: Durable) {
    d.journal.activation.Some? && d.journal.activation.value.phase.Restoring?
  }

  ghost predicate IsReady(d: Durable) {
    d.journal.activation.Some? && d.journal.activation.value.phase.Ready?
  }

  ghost predicate IsUndone(d: Durable) {
    d.journal.activation.Some? && d.journal.activation.value.phase.Undone?
  }

  function WithPhase(j: Journal, status: Status, phase: Phase): Journal
    requires j.activation.Some?
  {
    j.(status := status, activation := Some(j.activation.value.(phase := phase)))
  }

  /** The service is back where it was before the first attempt. */
  ghost predicate AtBaseline(d: Durable) {
    d.journal.activation.Some? && !d.unit.active && d.unit.enabled == d.journal.activation.value.initialEnabled
  }

  // ---- The protocol ----

  /** The broker exits on its own; nobody but a start makes it active. */
  ghost predicate UnitExits(d: Durable, d': Durable) {
    d' == d.(unit := d.unit.(active := false))
  }

  ghost predicate Begin(d: Durable, d': Durable) {
    && d.journal.status == Applied && d.files == Installed && !d.unit.active
    && d'.unit == d.unit && d'.files == d.files
    && d'.journal.activation.Some?
    && var a := d'.journal.activation.value;
    && d'.journal == d.journal.(activation := Some(a))
    && a.phase == Starting && a.readiness == None && !a.initialActive && a.initialEnabled == d.unit.enabled
    && match d.journal.activation {
         case None => a.attempts == 1
         case Some(b) => a == b.(phase := Starting, readiness := None, attempts := b.attempts + 1)
       }
  }

  ghost predicate EnableAndStart(d: Durable, d': Durable) {
    && d.journal.status == Applied && d.files == Installed && IsStarting(d)
    && d'.journal == d.journal && d'.files == d.files
    && (d'.unit.enabled == d.unit.enabled || d'.unit.enabled)
  }

  ghost predicate MoveToBaseline(d: Durable, d': Durable) {
    && Attempting(d)
    && d'.journal == d.journal && d'.files == d.files
    && (d'.unit.active ==> d.unit.active)
    && (d'.unit.enabled == d.unit.enabled || d'.unit.enabled == d.journal.activation.value.initialEnabled)
  }

  ghost predicate WriteRestoring(d: Durable, d': Durable) {
    && d.journal.activation.Some?
    && d.journal.status in {Applied, Activated, ActivationRollbackRequired}
    && d' == d.(journal := WithPhase(d.journal, d.journal.status, Restoring))
  }

  ghost predicate WriteFailed(d: Durable, d': Durable) {
    && Attempting(d) && AtBaseline(d)
    && d.journal.status in {Applied, Activated, ActivationRollbackRequired}
    && d' == d.(journal := WithPhase(d.journal, Applied, Failed))
  }

  ghost predicate WriteCleanupFailed(d: Durable, d': Durable) {
    && d.journal.status == Applied && IsRestoring(d)
    && d' == d.(journal := WithPhase(d.journal, ActivationRollbackRequired, CleanupFailed))
  }

  ghost predicate WriteReady(d: Durable, d': Durable) {
    && d.journal.status == Applied && d.files == Installed && Attempting(d)
    && d'.unit == d.unit && d'.files == d.files
    && IsReady(d') && d'.journal.activation.value.readiness.Some?
    && d'.journal == d.journal.(status := Activated, activation := Some(d.journal.activation.value.(
                       phase := Ready, readiness := d'.journal.activation.value.readiness)))
  }

  ghost predicate WriteRollingBack(d: Durable, d': Durable) {
    d.journal.activation.Some? && d' == d.(journal := WithPhase(d.journal, RollingBack, Restoring))
  }

  ghost predicate WriteUndone(d: Durable, d': Durable) {
    && d.journal.status == RollingBack && IsRestoring(d) && AtBaseline(d)
    && d' == d.(journal := WithPhase(d.journal, RollingBack, Undone))
  }

  ghost predicate Quiet(d: Durable) {
    !d.unit.active && (d.journal.activation.None? || (d.journal.status == RollingBack && IsUndone(d)))
  }

  ghost predicate UndoFiles(d: Durable, d': Durable) {
    Quiet(d) && d'.journal == d.journal && d'.unit == d.unit && d'.files != Installed
  }

  ghost predicate WriteRolledBack(d: Durable, d': Durable) {
    && Quiet(d) && d.files == AllUndone
    && d' == d.(journal := d.journal.(status := RolledBack))
  }

  ghost predicate Next(d: Durable, d': Durable) {
    || UnitExits(d, d') || Begin(d, d') || EnableAndStart(d, d') || MoveToBaseline(d, d')
    || WriteRestoring(d, d') || WriteFailed(d, d') || WriteCleanupFailed(d, d') || WriteReady(d, d')
    || WriteRollingBack(d, d') || WriteUndone(d, d') || UndoFiles(d, d') || WriteRolledBack(d, d')
  }

  /** Every two neighbours of a run are one legal step; a crash only ends a command. */
  ghost predicate Legal(run: seq<Durable>) {
    run != [] && forall i | 0 <= i < |run| - 1 :: Next(run[i], run[i + 1])
  }

  // ---- What every run keeps ----

  /** `before` is the enablement when the transaction was applied. */
  ghost predicate Safe(d: Durable, before: bool) {
    && (d.journal.activation.None? ==>
          && d.unit.enabled == before
          && d.journal.status !in {Activated, ActivationRollbackRequired, RollingBack})
    && (d.journal.activation.Some? ==>
          var a := d.journal.activation.value;
          && !a.initialActive && a.initialEnabled == before && a.attempts >= 1
          && (a.phase in {Failed, Undone} ==> AtBaseline(d))
          && (a.phase == Ready ==> a.readiness.Some?)
          && match d.journal.status {
               case Applied => a.phase in {Starting, Restoring, Failed}
               case Activated => a.phase in {Ready, Restoring}
               case ActivationRollbackRequired => a.phase in {CleanupFailed, Restoring}
               case RollingBack => a.phase in {Restoring, Undone}
               case RolledBack => a.phase == Undone
               case RollbackRequired => false
             })
    && (d.files != Installed ==> !d.unit.active)
    && (d.files != Installed && d.journal.activation.Some? ==> d.journal.status in {RollingBack, RolledBack})
  }

  ghost predicate AppliedAfresh(d: Durable, before: bool) {
    && d.journal.activation == None && d.unit.enabled == before && d.files == Installed
    && d.journal.status in {Applied, RollbackRequired}
  }

  lemma AttemptsKeepSafe(d: Durable, d': Durable, before: bool)
    requires Safe(d, before)
    requires UnitExits(d, d') || Begin(d, d') || EnableAndStart(d, d') || MoveToBaseline(d, d')
    ensures Safe(d', before)
  {
  }

  lemma VerdictsKeepSafe(d: Durable, d': Durable, before: bool)
    requires Safe(d, before)
    requires WriteRestoring(d, d') || WriteFailed(d, d') || WriteCleanupFailed(d, d') || WriteReady(d, d')
    ensures Safe(d', before)
  {
  }

  lemma RollbacksKeepSafe(d: Durable, d': Durable, before: bool)
    requires Safe(d, before)
    requires WriteRollingBack(d, d') || WriteUndone(d, d') || UndoFiles(d, d') || WriteRolledBack(d, d')
    ensures Safe(d', before)
  {
  }

  lemma SafeIsKept(d: Durable, d': Durable, before: bool)
    requires Safe(d, before) && Next(d, d')
    ensures Safe(d', before)
  {
    if UnitExits(d, d') || Begin(d, d') || EnableAndStart(d, d') || MoveToBaseline(d, d') {
      AttemptsKeepSafe(d, d', before);
    } else if WriteRestoring(d, d') || WriteFailed(d, d') || WriteCleanupFailed(d, d') || WriteReady(d, d') {
      VerdictsKeepSafe(d, d', before);
    } else {
      RollbacksKeepSafe(d, d', before);
    }
  }

  lemma {:induction false} RunsStaySafe(run: seq<Durable>, before: bool, k: nat)
    requires Legal(run) && Safe(run[0], before) && k < |run|
    ensures Safe(run[k], before)
    decreases k
  {
    if k > 0 {
      RunsStaySafe(run, before, k - 1);
      assert Next(run[k - 1], run[k - 1 + 1]);
      SafeIsKept(run[k - 1], run[k], before);
    }
  }

  /** A recorded intent stays; only the attempt counter may grow. */
  ghost predicate SameIntent(d: Durable, d': Durable) {
    && d.journal.activation.Some? && d'.journal.activation.Some?
    && var a, b := d.journal.activation.value, d'.journal.activation.value;
       && a.operation == b.operation && a.clients == b.clients
       && a.initialEnabled == b.initialEnabled && a.initialActive == b.initialActive
       && a.attempts <= b.attempts
  }

  lemma StepKeepsIntent(d: Durable, d': Durable)
    requires Next(d, d') && d.journal.activation.Some?
    ensures SameIntent(d, d')
  {
  }

  /** The recorded intent is written once: no later state changes or loses it. */
  lemma {:induction false} IntentIsWrittenOnce(run: seq<Durable>, i: nat, j: nat)
    requires Legal(run) && i <= j < |run| && run[i].journal.activation.Some?
    ensures SameIntent(run[i], run[j])
    decreases j
  {
    if i < j {
      IntentIsWrittenOnce(run, i, j - 1);
      assert Next(run[j - 1], run[j - 1 + 1]);
      StepKeepsIntent(run[j - 1], run[j]);
    }
  }

  /**
   From a freshly applied transaction, whatever runs and crashes: a service that
   differs from its baseline is covered by a durable record of that baseline, in a
   phase from which the baseline can be restored.
   */
  lemma DeviationIsJournaled(run: seq<Durable>, before: bool, k: nat)
    requires Legal(run) && AppliedAfresh(run[0], before) && k < |run|
    requires run[k].unit.enabled != before || (run[k].unit.active && run[k].journal.activation.Some?)
    ensures InPhase(run[k], {Starting, Restoring, Ready, CleanupFailed})
    ensures run[k].journal.activation.value.initialEnabled == before
    ensures run[k].journal.status in {Applied, Activated, ActivationRollbackRequired, RollingBack}
    ensures run[k].files == Installed || !run[k].unit.active
  {
    RunsStaySafe(run, before, k);
  }

  lemma ActivatedIsReadyOrRestoring(run: seq<Durable>, before: bool, k: nat)
    requires Legal(run) && AppliedAfresh(run[0], before) && k < |run|
    ensures run[k].journal.status == Activated ==> InPhase(run[k], {Ready, Restoring})
    ensures InPhase(run[k], {Ready}) ==> run[k].journal.status == Activated
    ensures run[k].files != Installed ==> !run[k].unit.active
  {
    RunsStaySafe(run, before, k);
  }

  // ---- Repeating an undo ----

  /** How far down the list of system files the undo came. */
  function Reached(entries: seq<SystemFiles.Entry>, files: Files): nat {
    match files
    case Installed => |entries|
    case PartlyUndone(from, _) => from
    case AllUndone => 0
  }

  /** The undo of the system files goes through: a first one always, a repeated one only over files
      that held the installed content before, and none that an earlier undo left torn or unlinked. */
  predicate FilesGoThrough(entries: seq<SystemFiles.Entry>, files: Files) {
    files == Installed ||
    (SystemFiles.HeldTheSameFrom(entries, Reached(entries, files)) && (files.PartlyUndone? ==> files.intact))
  }

  /** What an undo may leave: it never gets less far, and what cannot be repeated stays so. */
  ghost predicate UndoLeads(entries: seq<SystemFiles.Entry>, before: Files, completed: bool, after: Files) {
    && (completed ==> after == AllUndone && FilesGoThrough(entries, before))
    && Reached(entries, after) <= Reached(entries, before)
    && (!FilesGoThrough(entries, before) ==> !FilesGoThrough(entries, after))
  }

  /** The files on disk for which a value of `Files` stands. */
  ghost predicate Stands(f: SystemFiles.Files, backups: SystemFiles.Files, entries: seq<SystemFiles.Entry>, files: Files,
                         digest: seq<Byte> -> SystemFiles.Digest) {
    match files
    case Installed => SystemFiles.PartWay(f, backups, entries, |entries|, {}, digest)
    case PartlyUndone(from, intact) =>
      exists cuts :: SystemFiles.PartWay(f, backups, entries, from, cuts, digest)
                     && (intact <==> SystemFiles.Intact(f, entries, cuts, digest))
    case AllUndone => SystemFiles.PartWay(f, backups, entries, 0, {}, digest)
  }

  /** From wherever earlier undos stopped, the undo of the system files goes through exactly then. */
  lemma RepeatedUndo(f: SystemFiles.Files, backups: SystemFiles.Files, entries: seq<SystemFiles.Entry>, files: Files,
                     digest: seq<Byte> -> SystemFiles.Digest)
    requires SystemFiles.DistinctEntries(entries) && Stands(f, backups, entries, files, digest)
    ensures SystemFiles.Clears(f, backups, entries, 0, digest) <==> FilesGoThrough(entries, files)
  {
    ghost var cuts := Cuts(f, backups, entries, files, digest);
    SystemFiles.RepeatsExactlyWhenIntact(f, backups, entries, Reached(entries, files), cuts, digest);
  }

  /** The entries whose undo failed half way. */
  ghost function Cuts(f: SystemFiles.Files, backups: SystemFiles.Files, entries: seq<SystemFiles.Entry>, files: Files,
                      digest: seq<Byte> -> SystemFiles.Digest): (cuts: set<nat>)
    requires Stands(f, backups, entries, files, digest)
    ensures SystemFiles.PartWay(f, backups, entries, Reached(entries, files), cuts, digest)
    ensures SystemFiles.Intact(f, entries, cuts, digest) <==> (files.PartlyUndone? ==> files.intact)
  {
    if files.PartlyUndone? then
      var cuts :| SystemFiles.PartWay(f, backups, entries, files.from, cuts, digest)
                  && (files.intact <==> SystemFiles.Intact(f, entries, cuts, digest));
      cuts
    else {}
  }

  /** Undoing the files of an installation, as `Host.Undo` has it: every outcome is one it allows. */
  method UndoSystemFiles(i: SystemFiles.Installer, ghost files: Files) returns (r: SystemFiles.RollbackResult, ghost after: Files)
    requires SystemFiles.DistinctEntries(i.journal) && Stands(i.files, i.backups, i.journal, files, i.digest)
    modifies i`tick, i`files
    ensures Stands(i.files, i.backups, i.journal, after, i.digest)
    ensures UndoLeads(i.journal, files, r.Complete?, after)
    ensures Faults.CalmFrom(i.fate, old(i.tick)) ==> (r.Complete? <==> FilesGoThrough(i.journal, files))
  {
    ghost var cuts := Cuts(i.files, i.backups, i.journal, files, i.digest);
    ghost var reached, left;
    r, reached, left := i.RollbackAgain(Reached(i.journal, files), cuts);
    after := if r.Complete? then AllUndone
             else PartlyUndone(reached, SystemFiles.Intact(i.files, i.journal, left, i.digest));
  }

  // ---- The commands ----

  function ReadyJournal(j: Journal, evidence: nat): Journal
    requires j.activation.Some?
  {
    j.(status := Activated, activation := Some(j.activation.value.(phase := Ready, readiness := Some(evidence))))
  }

  /** The journal of a completed activation, in terms of what was there before the call. */
  ghost predicate ActivatedBy(prior: Option<Attempt>, enabled: bool, operation: string, clients: seq<string>,
                              journal: Journal, evidence: nat) {
    && journal.status == Activated && journal.activation.Some?
    && journal.activation.value == Attempt(operation, clients, false, enabled,
                                           if prior.Some? then prior.value.attempts + 1 else 1,
                                           Ready, Some(evidence))
  }

  /** What one primitive does: completes, raises or kills the process; the last two
      may or may not have taken effect. */
  datatype Fate = Done | Raised(applied: bool) | Died(applied: bool)
  datatype Signal = Go | Raise | Die
  datatype Outcome = Completed | Replayed | Error | Crashed

  function SignalOf(f: Fate): Signal {
    match f { case Done => Go case Raised(_) => Raise case Died(_) => Die }
  }

  class Host {
    const fate: nat -> Fate           // what happens to the n-th primitive
    const exits: nat -> bool          // the broker exits on its own before the n-th primitive
    const stopFails: nat -> bool      // a completed stop leaves the unit in `failed`
    const comesUp: nat -> bool        // a completed start leaves the unit non-quiescent
    const route: nat -> nat           // the route proof observed at the n-th primitive
    const readiness: nat -> nat       // the client readiness observed at the n-th primitive
    const entries: seq<SystemFiles.Entry>   // the system files of the journal
    const othersRepeat: bool          // links, directories, ACLs and the drop-in can be undone twice
    var tick: nat
    var journal: Journal
    var unit: Unit
    var files: Files
    ghost var run: seq<Durable>

    constructor (fate: nat -> Fate, exits: nat -> bool, stopFails: nat -> bool, comesUp: nat -> bool,
                 route: nat -> nat, readiness: nat -> nat, entries: seq<SystemFiles.Entry>, othersRepeat: bool,
                 journal: Journal, unit: Unit)
      ensures Valid() && this.journal == journal && this.unit == unit && files == Installed
      ensures run == [Now()] && tick == 0
    {
      this.fate, this.exits, this.stopFails := fate, exits, stopFails;
      this.comesUp, this.route, this.readiness := comesUp, route, readiness;
      this.entries, this.othersRepeat := entries, othersRepeat;
      this.journal, this.unit, this.files, tick := journal, unit, Installed, 0;
      run := [Durable(journal, unit, Installed)];
    }

    ghost function Now(): Durable
      reads this
    {
      Durable(journal, unit, files)
    }

    ghost predicate Valid()
      reads this
    {
      Legal(run) && run[|run| - 1] == Now()
    }

    ghost predicate NoFaults(from: nat)
      reads this
    {
      forall n :: from <= n ==> fate(n).Done? && !stopFails(n)
    }

    ghost predicate Cooperative(from: nat)
      reads this
    {
      forall n :: from <= n ==> fate(n).Done? && !exits(n) && comesUp(n) && route(n) == journal.route
    }

    /** Records one legal change of the durable state. */
    ghost method Record(d: Durable)
      requires Legal(run) && Next(run[|run| - 1], d)
      modifies this`run
      ensures Legal(run) && run == old(run) + [d]
    {
      run := run + [d];
    }

    /** One primitive begins; the broker may have exited meanwhile. */
    method Tick() returns (f: Fate)
      requires Valid()
      modifies this`tick, this`unit, this`run
      ensures Valid() && old(run) <= run && tick == old(tick) + 1
      ensures f == fate(old(tick))
      ensures unit == if exits(old(tick)) then old(unit).(active := false) else old(unit)
    {
      f := fate(tick);
      if exits(tick) {
        unit := unit.(active := false);
        Record(Now());
      }
      tick := tick + 1;
    }

    method Write(next: Journal) returns (s: Signal)
      requires Valid()
      requires Next(Now(), Now().(journal := next))
      requires Next(Now().(unit := unit.(active := false)), Now().(unit := unit.(active := false), journal := next))
      modifies this`tick, this`unit, this`run, this`journal
      ensures Valid() && old(run) <= run && tick == old(tick) + 1
      ensures s == SignalOf(fate(old(tick)))
      ensures unit == if exits(old(tick)) then old(unit).(active := false) else old(unit)
      ensures journal == next || (s != Go && journal == old(journal))
    {
      var f := Tick();
      s := SignalOf(f);
      if f.Done? || f.applied {
        journal := next;
        Record(Now());
      }
    }

    method IsActive() returns (s: Signal, active: bool)
      requires Valid()
      modifies this`tick, this`unit, this`run
      ensures Valid() && old(run) <= run && tick == old(tick) + 1
      ensures s == SignalOf(fate(old(tick))) && active == unit.active
      ensures unit == if exits(old(tick)) then old(unit).(active := false) else old(unit)
    {
      var f := Tick();
      s, active := SignalOf(f), unit.active;
    }

    method IsEnabled() returns (s: Signal, enabled: bool)
      requires Valid()
      modifies this`tick, this`unit, this`run
      ensures Valid() && old(run) <= run && tick == old(tick) + 1
      ensures s == SignalOf(fate(old(tick))) && enabled == unit.enabled
      ensures unit == if exits(old(tick)) then old(unit).(active := false) else old(unit)
    {
      var f := Tick();
      s, enabled := SignalOf(f), unit.enabled;
    }

    method SetEnabled(enabled: bool) returns (s: Signal)
      requires Valid()
      requires Next(Now(), Now().(unit := unit.(enabled := enabled)))
      requires Next(Now().(unit := unit.(active := false)), Now().(unit := Unit(false, enabled)))
      modifies this`tick, this`unit, this`run
      ensures Valid() && old(run) <= run && tick == old(tick) + 1
      ensures s == SignalOf(fate(old(tick)))
      ensures unit.active == (old(unit).active && !exits(old(tick)))
      ensures unit.enabled == enabled || (s != Go && unit.enabled == old(unit).enabled)
    {
      var f := Tick();
      s := SignalOf(f);
      if f.Done? || f.applied {
        unit := unit.(enabled := enabled);
        Record(Now());
      }
    }

    method Stop() returns (s: Signal)
      requires Valid() && Attempting(Now())
      modifies this`tick, this`unit, this`run
      ensures Valid() && old(run) <= run && tick == old(tick) + 1
      ensures s == SignalOf(fate(old(tick)))
      ensures unit.enabled == old(unit).enabled && (unit.active ==> old(unit).active)
      ensures s == Go && !stopFails(old(tick)) ==> !unit.active
    {
      var f := Tick();
      s := SignalOf(f);
      if (f.Done? || f.applied) && !stopFails(tick - 1) {
        unit := unit.(active := false);
        Record(Now());
      }
    }

    method Start() returns (s: Signal)
      requires Valid() && journal.status == Applied && files == Installed && IsStarting(Now())
      modifies this`tick, this`unit, this`run
      ensures Valid() && old(run) <= run && tick == old(tick) + 1
      ensures s == SignalOf(fate(old(tick))) && unit.enabled == old(unit).enabled
      ensures s == Go ==> unit.active == comesUp(old(tick))
    {
      var f := Tick();
      s := SignalOf(f);
      if f.Done? || f.applied {
        unit := unit.(active := comesUp(tick - 1));
        Record(Now());
      }
    }

    /** Waits for an active unit with a ready socket; a timeout raises. */
    method WaitReady() returns (s: Signal)
      requires Valid()
      modifies this`tick, this`unit, this`run
      ensures Valid() && old(run) <= run && tick == old(tick) + 1
      ensures s == Go ==> fate(old(tick)).Done? && unit.active
      ensures s == Raise || s == SignalOf(fate(old(tick)))
      ensures unit == if exits(old(tick)) then old(unit).(active := false) else old(unit)
      ensures s == Raise ==> fate(old(tick)).Raised? || !unit.active
    {
      var f := Tick();
      s := SignalOf(f);
      if s == Go && !unit.active { s := Raise; }
    }

    /** A read of evidence that changes nothing durable. */
    method Observe(values: nat -> nat) returns (s: Signal, value: nat)
      requires Valid()
      modifies this`tick, this`unit, this`run
      ensures Valid() && old(run) <= run && tick == old(tick) + 1
      ensures s == SignalOf(fate(old(tick))) && value == values(old(tick))
      ensures unit == if exits(old(tick)) then old(unit).(active := false) else old(unit)
    {
      value := values(tick);
      var f := Tick();
      s := SignalOf(f);
    }

    /** Stops the unit if it is active. */
    method BringDown() returns (s: Signal)
      requires Valid() && Attempting(Now())
      modifies this`tick, this`unit, this`run
      ensures Valid() && old(run) <= run && old(tick) <= tick
      ensures unit.enabled == old(unit).enabled && (unit.active ==> old(unit).active)
      ensures s == Go ==> !unit.active
      ensures NoFaults(old(tick)) ==> s == Go
    {
      var active;
      s, active := IsActive();
      if s != Go || !active { return; }
      s := Stop();
      if s != Go { return; }
      s, active := IsActive();
      if s == Go && active { s := Raise; }
    }

    /** Enables or disables the unit as it was before the first attempt. */
    method BringEnablementBack(initialEnabled: bool) returns (s: Signal)
      requires Valid() && Attempting(Now()) && initialEnabled == journal.activation.value.initialEnabled
      modifies this`tick, this`unit, this`run
      ensures Valid() && old(run) <= run && old(tick) <= tick
      ensures unit.active ==> old(unit).active
      ensures s == Go ==> unit.enabled == initialEnabled
      ensures NoFaults(old(tick)) ==> s == Go
    {
      var enabled;
      s, enabled := IsEnabled();
      if s != Go { return; }
      if enabled != initialEnabled {
        s := SetEnabled(initialEnabled);
        if s != Go { return; }
      }
      s, enabled := IsEnabled();
      if s == Go && enabled != initialEnabled { s := Raise; }
    }

    /** _restore_activation_service_baseline. */
    method RestoreServiceBaseline() returns (s: Signal)
      requires Valid() && Attempting(Now())
      modifies this`tick, this`unit, this`run
      ensures Valid() && old(run) <= run && old(tick) <= tick
      ensures s == Go ==> AtBaseline(Now())
      ensures NoFaults(old(tick)) ==> s == Go
      ensures unit.active ==> old(unit).active
    {
      s := BringDown();
      if s == Go { s := BringEnablementBack(journal.activation.value.initialEnabled); }
    }

    /** The failure path shared by a fresh and a resumed attempt: restore, then record. */
    method RestoreAndRecordFailure() returns (s: Signal)
      requires Valid() && Attempting(Now())
      requires journal.status in {Applied, Activated, ActivationRollbackRequired}
      modifies this`tick, this`unit, this`run, this`journal
      ensures Valid() && old(run) <= run && old(tick) <= tick
      ensures s == Go ==> AtBaseline(Now()) && journal == WithPhase(old(journal), Applied, Failed)
      ensures journal in {old(journal), WithPhase(old(journal), Applied, Failed)}
      ensures NoFaults(old(tick)) ==> s == Go
    {
      s := RestoreServiceBaseline();
      if s != Go { return; }
      s := Write(WithPhase(journal, Applied, Failed));
    }

    ghost predicate ActivationMatches(operation: string, clients: seq<string>)
      reads this
    {
      && clients == journal.clients && journal.explicitActivation
      && (journal.activation.Some? ==>
            && journal.activation.value.operation == operation
            && journal.activation.value.clients == clients
            && !journal.activation.value.initialActive)
      && journal.status in {Applied, Activated}
    }

    /** activate_install. */
    method Activate(operation: string, clients: seq<string>) returns (o: Outcome, evidence: nat)
      requires Valid()
      modifies this`tick, this`unit, this`run, this`journal
      ensures Valid() && old(run) <= run
      // A refusal at the gate changes nothing but time.
      ensures !old(ActivationMatches(operation, clients)) || old(files) != Installed ==>
                o in {Error, Crashed} && journal == old(journal) && unit.enabled == old(unit).enabled
      ensures o == Completed ==> old(journal).status == Applied
      ensures o == Completed ==> ActivatedBy(old(journal).activation, old(unit).enabled, operation, clients, journal, evidence)
      ensures o == Completed ==> exists n :: old(tick) <= n < tick && readiness(n) == evidence
      // A replay is reported only for a ready journal, an active unit and unchanged evidence.
      ensures o == Replayed ==> ReadyWith(evidence, old(tick), |old(run)|)
      ensures o == Replayed && old(journal).status == Activated ==> journal == old(journal)
      ensures o == Error ==> journal.status in {old(journal).status, Activated, ActivationRollbackRequired}
      // A cooperative host and an authorised call do activate.
      ensures (old(ActivationMatches(operation, clients)) && old(files) == Installed && old(journal).status == Applied
               && old(journal).activation.None? && !old(unit).active && old(Cooperative(tick))) ==> o == Completed
    {
      evidence := 0;
      if clients != journal.clients || !journal.explicitActivation { return Error, 0; }
      if journal.activation.Some? {
        var a := journal.activation.value;
        if a.operation != operation || a.clients != clients || a.initialActive { return Error, 0; }
      }
      if journal.status != Applied && journal.status != Activated { return Error, 0; }
      var s, proof := Observe(route);                    // authority contract, verify_install, route proof
      if s != Go { return if s == Die then Crashed else Error, 0; }
      if files != Installed || proof != journal.route { return Error, 0; }
      if journal.status == Activated {
        o, evidence := ReplayActivated();
        return;
      }
      var active;
      if journal.activation.Some? && journal.activation.value.phase in {Starting, Restoring} {
        s, active := IsActive();
        if s != Go { return if s == Die then Crashed else Error, 0; }
        if active {
          o, evidence := Resume();
          return;
        }
      }
      o, evidence := NewAttempt(operation, clients);
    }

    ghost predicate ReadyWith(evidence: nat, sinceTick: nat, sinceRun: nat)
      reads this
    {
      && journal.status == Activated && IsReady(Now())
      && journal.activation.value.readiness == Some(evidence)
      && (exists k :: 0 <= k && sinceRun - 1 <= k < |run| && run[k].unit.active)
      && (exists n :: sinceTick <= n < tick && readiness(n) == evidence)
    }

    /** A journal that already says `activated`: prove it again without changing it. */
    method ReplayActivated() returns (o: Outcome, evidence: nat)
      requires Valid() && journal.status == Activated
      modifies this`tick, this`unit, this`run
      ensures Valid() && old(run) <= run && unit.enabled == old(unit).enabled && old(tick) <= tick
      ensures o in {Replayed, Error, Crashed}
      ensures o == Replayed ==> ReadyWith(evidence, old(tick), |old(run)|)
    {
      evidence := 0;
      if journal.activation.None? || journal.activation.value.phase != Ready { return Error, 0; }
      var s, active := IsActive();
      if s != Go { return if s == Die then Crashed else Error, 0; }
      if !active { return Error, 0; }
      ghost var k := |run| - 1;
      assert run[k].unit.active;
      s, evidence := Observe(readiness);
      if s != Go { return if s == Die then Crashed else Error, 0; }
      if journal.activation.value.readiness != Some(evidence) { return Error, 0; }
      assert run[k].unit.active && readiness(tick - 1) == evidence;
      o := Replayed;
    }

    /** Checks that the unit is where an attempt may start, and journals the attempt. */
    method RecordIntent(operation: string, clients: seq<string>) returns (s: Signal)
      requires Valid() && files == Installed && journal.status == Applied
      requires journal.activation.Some? ==>
                 && journal.activation.value.operation == operation
                 && journal.activation.value.clients == clients
                 && !journal.activation.value.initialActive
      modifies this`tick, this`unit, this`run, this`journal
      ensures Valid() && old(run) <= run && old(tick) <= tick && unit.enabled == old(unit).enabled
      ensures journal.status == Applied && (s == Go ==> !unit.active)
      ensures s == Go ==> journal == old(journal).(activation := Some(
                Attempt(operation, clients, false, old(unit).enabled,
                        if old(journal).activation.Some? then old(journal).activation.value.attempts + 1 else 1,
                        Starting, None)))
      ensures (old(journal).activation.None? && !old(unit).active && old(Cooperative(tick))) ==> s == Go
    {
      var active, enabled;
      s, active := IsActive();
      if s != Go { return; }
      if active { return Raise; }
      s, enabled := IsEnabled();
      if s != Go { return; }
      var attempt;
      if journal.activation.Some? {
        var a := journal.activation.value;
        if enabled != a.initialEnabled { return Raise; }
        attempt := a.(attempts := a.attempts + 1, phase := Starting, readiness := None);
      } else {
        attempt := Attempt(operation, clients, false, enabled, 1, Starting, None);
      }
      assert Begin(Now(), Now().(journal := journal.(activation := Some(attempt))));
      s := Write(journal.(activation := Some(attempt)));
    }

    /** One new attempt: record the intent, launch, record success or restore. */
    method NewAttempt(operation: string, clients: seq<string>) returns (o: Outcome, evidence: nat)
      requires Valid() && files == Installed && journal.status == Applied
      requires journal.activation.Some? ==>
                 && journal.activation.value.operation == operation
                 && journal.activation.value.clients == clients
                 && !journal.activation.value.initialActive
      modifies this`tick, this`unit, this`run, this`journal
      ensures Valid() && old(run) <= run && old(tick) <= tick
      ensures o in {Completed, Error, Crashed}
      ensures o == Completed ==> ActivatedBy(old(journal).activation, old(unit).enabled, operation, clients, journal, evidence)
      ensures o == Completed ==> exists n :: old(tick) <= n < tick && readiness(n) == evidence
      ensures o == Error ==> journal.status in {Applied, Activated, ActivationRollbackRequired}
      ensures (old(journal).activation.None? && !old(unit).active && old(Cooperative(tick))) ==> o == Completed
    {
      evidence := 0;
      var s := RecordIntent(operation, clients);
      if s != Go { return if s == Die then Crashed else Error, 0; }
      s, evidence := Launch();
      if s == Die { return Crashed, 0; }
      if s == Raise {
        o := Fail();
        return o, 0;
      }
      ghost var n := tick - 1;
      s := RecordReady(evidence);
      assert readiness(n) == evidence;
      o := if s == Go then Completed else if s == Die then Crashed else Error;
    }

    method RecordReady(evidence: nat) returns (s: Signal)
      requires Valid() && files == Installed && journal.status == Applied && Attempting(Now())
      modifies this`tick, this`unit, this`run, this`journal
      ensures Valid() && old(run) <= run && tick == old(tick) + 1 && unit.enabled == old(unit).enabled
      ensures s == SignalOf(fate(old(tick)))
      ensures journal == ReadyJournal(old(journal), evidence) || (s != Go && journal == old(journal))
    {
      ghost var d := Now();
      assert WriteReady(d, d.(journal := ReadyJournal(journal, evidence)));
      s := Write(ReadyJournal(journal, evidence));
    }

    /** An earlier attempt left the broker up: prove readiness or restore the baseline. */
    method Resume() returns (o: Outcome, evidence: nat)
      requires Valid() && files == Installed && journal.status == Applied
      requires Attempting(Now()) && unit.active
      modifies this`tick, this`unit, this`run, this`journal
      ensures Valid() && old(run) <= run && old(tick) <= tick
      ensures o == Replayed ==> ReadyWith(evidence, old(tick), |old(run)|)
      ensures o in {Replayed, Error, Crashed}
      ensures o == Error ==> journal.status == Applied || journal.status == Activated
      ensures o == Error && journal.status == Activated ==> IsReady(Now())
    {
      var s := WaitReady();
      evidence := 0;
      if s == Go {
        s, evidence := Observe(readiness);
      }
      if s == Die { return Crashed, 0; }
      if s == Raise {
        s := RestoreAndRecordFailure();
        return if s == Die then Crashed else Error, 0;
      }
      assert run[|old(run)| - 1].unit.active && readiness(tick - 1) == evidence;
      s := RecordReady(evidence);
      o := if s == Go then Replayed else if s == Die then Crashed else Error;
    }

    /** Enable, start, wait and probe. */
    method Launch() returns (s: Signal, evidence: nat)
      requires Valid() && files == Installed && journal.status == Applied && IsStarting(Now())
      modifies this`tick, this`unit, this`run
      ensures Valid() && old(run) <= run && old(tick) <= tick
      ensures s == Go ==> old(tick) < tick && readiness(tick - 1) == evidence
      ensures old(Cooperative(tick)) ==> s == Go
    {
      evidence := 0;
      if !journal.activation.value.initialEnabled {
        s := SetEnabled(true);
        if s != Go { return; }
      }
      s := Start();
      if s != Go { return; }
      s := WaitReady();
      if s != Go { return; }
      s, evidence := Observe(readiness);
    }

    /** The failure handler of a fresh attempt. */
    method Fail() returns (o: Outcome)
      requires Valid() && journal.status == Applied && IsStarting(Now())
      modifies this`tick, this`unit, this`run, this`journal
      ensures Valid() && old(run) <= run && old(tick) <= tick
      ensures o in {Error, Crashed}
      ensures journal.status in {Applied, ActivationRollbackRequired}
      ensures NoFaults(old(tick)) ==> o == Error && AtBaseline(Now()) && journal == WithPhase(old(journal), Applied, Failed)
    {
      var s, _ := Observe(n => 0);                        // failure evidence; its own timeouts are not caught
      if s != Go { return if s == Die then Crashed else Error; }
      s := Write(WithPhase(journal, Applied, Restoring));
      if s != Go { return if s == Die then Crashed else Error; }
      s := RestoreServiceBaseline();
      if s == Die { return Crashed; }
      if s == Raise {
        s := Write(WithPhase(journal, ActivationRollbackRequired, CleanupFailed));
        return if s == Die then Crashed else Error;
      }
      s := Write(WithPhase(journal, Applied, Failed));
      o := if s == Die then Crashed else Error;
    }

    /** restore_activation_baseline. */
    method RestoreActivationBaseline(operation: string) returns (o: Outcome)
      requires Valid()
      modifies this`tick, this`unit, this`run, this`journal
      ensures Valid() && old(run) <= run
      ensures o == Completed ==>
                && old(journal).activation.Some? && old(journal).activation.value.operation == operation
                && AtBaseline(Now()) && journal == WithPhase(old(journal), Applied, Failed)
      ensures o in {Completed, Error, Crashed}
      // Convergence from every state a crash can leave behind.
      ensures (old(journal).activation.Some? && old(journal).activation.value.operation == operation
               && !old(journal).activation.value.initialActive
               && old(journal).status in {Applied, Activated, ActivationRollbackRequired}
               && NoFaults(old(tick))) ==> o == Completed
    {
      if journal.activation.None? || journal.activation.value.operation != operation
         || journal.activation.value.initialActive
         || (journal.status != Applied && journal.status != Activated && journal.status != ActivationRollbackRequired) {
        return Error;
      }
      var s := Write(WithPhase(journal, journal.status, Restoring));
      if s == Go {
        s := RestoreAndRecordFailure();
      }
      o := match s { case Go => Completed case Raise => Error case Die => Crashed };
    }

    /** A first undo goes through; a repeated one only if everything it undid can be undone again. */
    predicate UndoGoesThrough()
      reads this`files
    {
      files == Installed || (othersRepeat && FilesGoThrough(entries, files))
    }

    /** rollback_install; undoing the files is one primitive here, which a repeat may refuse. */
    method Rollback() returns (o: Outcome)
      requires Valid()
      modifies this`tick, this`unit, this`run, this`journal, this`files
      ensures Valid() && old(run) <= run
      ensures o in {Completed, Error, Crashed}
      ensures o == Completed ==> journal.status == RolledBack && files == AllUndone && !unit.active
      ensures o == Completed && old(journal).activation.Some? ==>
                AtBaseline(Now()) && journal == WithPhase(old(journal), RolledBack, Undone)
      ensures o == Completed && old(journal).activation.None? ==>
                unit.enabled == old(unit).enabled && journal == old(journal).(status := RolledBack)
      ensures files != old(files) ==> !unit.active
      // Without faults it completes exactly when the undo goes through, and a refused repeat leaves
      // the files; whatever the faults, a repeat once refused is refused for good.
      ensures (NoFaults(old(tick))
               && (if old(journal).activation.Some? then !old(journal).activation.value.initialActive else !old(unit).active))
              ==> (o == Completed <==> old(UndoGoesThrough()))
      ensures !old(UndoGoesThrough()) ==> o != Completed && !UndoGoesThrough()
      ensures !old(UndoGoesThrough()) && NoFaults(old(tick)) ==> files == old(files)
    {
      var s, active;
      if journal.activation.Some? {
        if journal.activation.value.initialActive { return Error; }
        s := ReturnToBaseline();
        if s != Go { return if s == Die then Crashed else Error; }
      } else {
        s, active := IsActive();
        if s != Go { return if s == Die then Crashed else Error; }
        if active { return Error; }
      }
      s := Undo();
      if s == Go {
        s := Write(journal.(status := RolledBack));
      }
      o := match s { case Go => Completed case Raise => Error case Die => Crashed };
    }

    /** The activation half of a rollback: intent, service baseline, completion. */
    method ReturnToBaseline() returns (s: Signal)
      requires Valid() && journal.activation.Some?
      modifies this`tick, this`unit, this`run, this`journal
      ensures Valid() && old(run) <= run && old(tick) <= tick
      ensures s == Go ==> AtBaseline(Now()) && journal == WithPhase(old(journal), RollingBack, Undone)
      ensures NoFaults(old(tick)) ==> s == Go
    {
      assert WriteRollingBack(Now(), Now().(journal := WithPhase(journal, RollingBack, Restoring)));
      s := Write(WithPhase(journal, RollingBack, Restoring));
      if s != Go { return; }
      s := RestoreServiceBaseline();
      if s != Go { return; }
      assert WriteUndone(Now(), Now().(journal := WithPhase(journal, RollingBack, Undone)));
      s := Write(WithPhase(journal, RollingBack, Undone));
    }

    method Undo() returns (s: Signal)
      requires Valid() && Quiet(Now())
      modifies this`tick, this`unit, this`run, this`files
      ensures Valid() && old(run) <= run && tick == old(tick) + 1 && unit == old(unit)
      ensures old(UndoGoesThrough()) ==> s == SignalOf(fate(old(tick)))
      ensures !old(UndoGoesThrough()) ==> s != Go && !UndoGoesThrough() && (fate(old(tick)).Done? ==> files == old(files))
      ensures s == Go ==> files == AllUndone
      ensures UndoLeads(entries, old(files), s == Go, files)
    {
      var f := Tick();
      s := SignalOf(f);
      if !UndoGoesThrough() {
        if s == Go {
          s := Raise;
        } else if f.applied {
          files := PartlyUndone(Reached(entries, files), false);    // one more copy was cut short
          Record(Now());
        }
      } else if f.Done? {
        files := AllUndone;
        Record(Now());
      } else if f.applied {
        var from: nat :| from <= Reached(entries, files);
        var intact: bool :| true;
        files := PartlyUndone(from, intact);
        Record(Now());
      }
    }

    /** Any sequence of commands, each crashing wherever fate says, stays safe throughout. */
    method AnyCommands(before: bool, operation: string, clients: seq<string>, plan: seq<nat>)
      requires Valid() && AppliedAfresh(Now(), before) && run == [Now()]
      modifies this
      ensures Valid() && forall k :: 0 <= k < |run| ==> Safe(run[k], before)
    {
      var i := 0;
      while i < |plan|
        invariant 0 <= i <= |plan| && Valid()
        invariant AppliedAfresh(run[0], before)
      {
        if plan[i] % 3 == 0 {
          var o, e := Activate(operation, clients);
        } else if plan[i] % 3 == 1 {
          var o := RestoreActivationBaseline(operation);
        } else {
          var o := Rollback();
        }
        i := i + 1;
      }
      forall k | 0 <= k < |run| ensures Safe(run[k], before) {
        RunsStaySafe(run, before, k);
      }
    }
  }
}
