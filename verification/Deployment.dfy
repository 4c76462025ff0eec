/**
 The fenced deployment saga of scripts/deploy_server_wide_maintenance.py: Driver.deploy
 and Driver.rollback from the maintenance fence on.

 Every primitive may raise, with its effect absent, complete or partial; a running
 service writes its store at any time and may exit at any time.  `Next` says which
 change of the driver and the host is legal in which phase; the methods have the
 source's control flow and pass only through legal changes.
 */
module Deployment {
  import opened Options

  const SCHEMA_BEFORE := 9
  const SCHEMA_AFTER := 12

  datatype Store = Store(schema: int, content: nat)
  datatype Source = RollbackRef | Main | Elsewhere

  datatype World = World(
    marker: bool,                                  // the maintenance fence of this deployment
    source: Source,                                // what the checkout holds
    db: Store, client: Store,                      // the two databases
    units: nat,                                    // contents of the API and Console unit files
    installed: bool,                               // some of the target installation is in place
    broker: bool, api: bool, console: bool)        // which services run

  /** What the transaction directory holds for the way back. */
  datatype Vault = Vault(db: Store, client: Store, units: nat)

  datatype Phase =
    | Preflight | Draining | MaintenanceActive | TargetSource | Checkpoint | StartingTarget
    | StartingServices | Complete | RecoveryFence | RollingBack | RollbackComplete | RollbackFailed

  datatype State = State(
    same: bool,                                    // a release that keeps the schema
    phase: Phase,
    markerActive: bool, databaseCaptured: bool, clientCaptured: bool,
    installerApplied: bool, unitsCaptured: bool,
    restored: bool,                                // both stores were seen back while no service ran
    host: World, vault: Vault)

  function SchemaBefore(sameSchema: bool): int {
    if sameSchema then SCHEMA_AFTER else SCHEMA_BEFORE
  }

  predicate Stopped(w: World) {
    !w.broker && !w.api && !w.console
  }

  /** The checkout and both schemas are those of the rollback release. */
  predicate Reverted(same: bool, w: World) {
    w.source == RollbackRef && w.db.schema == SchemaBefore(same) && w.client.schema == SchemaBefore(same)
  }

  ghost predicate Fenced(s: State) {
    s.markerActive && s.host.marker
  }

  ghost predicate Captured(s: State) {
    s.databaseCaptured && s.clientCaptured && s.unitsCaptured
  }

  // ---- The protocol ----

  /** Services write and exit on their own; they neither start nor change a schema. */
  ghost predicate Wandered(w: World, w': World) {
    && w'.marker == w.marker && w'.source == w.source && w'.units == w.units && w'.installed == w.installed
    && w'.db.schema == w.db.schema && w'.client.schema == w.client.schema
    && (Stopped(w) ==> w'.db == w.db && w'.client == w.client)
    && (w'.broker ==> w.broker) && (w'.api ==> w.api) && (w'.console ==> w.console)
  }

  /** ... and those that the chaos spares keep running. */
  ghost predicate Steady(c: World, w: World, w': World) {
    (c.broker && w.broker ==> w'.broker) && (c.api && w.api ==> w'.api) && (c.console && w.console ==> w'.console)
  }

  ghost predicate Drift(s: State, s': State) {
    s' == s.(host := s'.host) && Wandered(s.host, s'.host)
  }

  ghost predicate StartServices(s: State, s': State) {
    && (s.phase.Draining? || s.phase.StartingTarget? || s.phase.StartingServices? || s.phase.RollingBack?)
    && s' == s.(host := s'.host)
    && s'.host == s.host.(broker := s'.host.broker, api := s'.host.api, console := s'.host.console)
  }

  ghost predicate RaiseFence(s: State, s': State) {
    && (s.phase.Preflight? || s.phase.StartingServices?)
    && s' == s.(markerActive := s'.markerActive, host := s'.host)
    && s'.host == s.host.(marker := true)
    && (s.markerActive ==> s'.markerActive)
  }

  ghost predicate LowerFence(s: State, s': State) {
    && s.markerActive
    && (s.phase == StartingTarget || (s.phase == RollingBack && Reverted(s.same, s.host)))
    && s' == s.(markerActive := s'.markerActive, host := s'.host)
    && s'.host == s.host.(marker := false)
  }

  ghost predicate Checkout(s: State, s': State) {
    && (s.phase.MaintenanceActive? || s.phase.RollingBack?)
    && s' == s.(host := s'.host)
    && s'.host == s.host.(source := s'.host.source)
    && (s.phase == MaintenanceActive ==> Fenced(s))
  }

  ghost predicate CaptureUnits(s: State, s': State) {
    && s.phase == Preflight && !s.unitsCaptured
    && s' == s.(unitsCaptured := s'.unitsCaptured, vault := s'.vault)
    && s'.vault == s.vault.(units := s'.vault.units)
    && (s'.unitsCaptured ==> s'.vault.units == s.host.units)
  }

  ghost predicate CaptureStores(s: State, s': State) {
    && s.phase == TargetSource && Fenced(s) && Stopped(s.host)
    && s' == s.(databaseCaptured := s'.databaseCaptured, clientCaptured := s'.clientCaptured, vault := s'.vault)
    && s'.vault == s.vault.(db := s'.vault.db, client := s'.vault.client)
    && (if s.databaseCaptured then s'.databaseCaptured && s'.vault.db == s.vault.db
        else s'.databaseCaptured ==> s'.vault.db == s.host.db)
    && (if s.clientCaptured then s'.clientCaptured && s'.vault.client == s.vault.client
        else s'.clientCaptured ==> s'.vault.client == s.host.client)
  }

  /** Migration, installation and unit replacement: only behind the fence, with no
      writer running and every copy taken. */
  ghost predicate Mutate(s: State, s': State) {
    && s.phase == Checkpoint && Fenced(s) && Captured(s) && Stopped(s.host)
    && s' == s.(installerApplied := s'.installerApplied, host := s'.host)
    && s'.host == s.host.(db := s'.host.db, units := s'.host.units, installed := s'.host.installed)
    && (s.installerApplied ==> s'.installerApplied)
  }

  /** Rollback touches only what was captured or applied. */
  ghost predicate PutBack(s: State, s': State) {
    && s.phase == RollingBack
    && s' == s.(host := s'.host)
    && s'.host == s.host.(db := s'.host.db, client := s'.host.client, units := s'.host.units, installed := s'.host.installed)
    && (s'.host.db != s.host.db ==> s.databaseCaptured)
    && (s'.host.client != s.host.client ==> s.clientCaptured)
    && (s'.host.units != s.host.units ==> s.unitsCaptured)
    && (s'.host.installed != s.host.installed ==> s.installerApplied)
  }

  /** The history variable: both stores hold their captured contents and nothing runs. */
  ghost predicate NoteRestored(s: State, s': State) {
    && s.phase == RollingBack && s' == s.(restored := true) && StoresBack(s)
  }

  ghost predicate StoresBack(s: State) {
    && Stopped(s.host)
    && (s.databaseCaptured ==> s.host.db == s.vault.db) && (s.clientCaptured ==> s.host.client == s.vault.client)
  }

  ghost predicate Enter(s: State, s': State) {
    && s' == s.(phase := s'.phase)
    && match s'.phase {
         case Preflight => false
         case Draining => s.phase == Preflight && Fenced(s) && s.unitsCaptured
         case MaintenanceActive => s.phase == Draining && Fenced(s)
         case TargetSource => s.phase == MaintenanceActive && Fenced(s) && s.host.source == Main
         case Checkpoint =>
           && s.phase == TargetSource && Fenced(s) && Captured(s) && Stopped(s.host)
           && s.vault.db == s.host.db && s.vault.client == s.host.client
         case StartingTarget =>
           s.phase == Checkpoint && Fenced(s) && s.installerApplied && s.host.db.schema == SCHEMA_AFTER
         case StartingServices => s.phase == StartingTarget && !s.markerActive && !s.host.marker
         case Complete =>
           && s.phase == StartingServices && !s.markerActive && !s.host.marker
           && s.host.source == Main && s.host.db.schema == SCHEMA_AFTER && s.installerApplied
         case RecoveryFence => s.phase == StartingServices && Fenced(s)
         case RollingBack => (!s.phase.Preflight? && !s.phase.Complete? && !s.phase.RollbackComplete? && !s.phase.RollbackFailed?)
         case RollbackComplete =>
           s.phase == RollingBack && !s.markerActive && s.restored && Reverted(s.same, s.host)
         case RollbackFailed => s.phase == RollingBack
       }
  }

  ghost predicate Next(s: State, s': State) {
    || Drift(s, s') || StartServices(s, s') || RaiseFence(s, s') || LowerFence(s, s') || Checkout(s, s')
    || CaptureUnits(s, s') || CaptureStores(s, s') || Mutate(s, s') || PutBack(s, s') || NoteRestored(s, s') || Enter(s, s')
  }

  ghost predicate Linked(run: seq<State>, i: nat) {
    i + 1 < |run| ==> Next(run[i], run[i + 1])
  }

  ghost predicate Legal(run: seq<State>) {
    run != [] && forall i: nat :: Linked(run, i)
  }

  // ---- What every run keeps ----

  ghost predicate Safe(s: State) {
    && ((s.phase.Draining? || s.phase.MaintenanceActive? || s.phase.TargetSource? || s.phase.Checkpoint?) ==> Fenced(s) && s.unitsCaptured)
    && ((s.phase.Preflight? || s.phase.Draining? || s.phase.MaintenanceActive?) ==> !s.databaseCaptured && !s.clientCaptured && !s.installerApplied)
    && (s.phase == TargetSource ==> s.host.source == Main && !s.installerApplied)
    && ((s.phase.Checkpoint? || s.phase.StartingTarget? || s.phase.StartingServices? || s.phase.Complete? || s.phase.RecoveryFence?) ==> Captured(s) && s.host.source == Main)
    && ((s.phase.StartingTarget? || s.phase.StartingServices? || s.phase.Complete? || s.phase.RecoveryFence?) ==>
          s.installerApplied && s.host.db.schema == SCHEMA_AFTER)
    && (s.phase == StartingServices && s.markerActive ==> s.host.marker)
    && (s.phase == Complete ==> !s.markerActive && !s.host.marker)
    && (s.phase == RollbackComplete ==> !s.markerActive && s.restored && Reverted(s.same, s.host))
  }

  lemma EnteringKeepsSafe(s: State, s': State)
    requires Safe(s) && (Enter(s, s'))
    ensures Safe(s')
  {
  }

  lemma RunningKeepsSafe(s: State, s': State)
    requires Safe(s) && (Drift(s, s') || StartServices(s, s') || Checkout(s, s'))
    ensures Safe(s')
  {
  }

  lemma FencingKeepsSafe(s: State, s': State)
    requires Safe(s) && (RaiseFence(s, s') || LowerFence(s, s'))
    ensures Safe(s')
  {
  }

  lemma CopyingKeepsSafe(s: State, s': State)
    requires Safe(s) && (CaptureUnits(s, s') || CaptureStores(s, s'))
    ensures Safe(s')
  {
  }

  lemma ChangingKeepsSafe(s: State, s': State)
    requires Safe(s) && (Mutate(s, s') || PutBack(s, s') || NoteRestored(s, s'))
    ensures Safe(s')
  {
  }

  lemma SafeIsKept(s: State, s': State)
    requires Safe(s) && Next(s, s')
    ensures Safe(s')
  {
    if Enter(s, s') {
      EnteringKeepsSafe(s, s');
    } else if Drift(s, s') || StartServices(s, s') || Checkout(s, s') {
      RunningKeepsSafe(s, s');
    } else if RaiseFence(s, s') || LowerFence(s, s') {
      FencingKeepsSafe(s, s');
    } else if CaptureUnits(s, s') || CaptureStores(s, s') {
      CopyingKeepsSafe(s, s');
    } else {
      ChangingKeepsSafe(s, s');
    }
  }

  lemma {:induction false} RunsStaySafe(run: seq<State>, k: nat)
    requires Legal(run) && Safe(run[0]) && k < |run|
    ensures Safe(run[k])
    decreases k
  {
    if k > 0 {
      RunsStaySafe(run, k - 1);
      assert Linked(run, k - 1);
      SafeIsKept(run[k - 1], run[k]);
    }
  }

  /** A legal run from the beginning of a deployment. */
  ghost predicate Begins(s: State) {
    && s.phase == Preflight && !s.markerActive && !s.databaseCaptured && !s.clientCaptured
    && !s.installerApplied && !s.unitsCaptured && !s.restored
  }

  type History = run: seq<State> | Legal(run) && Begins(run[0]) ghost witness [Dormant()]

  function Dormant(): State {
    var none := Store(0, 0);
    State(false, Preflight, false, false, false, false, false, false,
          World(false, RollbackRef, none, none, 0, false, false, false, false), Vault(none, none, 0))
  }

  lemma LastIsSafe(run: History)
    ensures Safe(run[|run| - 1])
  {
    RunsStaySafe(run, |run| - 1);
  }

  ghost predicate Changed(s: State, s': State) {
    || s.host.db.schema != s'.host.db.schema || s.host.client.schema != s'.host.client.schema
    || s.host.units != s'.host.units || s.host.installed != s'.host.installed
  }

  ghost predicate MayChange(s: State) {
    || (s.phase == Checkpoint && Fenced(s) && Captured(s) && Stopped(s.host))
    || (s.phase == RollingBack && (s.databaseCaptured || s.clientCaptured || s.unitsCaptured || s.installerApplied))
  }

  lemma OnlyMutateAndPutBackChange(s: State, s': State)
    requires Next(s, s') && Changed(s, s')
    ensures MayChange(s)
  {
    if Enter(s, s') {
    } else if CaptureUnits(s, s') || CaptureStores(s, s') || NoteRestored(s, s') {
    } else if RaiseFence(s, s') || LowerFence(s, s') {
    } else if Drift(s, s') || StartServices(s, s') || Checkout(s, s') {
    } else {
      assert Mutate(s, s') || PutBack(s, s');
    }
  }

  /** No step changes a schema, the unit files or the installation before all three
      copies exist; afterwards only behind the fence or while putting copies back. */
  lemma NothingChangesBeforeCapture(run: seq<State>, i: nat)
    requires Legal(run) && i + 1 < |run| && Changed(run[i], run[i + 1])
    ensures MayChange(run[i])
  {
    assert Linked(run, i);
    OnlyMutateAndPutBackChange(run[i], run[i + 1]);
  }

  /** A copy that was taken is never taken again, lost or altered. */
  lemma {:induction false} CopiesAreWrittenOnce(run: seq<State>, i: nat, j: nat)
    requires Legal(run) && Safe(run[0]) && i <= j < |run|
    ensures Keeps(run[i], run[j])
    decreases j
  {
    if i < j {
      CopiesAreWrittenOnce(run, i, j - 1);
      RunsStaySafe(run, j - 1);
      assert Linked(run, j - 1);
      StepKeepsCopies(run[j - 1], run[j]);
    }
  }

  ghost predicate Keeps(s: State, s': State) {
    && (s.databaseCaptured ==> s'.databaseCaptured && s'.vault.db == s.vault.db)
    && (s.clientCaptured ==> s'.clientCaptured && s'.vault.client == s.vault.client)
    && (s.unitsCaptured ==> s'.unitsCaptured && s'.vault.units == s.vault.units)
  }

  ghost predicate SameCopies(s: State, s': State) {
    && s'.vault == s.vault && s'.databaseCaptured == s.databaseCaptured
    && s'.clientCaptured == s.clientCaptured && s'.unitsCaptured == s.unitsCaptured
  }

  lemma HostStepsLeaveCopies(s: State, s': State)
    requires Drift(s, s') || StartServices(s, s') || Checkout(s, s') || PutBack(s, s') || NoteRestored(s, s')
    ensures SameCopies(s, s')
  {
  }

  lemma DriverStepsLeaveCopies(s: State, s': State)
    requires Enter(s, s') || RaiseFence(s, s') || LowerFence(s, s') || Mutate(s, s')
    ensures SameCopies(s, s')
  {
  }

  lemma CopyingKeeps(s: State, s': State)
    requires Safe(s) && (CaptureUnits(s, s') || CaptureStores(s, s'))
    ensures Keeps(s, s')
  {
  }

  lemma StepKeepsCopies(s: State, s': State)
    requires Safe(s) && Next(s, s')
    ensures Keeps(s, s')
  {
    if CaptureUnits(s, s') || CaptureStores(s, s') {
      CopyingKeeps(s, s');
    } else if Enter(s, s') || RaiseFence(s, s') || LowerFence(s, s') || Mutate(s, s') {
      DriverStepsLeaveCopies(s, s');
    } else {
      HostStepsLeaveCopies(s, s');
    }
  }

  /** A rollback that counts as complete did put both stores back while nothing ran. */
  lemma {:induction false} RestoredIsReal(run: History, j: nat) returns (i: nat)
    requires j < |run| && run[j].restored
    ensures i <= j && run[i].phase == RollingBack && StoresBack(run[i])
    decreases j
  {
    assert j > 0;
    assert Linked(run, j - 1);
    if run[j - 1].restored {
      i := RestoredIsReal(run, j - 1);
    } else {
      OnlyNotingRestores(run[j - 1], run[j]);
      i := j - 1;
    }
  }

  lemma OnlyNotingRestores(s: State, s': State)
    requires Next(s, s') && !s.restored && s'.restored
    ensures NoteRestored(s, s')
  {
    if Enter(s, s') {
    } else if CaptureUnits(s, s') || CaptureStores(s, s') {
    } else if RaiseFence(s, s') || LowerFence(s, s') {
    } else if Drift(s, s') || StartServices(s, s') || Checkout(s, s') {
    } else {
      assert Mutate(s, s') || PutBack(s, s') || NoteRestored(s, s');
    }
  }

  /** Whatever rollback finds, the copies it restores are the stores as they were at the
      checkpoint, before the first change. */
  lemma {:induction false} CheckpointIsTheLiveStore(run: seq<State>, i: nat, j: nat)
    requires Legal(run) && Safe(run[0]) && i < j < |run|
    requires run[i].phase == TargetSource && run[i + 1].phase == Checkpoint
    ensures run[j].vault.db == run[i].host.db && run[j].vault.client == run[i].host.client
    ensures Stopped(run[i].host) && Fenced(run[i])
  {
    assert Linked(run, i);
    ReachingTheCheckpoint(run[i], run[i + 1]);
    CopiesAreWrittenOnce(run, i, j);
  }

  lemma ReachingTheCheckpoint(s: State, s': State)
    requires Next(s, s') && s.phase == TargetSource && s'.phase == Checkpoint
    ensures Captured(s) && s.vault.db == s.host.db && s.vault.client == s.host.client && Stopped(s.host) && Fenced(s)
  {
    OnlyEnteringChangesPhase(s, s');
  }

  lemma OnlyEnteringChangesPhase(s: State, s': State)
    requires Next(s, s') && s.phase != s'.phase
    ensures Enter(s, s')
  {
    if CaptureUnits(s, s') || CaptureStores(s, s') || NoteRestored(s, s') {
    } else if RaiseFence(s, s') || LowerFence(s, s') {
    } else if Drift(s, s') || StartServices(s, s') || Checkout(s, s') {
    } else {
      assert Mutate(s, s') || PutBack(s, s') || Enter(s, s');
    }
  }

  // ---- The driver ----

  datatype Effect = Absent | Full | Partial
  datatype Fate = Works | Raises(effect: Effect) {
    /** Raises although it took effect. */
    predicate Late() {
      Raises? && effect != Absent
    }
  }
  /** What a primitive leaves behind where it works or raises. */
  function After<T>(f: Fate, done: T, damaged: T, before: T): T {
    match f
    case Works => done
    case Raises(Full) => done
    case Raises(Partial) => damaged
    case Raises(Absent) => before
  }

  /** The compensations of a rollback, as the journal names them. */
  datatype Compensation =
    | StopCompatibilityWriters
    | WaitConsoleStopped
    | WaitApiStopped
    | WaitBrokerStopped
    | RestoreDatabase
    | RestoreClientDatabase
    | RollbackServerWideInstaller
    | RestoreConsoleUnits
    | CheckoutCompatibilitySource
    | StartCompatibleBroker
    | WaitCompatibleBrokerReady
    | RestartCompatibleAPI
    | NormalizeCompatibleConsoleState
    | RestartCompatibleConsole
    | VerifyCompatibleServices
    | RenormalizeCompatibleConsoleState
    | VerifyRollbackSchema
    | VerifyRollbackClientSchema
    | ClearMaintenanceMarkerAfterRollback

  datatype Service = Broker | Api | Console

  datatype Outcome = NotStarted | Deployed | RolledBack | RolledBackInPart

  /** The primitives that raised and cleared the fence, by number: at the start, before the
      target services start, in the exception handler, and at the end of a rollback. */
  datatype Fence = Fence(raised: Option<nat>, cleared: Option<nat>, again: Option<nat>, last: Option<nat>)

  ghost predicate TookEffect(fate: nat -> Fate, at: Option<nat>) {
    at.Some? && (fate(at.value).Works? || fate(at.value).Late())
  }

  ghost predicate WasSeen(fate: nat -> Fate, at: Option<nat>) {
    at.Some? && fate(at.value).Works?
  }

  ghost predicate WasLate(fate: nat -> Fate, at: Option<nat>) {
    at.Some? && fate(at.value).Late()
  }

  /** `n` primitives in a row work. */
  ghost predicate AllWork(fate: nat -> Fate, from: nat, n: nat) {
    n > 0 ==> fate(from + n - 1).Works? && AllWork(fate, from, n - 1)
  }

  lemma {:induction false} WorkInTwoParts(fate: nat -> Fate, from: nat, n: nat, m: nat)
    ensures AllWork(fate, from, n + m) <==> AllWork(fate, from, n) && AllWork(fate, from + n, m)
  {
    if m > 0 {
      WorkInTwoParts(fate, from, n, m - 1);
    }
  }

  lemma FewWork(fate: nat -> Fate, at: nat)
    ensures AllWork(fate, at, 1) <==> fate(at).Works?
    ensures AllWork(fate, at, 2) <==> fate(at).Works? && fate(at + 1).Works?
    ensures AllWork(fate, at, 3) <==> AllWork(fate, at, 2) && fate(at + 2).Works?
    ensures AllWork(fate, at, 4) <==> AllWork(fate, at, 3) && fate(at + 3).Works?
    ensures AllWork(fate, at, 5) <==> AllWork(fate, at, 4) && fate(at + 4).Works?
  {
    assert AllWork(fate, at, 1) <==> fate(at).Works? by { assert AllWork(fate, at, 0); }
    assert AllWork(fate, at, 2) <==> AllWork(fate, at, 1) && fate(at + 1).Works?;
  }

  function Missed(ok: bool, c: Compensation): seq<Compensation> {
    if ok then [] else [c]
  }

  /** Which of the first `n` compensations of a script fail when all are attempted in turn. */
  ghost function FailedOf(fate: nat -> Fate, from: nat, script: seq<Compensation>, n: nat): seq<Compensation>
    requires n <= |script|
  {
    if n == 0 then [] else FailedOf(fate, from, script, n - 1) + Missed(fate(from + n - 1).Works?, script[n - 1])
  }

  ghost function Failed(fate: nat -> Fate, from: nat, script: seq<Compensation>): seq<Compensation> {
    FailedOf(fate, from, script, |script|)
  }

  lemma {:induction false} FailedInTwoParts(fate: nat -> Fate, from: nat, a: seq<Compensation>, b: seq<Compensation>, n: nat)
    requires n <= |b|
    ensures FailedOf(fate, from, a + b, |a| + n) == Failed(fate, from, a) + FailedOf(fate, from + |a|, b, n)
  {
    if n == 0 {
      FailedInPrefix(fate, from, a, b, |a|);
    } else {
      FailedInTwoParts(fate, from, a, b, n - 1);
      assert (a + b)[|a| + n - 1] == b[n - 1];
    }
  }

  lemma FailuresJoined(fate: nat -> Fate, from: nat, a: seq<Compensation>, b: seq<Compensation>)
    ensures Failed(fate, from, a + b) == Failed(fate, from, a) + Failed(fate, from + |a|, b)
  {
    FailedInTwoParts(fate, from, a, b, |b|);
  }

  lemma {:induction false} FailedInPrefix(fate: nat -> Fate, from: nat, a: seq<Compensation>, b: seq<Compensation>, n: nat)
    requires n <= |a|
    ensures FailedOf(fate, from, a + b, n) == FailedOf(fate, from, a, n)
  {
    if n > 0 {
      FailedInPrefix(fate, from, a, b, n - 1);
    }
  }

  /** Nothing fails in a script and in what follows it. */
  lemma NoneFailedAndMore(fate: nat -> Fate, from: nat, script: seq<Compensation>, m: nat)
    ensures Failed(fate, from, script) == [] && AllWork(fate, from + |script|, m) <==> AllWork(fate, from, |script| + m)
  {
    NoneFailed(fate, from, script, |script|);
    WorkInTwoParts(fate, from, |script|, m);
  }

  lemma {:induction false} NoneFailed(fate: nat -> Fate, from: nat, script: seq<Compensation>, n: nat)
    requires n <= |script|
    ensures FailedOf(fate, from, script, n) == [] <==> AllWork(fate, from, n)
  {
    if n > 0 {
      NoneFailed(fate, from, script, n - 1);
    }
  }

  // The compensations of a rollback, in order: some only for what was captured or applied.

  const STOP_SCRIPT := [StopCompatibilityWriters, WaitConsoleStopped, WaitApiStopped, WaitBrokerStopped]
  const RESTART_SCRIPT :=
    [StartCompatibleBroker, WaitCompatibleBrokerReady, RestartCompatibleAPI, NormalizeCompatibleConsoleState, RestartCompatibleConsole]

  function Given(present: bool, c: Compensation): seq<Compensation> {
    if present then [c] else []
  }

  function StoresScript(database: bool, client: bool): seq<Compensation> {
    STOP_SCRIPT + (Given(database, RestoreDatabase) + Given(client, RestoreClientDatabase))
  }

  function SourcesScript(units: bool): seq<Compensation> {
    Given(units, RestoreConsoleUnits) + Given(true, CheckoutCompatibilitySource)
  }

  function ReleaseScript(applied: bool, units: bool): seq<Compensation> {
    Given(applied, RollbackServerWideInstaller) + SourcesScript(units) + RESTART_SCRIPT
  }

  class Driver {
    const same: bool
    const fate: nat -> Fate         // what happens to the n-th primitive
    const busy: nat -> bool         // operations still run when the n-th primitive looks
    const targetUnits: nat          // the unit files of the target release
    const chaos: nat -> World       // what failing or running parts of the host turn into
    var tick: nat
    var phase: Phase
    var markerActive: bool
    var databaseCaptured: bool
    var clientCaptured: bool
    var installerApplied: bool
    var unitsCaptured: bool
    var failures: seq<Compensation>
    var host: World
    var vault: Vault
    ghost var run: History
    ghost const calmFrom: nat       // any primitive from which the host may be assumed calm
    ghost var restored: bool        // both stores were seen back while no service ran
    ghost var fence: Fence
    ghost var appliedAt: Option<nat>  // the primitive that applied the installer

    constructor (same: bool, fate: nat -> Fate, busy: nat -> bool, targetUnits: nat, chaos: nat -> World, host: World, vault: Vault, ghost calmFrom: nat)
      requires !host.marker && !host.installed
      ensures Valid() && this.same == same && this.fate == fate && this.chaos == chaos && this.host == host
      ensures phase == Preflight && !markerActive && !unitsCaptured && tick == 0 && failures == []
      ensures !databaseCaptured && !clientCaptured && !installerApplied && this.targetUnits == targetUnits
      ensures fence == Fence(None, None, None, None) && appliedAt == None
    {
      this.same, this.fate, this.busy, this.targetUnits, this.chaos, this.host, this.vault := same, fate, busy, targetUnits, chaos, host, vault;
      tick, phase := 0, Preflight;
      markerActive, databaseCaptured, clientCaptured, installerApplied, unitsCaptured := false, false, false, false, false;
      failures, fence, appliedAt := [], Fence(None, None, None, None), None;
      this.calmFrom, restored := calmFrom, false;
      run := [State(same, Preflight, false, false, false, false, false, false, host, vault)];
    }

    ghost function Now(): State
      reads this`phase, this`markerActive, this`databaseCaptured, this`clientCaptured, this`installerApplied, this`unitsCaptured,
            this`restored, this`host, this`vault
    {
      State(same, phase, markerActive, databaseCaptured, clientCaptured, installerApplied, unitsCaptured, restored, host, vault)
    }

    ghost predicate Valid()
      reads this`phase, this`markerActive, this`databaseCaptured, this`clientCaptured, this`installerApplied, this`unitsCaptured,
            this`restored, this`host, this`vault, this`run, this`fence, this`appliedAt
    {
      && run[|run| - 1] == Now()
      && FenceIsKnown(fence, markerActive, host.marker)
      && InstallationIsKnown(appliedAt, installerApplied, host.installed)
    }

    /** The fence is up exactly when the last primitive on it that took effect raised it, and
        the driver says so exactly when the last one seen to succeed raised it. */
    ghost predicate FenceIsKnown(fence: Fence, active: bool, marker: bool) {
      && (marker <==> ((TookEffect(fate, fence.raised) && !TookEffect(fate, fence.cleared)) || TookEffect(fate, fence.again))
                      && !TookEffect(fate, fence.last))
      && (active <==> ((WasSeen(fate, fence.raised) && !WasSeen(fate, fence.cleared)) || WasSeen(fate, fence.again))
                      && !WasSeen(fate, fence.last))
    }

    /** An installation the driver does not know of is the one whose command raised late. */
    ghost predicate InstallationIsKnown(appliedAt: Option<nat>, applied: bool, installed: bool) {
      && (applied <==> WasSeen(fate, appliedAt))
      && (!applied ==> (installed <==> WasLate(fate, appliedAt)))
    }

    /** From `calmFrom` on nothing raises, and services that were started keep running. */
    ghost predicate Smooth() {
      forall n :: calmFrom <= n ==> fate(n).Works? && chaos(n).broker && chaos(n).api && chaos(n).console
    }

    ghost predicate Calm()
      reads this`tick
    {
      Smooth() && calmFrom <= tick
    }

    lemma {:induction false} CalmWorks(n: nat)
      requires Calm()
      ensures AllWork(fate, tick, n)
    {
      if n > 0 {
        CalmWorks(n - 1);
      }
    }

    ghost method Record()
      requires Next(run[|run| - 1], Now()) && FenceIsKnown(fence, markerActive, host.marker)
      requires InstallationIsKnown(appliedAt, installerApplied, host.installed)
      modifies this`run
      ensures Valid()
    {
      ghost var next := run + [Now()];
      forall i: nat ensures Linked(next, i) {
        assert Linked(run, i);
      }
      run := next;
    }

    lemma SafeNow()
      requires Valid()
      ensures Safe(Now())
    {
      LastIsSafe(run);
    }

    /** The host after a moment of chaos `c`. */
    function Drifted(w: World, c: World): World {
      if Stopped(w) then w
      else w.(db := w.db.(content := c.db.content), client := w.client.(content := c.client.content),
              broker := w.broker && c.broker, api := w.api && c.api, console := w.console && c.console)
    }

    lemma DriftedWanders(w: World, c: World)
      ensures Wandered(w, Drifted(w, c)) && Steady(c, w, Drifted(w, c))
    {
    }

    /** One primitive begins, after the host has moved on. */
    method Tick() returns (f: Fate, c: World)
      requires Valid()
      modifies this`tick, this`host, this`run
      ensures Valid() && tick == old(tick) + 1
      ensures f == fate(old(tick)) && c == chaos(old(tick))
      ensures Wandered(old(host), host) && Steady(c, old(host), host)
    {
      f, c := fate(tick), chaos(tick);
      tick := tick + 1;
      DriftedWanders(host, c);
      host := Drifted(host, c);
      assert Drift(old(Now()), Now());
      Record();
    }

    /** A check or command with no effect on the modelled state. */
    method Probe() returns (ok: bool)
      requires Valid()
      modifies this`tick, this`host, this`run
      ensures Valid() && tick == old(tick) + 1
      ensures ok <==> fate(old(tick)).Works?
      ensures Wandered(old(host), host) && Steady(chaos(old(tick)), old(host), host)
    {
      var f, c := Tick();
      ok := f.Works?;
    }

    method SchemaEvidence(expected: int) returns (ok: bool)
      requires Valid()
      modifies this`tick, this`host, this`run
      ensures Valid() && tick == old(tick) + 1
      ensures ok <==> fate(old(tick)).Works? && host.db.schema == expected
      ensures Wandered(old(host), host) && Steady(chaos(old(tick)), old(host), host)
    {
      ok := Probe();
      ok := ok && host.db.schema == expected;
    }

    method ClientSchemaEvidence(expected: int) returns (ok: bool)
      requires Valid()
      modifies this`tick, this`host, this`run
      ensures Valid() && tick == old(tick) + 1
      ensures ok <==> fate(old(tick)).Works? && host.client.schema == expected
      ensures Wandered(old(host), host) && Steady(chaos(old(tick)), old(host), host)
    {
      ok := Probe();
      ok := ok && host.client.schema == expected;
    }

    method EnterPhase(next: Phase)
      requires Valid() && (Safe(Now()) ==> Enter(Now(), Now().(phase := next)))
      modifies this`phase, this`run
      ensures Valid() && phase == next
    {
      LastIsSafe(run);
      phase := next;
      Record();
    }

    /** Nothing has touched the fence yet. */
    ghost predicate Untouched()
      reads this`fence
    {
      fence == Fence(None, None, None, None)
    }

    /** The fence was raised and nothing has touched it since. */
    ghost predicate RaisedOnly()
      reads this`fence
    {
      WasSeen(fate, fence.raised) && fence == Fence(fence.raised, None, None, None)
    }

    /** A clear before the target services was attempted, and it is the last word on the fence. */
    ghost predicate ClearTried()
      reads this`fence
    {
      WasSeen(fate, fence.raised) && fence.cleared.Some? && fence == Fence(fence.raised, fence.cleared, None, None)
    }

    /** The fence may be raised: at the start, or again where it was cleared. */
    ghost predicate Raisable()
      reads this`fence, this`phase
    {
      if phase == Preflight then Untouched() else phase == StartingServices && ClearTried() && WasSeen(fate, fence.cleared)
    }

    /** The fence may be cleared: before the target services, or at the end of a rollback. */
    ghost predicate Clearable()
      reads this`fence, this`phase
    {
      if phase == StartingTarget then RaisedOnly() else phase == RollingBack && fence.last.None?
    }

    /** The fence once a primitive has tried to raise it, or to clear it. */
    ghost function RaisedAt(at: nat): Fence
      reads this`fence, this`phase
    {
      if phase == Preflight then fence.(raised := Some(at)) else fence.(again := Some(at))
    }

    ghost function ClearedAt(at: nat): Fence
      reads this`fence, this`phase
    {
      if phase == StartingTarget then fence.(cleared := Some(at)) else fence.(last := Some(at))
    }

    lemma RaisedIsKnown(at: nat, marker: bool)
      requires Raisable() && FenceIsKnown(fence, false, marker)
      ensures !marker && FenceIsKnown(RaisedAt(at), WasSeen(fate, Some(at)), TookEffect(fate, Some(at)))
    {
    }

    lemma ClearedIsKnown(at: nat, marker: bool)
      requires Clearable() && FenceIsKnown(fence, true, marker)
      ensures FenceIsKnown(ClearedAt(at), !WasSeen(fate, Some(at)), marker && !TookEffect(fate, Some(at)))
    {
    }

    /** The fence apart, the host moved on as it does. */
    lemma Aside(w: World, w': World, marker: bool)
      requires Wandered(w, w')
      ensures Wandered(w.(marker := marker), w'.(marker := marker))
    {
    }

    /** activate_maintenance: may raise after the marker is already published. */
    method ActivateFence() returns (ok: bool)
      requires Valid() && !markerActive && Raisable()
      modifies this`tick, this`host, this`run, this`markerActive, this`fence
      ensures Valid() && tick == old(tick) + 1
      ensures ok == markerActive && (ok <==> fate(old(tick)).Works?)
      ensures fence == old(RaisedAt(tick))
      ensures Wandered(old(host).(marker := host.marker), host)
    {
      hide Valid, Raisable, RaisedAt, Steady, Wandered;
      ghost var at := tick;
      var f, c := Tick();
      ok := f.Works?;
      Aside(old(host), host, if ok || f.Late() then true else host.marker);
      if ok || f.Late() {
        SetRaised(ok, at);
      } else {
        NoteRaised(at);
      }
    }

    /** An attempt without effect. */
    ghost method NoteRaised(at: nat)
      requires Valid() && !markerActive && Raisable() && !TookEffect(fate, Some(at))
      modifies this`fence
      ensures Valid() && fence == old(RaisedAt(at))
    {
      RaisedIsKnown(at, host.marker);
      hide FenceIsKnown, InstallationIsKnown;
      fence := RaisedAt(at);
    }

    method SetRaised(seen: bool, ghost at: nat)
      requires Valid() && !markerActive && Raisable()
      requires seen == WasSeen(fate, Some(at)) && TookEffect(fate, Some(at))
      modifies this`host, this`run, this`markerActive, this`fence
      ensures Valid() && host == old(host).(marker := true)
      ensures markerActive == seen && fence == old(RaisedAt(at))
    {
      RaisedIsKnown(at, host.marker);
      hide FenceIsKnown, InstallationIsKnown;
      ghost var before := Now();
      fence, host, markerActive := RaisedAt(at), host.(marker := true), seen;
      assert RaiseFence(before, Now());
      Record();
    }

    /** clear_maintenance: may raise after the marker is already unlinked. */
    method ClearFence() returns (ok: bool)
      requires Valid() && markerActive && Clearable()
      requires phase == RollingBack ==> Reverted(same, host)
      modifies this`tick, this`host, this`run, this`markerActive, this`fence
      ensures Valid() && tick == old(tick) + 1
      ensures (ok <==> fate(old(tick)).Works?) && (ok <==> !markerActive)
      ensures fence == old(ClearedAt(tick))
      ensures Wandered(old(host).(marker := host.marker), host)
    {
      hide Valid, Clearable, ClearedAt, Steady;
      ghost var at := tick;
      var f, c := Tick();
      ok := f.Works?;
      Aside(old(host), host, if ok || f.Late() then false else host.marker);
      assert phase == RollingBack ==> Reverted(same, host);
      hide Wandered, Reverted;
      if ok || f.Late() {
        SetCleared(ok, at);
      } else {
        NoteCleared(at);
      }
    }

    ghost method NoteCleared(at: nat)
      requires Valid() && markerActive && Clearable() && !TookEffect(fate, Some(at))
      modifies this`fence
      ensures Valid() && fence == old(ClearedAt(at))
    {
      ClearedIsKnown(at, host.marker);
      hide FenceIsKnown, InstallationIsKnown;
      fence := ClearedAt(at);
    }

    method SetCleared(seen: bool, ghost at: nat)
      requires Valid() && markerActive && Clearable()
      requires phase == RollingBack ==> Reverted(same, host)
      requires seen == WasSeen(fate, Some(at)) && TookEffect(fate, Some(at))
      modifies this`host, this`run, this`markerActive, this`fence
      ensures Valid() && host == old(host).(marker := false)
      ensures markerActive == !seen && fence == old(ClearedAt(at))
    {
      ClearedIsKnown(at, host.marker);
      hide FenceIsKnown, InstallationIsKnown;
      ghost var before := Now();
      fence, host, markerActive := ClearedAt(at), host.(marker := false), !seen;
      assert LowerFence(before, Now());
      Record();
    }

    method CaptureUnitFiles() returns (ok: bool)
      requires Valid() && phase == Preflight && !unitsCaptured
      modifies this`tick, this`host, this`run, this`unitsCaptured, this`vault
      ensures Valid() && tick == old(tick) + 1
      ensures ok == unitsCaptured && (ok <==> fate(old(tick)).Works?) && (ok ==> vault.units == host.units)
      ensures Wandered(old(host), host) && Steady(chaos(old(tick)), old(host), host)
    {
      var f, c := Tick();
      ghost var before := Now();
      ok := f.Works?;
      unitsCaptured := ok;
      vault := vault.(units := if ok then host.units else c.units);
      assert CaptureUnits(before, Now());
      Record();
    }

    method CheckoutSource(target: Source) returns (ok: bool)
      requires Valid() && (phase.MaintenanceActive? || phase.RollingBack?)
      modifies this`tick, this`host, this`run
      ensures Valid() && tick == old(tick) + 1
      ensures (ok <==> fate(old(tick)).Works?) && (ok ==> host.source == target)
      ensures Wandered(old(host).(source := host.source), host) && Steady(chaos(old(tick)), old(host), host)
    {
      var f, c := Tick();
      ok := f.Works?;
      var value := After(f, target, c.source, host.source);
      SetSource(value);
    }

    method SetSource(source: Source)
      requires Valid() && (phase.MaintenanceActive? || phase.RollingBack?)
      modifies this`host, this`run
      ensures Valid() && host == old(host).(source := source)
    {
      ghost var before := Now();
      host := host.(source := source);
      LastIsSafe(run);
      assert Checkout(before, Now());
      Record();
    }

    /** wait_inactive for one service. */
    method WaitDown(service: Service) returns (ok: bool)
      requires Valid()
      modifies this`tick, this`host, this`run
      ensures Valid() && tick == old(tick) + 1
      ensures (ok <==> fate(old(tick)).Works?) && Wandered(old(host), host)
      ensures ok ==> match service { case Broker => !host.broker case Api => !host.api case Console => !host.console }
    {
      ok := Probe();
      if ok { SeenDown(service); }
    }

    function Down(w: World, service: Service): World {
      match service
      case Broker => w.(broker := false)
      case Api => w.(api := false)
      case Console => w.(console := false)
    }

    lemma WentDown(w: World, service: Service)
      ensures Wandered(w, Down(w, service))
    {
    }

    /** A service was observed inactive. */
    method SeenDown(service: Service)
      requires Valid()
      modifies this`host, this`run
      ensures Valid()
      ensures host == Down(old(host), service)
    {
      ghost var before := Now();
      WentDown(host, service);
      host := Down(host, service);
      assert Drift(before, Now());
      Record();
    }

    method CaptureStore(client: bool) returns (ok: bool)
      requires Valid() && phase == TargetSource && Stopped(host)
      requires if client then !clientCaptured else !databaseCaptured
      modifies this`tick, this`host, this`run, this`databaseCaptured, this`clientCaptured, this`vault
      ensures Valid() && tick == old(tick) + 1 && host == old(host)
      ensures ok <==> fate(old(tick)).Works?
      ensures databaseCaptured == (if client then old(databaseCaptured) else ok)
      ensures clientCaptured == (if client then ok else old(clientCaptured))
      ensures ok ==> vault == if client then old(vault).(client := host.client) else old(vault).(db := host.db)
      ensures vault.units == old(vault).units
    {
      var f, c := Tick();
      ok := f.Works?;
      if client {
        KeepClient(ok, if ok then host.client else c.client);
      } else {
        KeepDb(ok, if ok then host.db else c.db);
      }
    }

    method KeepDb(ok: bool, db: Store)
      requires Valid() && phase == TargetSource && Stopped(host) && !databaseCaptured && (ok ==> db == host.db)
      modifies this`run, this`databaseCaptured, this`vault
      ensures Valid() && databaseCaptured == ok && vault == old(vault).(db := db)
    {
      ghost var before := Now();
      databaseCaptured, vault := ok, vault.(db := db);
      LastIsSafe(run);
      assert CaptureStores(before, Now());
      Record();
    }

    method KeepClient(ok: bool, client: Store)
      requires Valid() && phase == TargetSource && Stopped(host) && !clientCaptured && (ok ==> client == host.client)
      modifies this`run, this`clientCaptured, this`vault
      ensures Valid() && clientCaptured == ok && vault == old(vault).(client := client)
    {
      ghost var before := Now();
      clientCaptured, vault := ok, vault.(client := client);
      LastIsSafe(run);
      assert CaptureStores(before, Now());
      Record();
    }

    method Migrate() returns (ok: bool)
      requires Valid() && phase == Checkpoint && Stopped(host)
      modifies this`tick, this`host, this`run
      ensures Valid() && tick == old(tick) + 1
      ensures ok <==> fate(old(tick)).Works?
      ensures host == old(host).(db := host.db) && (ok ==> host.db.schema == SCHEMA_AFTER)
    {
      var f, c := Tick();
      ghost var before := Now();
      ok := f.Works?;
      host := host.(db := After(f, Store(SCHEMA_AFTER, c.db.content), c.db, host.db));
      LastIsSafe(run);
      assert Mutate(before, Now());
      Record();
    }

    method ApplyInstaller() returns (ok: bool)
      requires Valid() && phase == Checkpoint && Stopped(host)
      requires appliedAt.None?
      modifies this`tick, this`host, this`run, this`installerApplied, this`appliedAt
      ensures Valid() && tick == old(tick) + 1
      ensures ok <==> fate(old(tick)).Works?
      ensures host == old(host).(installed := host.installed) && appliedAt == Some(old(tick))
      ensures installerApplied == ok && (ok ==> host.installed)
    {
      ghost var at := tick;
      var f, c := Tick();
      ok := f.Works?;
      SetInstalled(ok, ok || f.Late(), at);
    }

    method SetInstalled(seen: bool, done: bool, ghost at: nat)
      requires Valid() && phase == Checkpoint && Stopped(host) && appliedAt.None? && (seen ==> done)
      requires seen == fate(at).Works? && done == TookEffect(fate, Some(at))
      modifies this`host, this`run, this`installerApplied, this`appliedAt
      ensures Valid() && host == old(host).(installed := done)
      ensures installerApplied == seen && appliedAt == Some(at)
    {
      ghost var before := Now();
      host := host.(installed := done);
      installerApplied, appliedAt := seen, Some(at);
      LastIsSafe(run);
      assert Mutate(before, Now());
      Record();
    }

    method InstallUnits() returns (ok: bool)
      requires Valid() && phase == Checkpoint && Stopped(host)
      modifies this`tick, this`host, this`run
      ensures Valid() && tick == old(tick) + 1
      ensures ok <==> fate(old(tick)).Works?
      ensures host == old(host).(units := host.units) && (ok ==> host.units == targetUnits)
    {
      var f, c := Tick();
      ghost var before := Now();
      ok := f.Works?;
      host := host.(units := After(f, targetUnits, c.units, host.units));
      LastIsSafe(run);
      assert Mutate(before, Now());
      Record();
    }

    /** systemctl start or restart of one service, and the proof that it is up. */
    method Start(broker: bool, api: bool, console: bool) returns (ok: bool)
      requires Valid() && (phase.Draining? || phase.StartingTarget? || phase.StartingServices? || phase.RollingBack?)
      modifies this`tick, this`host, this`run
      ensures Valid() && tick == old(tick) + 1
      ensures ok <==> fate(old(tick)).Works?
      ensures Wandered(old(host).(broker := true, api := true, console := true), host) && Steady(chaos(old(tick)), old(host), host)
      ensures Stopped(old(host)) ==> host.db == old(host).db && host.client == old(host).client
      ensures ok ==> (broker ==> host.broker) && (api ==> host.api) && (console ==> host.console)
    {
      var f, c := Tick();
      ghost var before := Now();
      ok := f.Works?;
      var up := ok || f.effect == Full;
      SetServices(host.broker || (broker && (up || c.broker)), host.api || (api && (up || c.api)),
                  host.console || (console && (up || c.console)));
    }

    method SetServices(broker: bool, api: bool, console: bool)
      requires Valid() && (phase.Draining? || phase.StartingTarget? || phase.StartingServices? || phase.RollingBack?)
      modifies this`host, this`run
      ensures Valid()
      ensures host == old(host).(broker := broker, api := api, console := console)
    {
      ghost var before := Now();
      host := host.(broker := broker, api := api, console := console);
      assert StartServices(before, Now());
      Record();
    }

    /** Puts one captured store back; a failure leaves anything in its place. */
    method RestoreStore(client: bool) returns (ok: bool)
      requires Valid() && phase == RollingBack
      requires if client then clientCaptured else databaseCaptured
      modifies this`tick, this`host, this`run
      ensures Valid() && tick == old(tick) + 1
      ensures ok <==> fate(old(tick)).Works?
      ensures Wandered(if client then old(host).(client := host.client) else old(host).(db := host.db), host)
      ensures Steady(chaos(old(tick)), old(host), host)
      ensures ok ==> (if client then host.client == vault.client else host.db == vault.db)
    {
      var f, c := Tick();
      ok := f.Works?;
      if client {
        var value := After(f, vault.client, c.client, host.client);
        SetClient(value);
      } else {
        var value := After(f, vault.db, c.db, host.db);
        SetDb(value);
      }
    }

    method RollBackInstaller() returns (ok: bool)
      requires Valid() && phase == RollingBack && installerApplied
      modifies this`tick, this`host, this`run
      ensures Valid() && tick == old(tick) + 1
      ensures (ok <==> fate(old(tick)).Works?) && (ok ==> !host.installed)
      ensures Wandered(old(host).(installed := host.installed), host) && Steady(chaos(old(tick)), old(host), host)
    {
      var f, c := Tick();
      ok := f.Works?;
      var value := After(f, false, c.installed, host.installed);
      SetRolledBackInstallation(value);
    }

    method RestoreUnits() returns (ok: bool)
      requires Valid() && phase == RollingBack && unitsCaptured
      modifies this`tick, this`host, this`run
      ensures Valid() && tick == old(tick) + 1
      ensures (ok <==> fate(old(tick)).Works?) && (ok ==> host.units == vault.units)
      ensures Wandered(old(host).(units := host.units), host) && Steady(chaos(old(tick)), old(host), host)
    {
      var f, c := Tick();
      ok := f.Works?;
      var value := After(f, vault.units, c.units, host.units);
      SetRestoredUnits(value);
    }

    method SetDb(db: Store)
      requires Valid() && phase == RollingBack && databaseCaptured
      modifies this`host, this`run
      ensures Valid() && host == old(host).(db := db)
    {
      ghost var before := Now();
      host := host.(db := db);
      assert PutBack(before, Now());
      Record();
    }

    method SetClient(client: Store)
      requires Valid() && phase == RollingBack && clientCaptured
      modifies this`host, this`run
      ensures Valid() && host == old(host).(client := client)
    {
      ghost var before := Now();
      host := host.(client := client);
      assert PutBack(before, Now());
      Record();
    }

    method SetRestoredUnits(units: nat)
      requires Valid() && phase == RollingBack && unitsCaptured
      modifies this`host, this`run
      ensures Valid() && host == old(host).(units := units)
    {
      ghost var before := Now();
      host := host.(units := units);
      assert PutBack(before, Now());
      Record();
    }

    method SetRolledBackInstallation(installed: bool)
      requires Valid() && phase == RollingBack && installerApplied
      modifies this`host, this`run
      ensures Valid() && host == old(host).(installed := installed)
    {
      ghost var before := Now();
      host := host.(installed := installed);
      assert PutBack(before, Now());
      Record();
    }

    // ---- deploy() ----

    /** Nothing the target release brings has changed. */
    ghost predicate SameTarget(w: World, w': World) {
      && w'.marker == w.marker && w'.units == w.units && w'.installed == w.installed
      && w'.db.schema == w.db.schema && w'.client.schema == w.client.schema
    }

    /** wait_for_operation_quiescence: restart the broker if operations do not drain. */
    method WaitQuiescent() returns (ok: bool)
      requires Valid() && phase == Draining
      modifies this`tick, this`host, this`run
      ensures Valid() && old(tick) <= tick && SameTarget(old(host), host)
      ensures old(Calm()) ==> ok
    {
      ok := Probe();
      if ok && busy(tick) {
        ok := Start(true, false, false);
        if ok { ok := Probe(); }
      }
    }

    /** Both schemas as expected, no database helper, one more command. */
    method ProveStores(expected: int) returns (ok: bool)
      requires Valid()
      modifies this`tick, this`host, this`run
      ensures Valid() && old(tick) <= tick && Wandered(old(host), host)
      ensures ok ==> host.db.schema == expected && host.client.schema == expected
      ensures old(Calm()) && old(host).db.schema == expected && old(host).client.schema == expected ==> ok
    {
      ok := SchemaEvidence(expected);
      if ok { ok := ClientSchemaEvidence(expected); }
      if ok { ok := Probe(); }                           // no database helpers
      if ok { ok := Probe(); }                           // online backup
    }

    /** Drain behind the fence, check the schemas, back up online, check out the target. */
    method Drain() returns (ok: bool)
      requires Valid() && phase == Preflight && Fenced(Now()) && unitsCaptured
      modifies this`tick, this`host, this`run, this`phase
      ensures Valid() && old(tick) <= tick
      ensures if ok then phase == TargetSource else (phase.Draining? || phase.MaintenanceActive?)
      ensures SameTarget(old(host), host)
      ensures (old(Calm()) && old(host).db.schema == SchemaBefore(same) && old(host).client.schema == SchemaBefore(same))
              ==> ok
    {
      hide Valid, Smooth;
      EnterPhase(Draining);
      ok := ProveDrained();
      if !ok { return; }
      EnterPhase(MaintenanceActive);
      ok := CheckoutTarget();
    }

    /** No operation runs any more, and both stores are what the rollback release left. */
    method ProveDrained() returns (ok: bool)
      requires Valid() && phase == Draining
      modifies this`tick, this`host, this`run
      ensures Valid() && old(tick) <= tick && SameTarget(old(host), host)
      ensures (old(Calm()) && old(host).db.schema == SchemaBefore(same) && old(host).client.schema == SchemaBefore(same))
              ==> ok
    {
      hide Valid, Smooth;
      ok := WaitQuiescent();
      if ok { ok := ProveStores(SchemaBefore(same)); }
    }

    method CheckoutTarget() returns (ok: bool)
      requires Valid() && phase == MaintenanceActive
      modifies this`tick, this`host, this`run, this`phase
      ensures Valid() && old(tick) <= tick
      ensures if ok then phase == TargetSource else phase == MaintenanceActive
      ensures SameTarget(old(host), host)
      ensures old(Calm()) ==> ok
    {
      ok := CheckoutSource(Main);
      if ok { EnterPhase(TargetSource); }
    }

    /** Stop all three services and wait for each. */
    method StopServices() returns (ok: bool)
      requires Valid()
      modifies this`tick, this`host, this`run
      ensures Valid() && old(tick) <= tick && Wandered(old(host), host)
      ensures ok ==> Stopped(host)
      ensures old(Calm()) ==> ok
    {
      ok := Probe();                                     // systemctl stop --no-block
      if ok { ok := WaitDown(Console); }
      if ok { ok := WaitDown(Api); }
      if ok { ok := WaitDown(Broker); }
    }

    method ProveStopped() returns (ok: bool)
      requires Valid() && Stopped(host)
      modifies this`tick, this`host, this`run
      ensures Valid() && old(tick) <= tick && host == old(host)
      ensures old(Calm()) && host.db.schema == SchemaBefore(same) ==> ok
    {
      ok := Probe();                                     // broker socket gone
      if ok { ok := SchemaEvidence(SchemaBefore(same)); }
      if ok { ok := Probe(); }                           // no database helpers
    }

    /** Stop every writer, then take the writer-free copies. */
    method StopAndCapture() returns (ok: bool)
      requires Valid() && phase == TargetSource && !databaseCaptured && !clientCaptured
      modifies this`tick, this`host, this`run, this`phase, this`databaseCaptured, this`clientCaptured, this`vault
      ensures Valid() && old(tick) <= tick
      ensures if ok then phase == Checkpoint && Stopped(host) else phase == TargetSource
      ensures vault.units == old(vault).units
      ensures SameTarget(old(host), host)
      ensures (old(Calm()) && old(host).db.schema == SchemaBefore(same)) ==> ok
    {
      ok := StopServices();
      if ok { ok := ProveStopped(); }
      if ok { ok := CaptureBoth(); }
      if ok { EnterPhase(Checkpoint); }
    }

    method CaptureBoth() returns (ok: bool)
      requires Valid() && phase == TargetSource && Stopped(host) && !databaseCaptured && !clientCaptured
      modifies this`tick, this`host, this`run, this`databaseCaptured, this`clientCaptured, this`vault
      ensures Valid() && old(tick) <= tick && host == old(host)
      ensures ok ==> databaseCaptured && clientCaptured && vault.db == host.db && vault.client == host.client
      ensures vault.units == old(vault).units
      ensures old(Calm()) ==> ok
    {
      ok := CaptureStore(false);
      if ok { ok := CaptureStore(true); }
    }

    ghost function MigrationSteps(): nat {
      if same then 1 else 2
    }

    /** Migrate unless the release keeps the schema, then require the target schema. */
    method MigrateAndCheck() returns (ok: bool)
      requires Valid() && phase == Checkpoint && Stopped(host)
      modifies this`tick, this`host, this`run
      ensures Valid() && old(tick) <= tick && host == old(host).(db := host.db)
      ensures ok ==> host.db.schema == SCHEMA_AFTER && tick == old(tick) + MigrationSteps()
      ensures AllWork(fate, old(tick), MigrationSteps()) && (same ==> old(host).db.schema == SCHEMA_AFTER) ==> ok
    {
      FewWork(fate, tick);
      ok := true;
      if !same { ok := Migrate(); }
      if ok { ok := SchemaEvidence(SCHEMA_AFTER); }
    }

    /** Plan, apply and verify the installation. */
    method Install() returns (ok: bool)
      requires Valid() && phase == Checkpoint && Stopped(host) && appliedAt.None?
      modifies this`tick, this`host, this`run, this`installerApplied, this`appliedAt
      ensures Valid() && old(tick) <= tick && host == old(host).(installed := host.installed)
      ensures ok ==> installerApplied && host.installed
      ensures appliedAt == if fate(old(tick)).Works? then Some(old(tick) + 1) else None
      ensures WasLate(fate, appliedAt) ==> !ok && tick == old(tick) + 2
      ensures old(Calm()) ==> ok
    {
      ok := Probe();                                     // installer plan
      if ok { ok := ApplyInstaller(); }
      if ok { ok := Probe(); }                           // installer verify
      if ok { ok := Probe(); }                           // systemd-analyze verify
    }

    method ReplaceUnits() returns (ok: bool)
      requires Valid() && phase == Checkpoint && Stopped(host)
      modifies this`tick, this`host, this`run
      ensures Valid() && old(tick) <= tick && host == old(host).(units := host.units)
      ensures ok ==> host.units == targetUnits
      ensures old(Calm()) ==> ok
    {
      ok := InstallUnits();
      if ok { ok := Probe(); }                           // console private state
      if ok { ok := Probe(); }                           // loaded unit paths
    }

    /** Migrate and apply the installer. */
    method MigrateAndInstall() returns (ok: bool)
      requires Valid() && phase == Checkpoint && Stopped(host) && appliedAt.None?
      modifies this`tick, this`host, this`run, this`installerApplied, this`appliedAt
      ensures Valid() && old(tick) <= tick && host == old(host).(db := host.db, installed := host.installed)
      ensures ok ==> host.installed && installerApplied && host.db.schema == SCHEMA_AFTER
      ensures AllWork(fate, old(tick), MigrationSteps()) && (same ==> old(host).db.schema == SCHEMA_AFTER)
              && fate(old(tick) + MigrationSteps()).Works? ==>
                appliedAt == Some(old(tick) + MigrationSteps() + 1)
      ensures WasLate(fate, appliedAt) ==> !ok && tick == appliedAt.value + 1
      ensures old(Calm()) && (same ==> old(host).db.schema == SCHEMA_AFTER) ==> ok
    {
      if Calm() { CalmWorks(MigrationSteps()); }
      hide Valid, AllWork, Smooth;
      ok := MigrateAndCheck();
      if ok { ok := Install(); }
    }

    /** ... and replace the unit files. */
    method InstallRelease() returns (ok: bool)
      requires Valid() && phase == Checkpoint && Stopped(host) && appliedAt.None?
      modifies this`tick, this`host, this`run, this`installerApplied, this`appliedAt
      ensures Valid() && old(tick) <= tick
      ensures ok ==> host.units == targetUnits && host.installed && installerApplied && host.db.schema == SCHEMA_AFTER
      ensures host.client == old(host).client && host.marker == old(host).marker
      ensures old(Calm()) && (same ==> old(host).db.schema == SCHEMA_AFTER) ==> ok
      ensures AllWork(fate, old(tick), MigrationSteps() + 1) && (same ==> old(host).db.schema == SCHEMA_AFTER) ==>
                appliedAt == Some(old(tick) + MigrationSteps() + 1)
      ensures WasLate(fate, appliedAt) ==> !ok && tick == appliedAt.value + 1
    {
      assert AllWork(fate, tick + MigrationSteps(), 1) <==> fate(tick + MigrationSteps()).Works? by {
        FewWork(fate, tick + MigrationSteps());
      }
      WorkInTwoParts(fate, tick, MigrationSteps(), 1);
      hide Valid, AllWork, Smooth, MigrationSteps;
      ok := MigrateAndInstall();
      if ok { ok := ReplaceUnits(); }
    }

    method InstallTarget() returns (ok: bool)
      requires Valid() && phase == Checkpoint && Stopped(host) && appliedAt.None?
      modifies this`tick, this`host, this`run, this`phase, this`installerApplied, this`appliedAt
      ensures Valid() && old(tick) <= tick
      ensures if ok then phase == StartingTarget && host.units == targetUnits && host.installed
              else phase == Checkpoint
      ensures host.client == old(host).client && host.marker == old(host).marker
      ensures old(Calm()) && (same ==> old(host).db.schema == SCHEMA_AFTER) ==> ok
      ensures AllWork(fate, old(tick), MigrationSteps() + 1) && (same ==> old(host).db.schema == SCHEMA_AFTER) ==>
                appliedAt == Some(old(tick) + MigrationSteps() + 1)
      ensures WasLate(fate, appliedAt) ==> !ok && tick == appliedAt.value + 1
    {
      hide Valid, AllWork;
      ok := InstallRelease();
      if ok { EnterPhase(StartingTarget); }
    }

    /** The target broker is up before the fence goes down. */
    method StartBroker() returns (ok: bool)
      requires Valid() && phase == StartingTarget
      modifies this`tick, this`host, this`run
      ensures Valid() && old(tick) <= tick && SameTarget(old(host), host) && host.source == old(host).source
      ensures ok <==> AllWork(fate, old(tick), 3)
      ensures ok ==> tick == old(tick) + 3
    {
      FewWork(fate, tick);
      ok := Start(true, false, false);
      if ok { ok := Probe(); }                           // active with a main process
      if ok { ok := Probe(); }                           // socket ready
    }

    method StartAndUnfence() returns (ok: bool)
      requires Valid() && phase == StartingTarget && RaisedOnly()
      modifies this`tick, this`host, this`run, this`markerActive, this`fence
      ensures Valid() && old(tick) <= tick
      ensures SameTarget(old(host).(marker := host.marker), host) && host.source == old(host).source
      ensures ok <==> AllWork(fate, old(tick), 4)
      ensures ok ==> !markerActive && !host.marker
      ensures fence == old(fence).(cleared := if AllWork(fate, old(tick), 3) then Some(old(tick) + 3) else None)
      ensures fence.cleared.Some? ==> tick == old(tick) + 4
      ensures WasLate(fate, fence.cleared) ==> !ok
    {
      FewWork(fate, tick);
      ok := StartBroker();
      if ok { ok := ClearFence(); }
    }

    method StartTheRest() returns (ok: bool)
      requires Valid() && phase == StartingServices
      modifies this`tick, this`host, this`run
      ensures Valid() && old(tick) <= tick && SameTarget(old(host), host) && host.source == old(host).source
      ensures old(Calm()) && old(host).db.schema == SCHEMA_AFTER ==> ok
    {
      ok := Start(false, true, false);
      if ok { ok := Start(false, false, true); }
      if ok { ok := Probe(); }                           // verify services
      if ok { ok := SchemaEvidence(SCHEMA_AFTER); }
      if ok { ok := Probe(); }                           // public routes
    }

    /** Behind the lowered fence: start and verify the rest. */
    method Serve() returns (ok: bool)
      requires Valid() && phase == StartingTarget && !markerActive && !host.marker
      modifies this`tick, this`host, this`run, this`phase
      ensures Valid() && old(tick) <= tick
      ensures phase == if ok then Complete else StartingServices
      ensures SameTarget(old(host), host) && host.source == old(host).source
      ensures old(Calm()) && old(host).db.schema == SCHEMA_AFTER ==> ok
      ensures ok ==> host.source == Main && host.db.schema == SCHEMA_AFTER
    {
      hide Valid, Smooth;
      EnterPhase(StartingServices);
      ok := StartTheRest();
      if ok { EnterPhase(Complete); }
      assert host.source == Main && host.db.schema == SCHEMA_AFTER by { SafeNow(); }
    }

    /** Start the target broker, lower the fence, start and verify the rest. */
    method LaunchTarget() returns (ok: bool)
      requires Valid() && phase == StartingTarget && RaisedOnly()
      modifies this`tick, this`host, this`run, this`phase, this`markerActive, this`fence
      ensures Valid() && old(tick) <= tick
      ensures fence == old(fence).(cleared := if AllWork(fate, old(tick), 3) then Some(old(tick) + 3) else None)
      ensures !AllWork(fate, old(tick), 4) ==> !ok && phase == StartingTarget
      ensures AllWork(fate, old(tick), 4) ==> phase == if ok then Complete else StartingServices
      ensures WasLate(fate, fence.cleared) ==> tick == old(tick) + 4
      ensures host.units == old(host).units && host.installed == old(host).installed
      ensures ok ==> !host.marker && !markerActive && host.source == Main && host.db.schema == SCHEMA_AFTER
      ensures old(Calm()) ==> ok
    {
      assert host.db.schema == SCHEMA_AFTER by { SafeNow(); }
      if Calm() { CalmWorks(4); }
      hide Valid, AllWork, Smooth;
      ok := StartAndUnfence();
      if ok { ok := Serve(); }
    }

    // ---- rollback() ----

    /** The compensations of this rollback. */
    ghost function Script(): seq<Compensation>
      reads this`databaseCaptured, this`clientCaptured, this`installerApplied, this`unitsCaptured
    {
      StoresScript(databaseCaptured, clientCaptured) + ReleaseScript(installerApplied, unitsCaptured)
    }

    method StopWriters() returns (failed: seq<Compensation>)
      requires Valid() && phase == RollingBack
      modifies this`tick, this`host, this`run
      ensures Valid() && tick == old(tick) + 4
      ensures Wandered(old(host), host)
      ensures failed == Failed(fate, old(tick), STOP_SCRIPT)
      ensures failed == [] ==> Stopped(host)
    {
      StopFailures(tick);
      var ok := Probe();
      failed := Missed(ok, StopCompatibilityWriters);
      ok := WaitDown(Console);
      failed := failed + Missed(ok, WaitConsoleStopped);
      ok := WaitDown(Api);
      failed := failed + Missed(ok, WaitApiStopped);
      ok := WaitDown(Broker);
      failed := failed + Missed(ok, WaitBrokerStopped);
    }

    lemma StopFailures(at: nat)
      ensures Failed(fate, at, STOP_SCRIPT) ==
                Missed(fate(at).Works?, StopCompatibilityWriters) + Missed(fate(at + 1).Works?, WaitConsoleStopped)
                + Missed(fate(at + 2).Works?, WaitApiStopped) + Missed(fate(at + 3).Works?, WaitBrokerStopped)
    {
      assert FailedOf(fate, at, STOP_SCRIPT, 1) == Missed(fate(at).Works?, STOP_SCRIPT[0]);
      assert FailedOf(fate, at, STOP_SCRIPT, 2) == FailedOf(fate, at, STOP_SCRIPT, 1) + Missed(fate(at + 1).Works?, STOP_SCRIPT[1]);
      assert FailedOf(fate, at, STOP_SCRIPT, 3) == FailedOf(fate, at, STOP_SCRIPT, 2) + Missed(fate(at + 2).Works?, STOP_SCRIPT[2]);
    }

    lemma RestartFailures(at: nat)
      ensures Failed(fate, at, RESTART_SCRIPT) ==
                Missed(fate(at).Works?, StartCompatibleBroker) + Missed(fate(at + 1).Works?, WaitCompatibleBrokerReady)
                + Missed(fate(at + 2).Works?, RestartCompatibleAPI) + Missed(fate(at + 3).Works?, NormalizeCompatibleConsoleState)
                + Missed(fate(at + 4).Works?, RestartCompatibleConsole)
    {
      assert FailedOf(fate, at, RESTART_SCRIPT, 1) == Missed(fate(at).Works?, RESTART_SCRIPT[0]);
      assert FailedOf(fate, at, RESTART_SCRIPT, 2) == FailedOf(fate, at, RESTART_SCRIPT, 1) + Missed(fate(at + 1).Works?, RESTART_SCRIPT[1]);
      assert FailedOf(fate, at, RESTART_SCRIPT, 3) == FailedOf(fate, at, RESTART_SCRIPT, 2) + Missed(fate(at + 2).Works?, RESTART_SCRIPT[2]);
      assert FailedOf(fate, at, RESTART_SCRIPT, 4) == FailedOf(fate, at, RESTART_SCRIPT, 3) + Missed(fate(at + 3).Works?, RESTART_SCRIPT[3]);
    }

    /** The failures of one compensation that may not be called for. */
    lemma GivenFailures(at: nat, present: bool, c: Compensation)
      ensures Failed(fate, at, Given(present, c)) == if present then Missed(fate(at).Works?, c) else []
    {
      if present {
        assert FailedOf(fate, at, [c], 0) == [];
      }
    }

    method PutDatabaseBack() returns (failed: seq<Compensation>)
      requires Valid() && phase == RollingBack
      modifies this`tick, this`host, this`run
      ensures Valid() && tick == old(tick) + |Given(databaseCaptured, RestoreDatabase)|
      ensures failed == Failed(fate, old(tick), Given(databaseCaptured, RestoreDatabase))
      ensures Wandered(old(host).(db := host.db), host)
      ensures failed == [] && Stopped(old(host)) ==> host.db == if databaseCaptured then vault.db else old(host).db
    {
      GivenFailures(tick, databaseCaptured, RestoreDatabase);
      failed := [];
      if databaseCaptured {
        var ok := RestoreStore(false);
        failed := Missed(ok, RestoreDatabase);
      }
    }

    method PutClientBack() returns (failed: seq<Compensation>)
      requires Valid() && phase == RollingBack
      modifies this`tick, this`host, this`run
      ensures Valid() && tick == old(tick) + |Given(clientCaptured, RestoreClientDatabase)|
      ensures failed == Failed(fate, old(tick), Given(clientCaptured, RestoreClientDatabase))
      ensures Wandered(old(host).(client := host.client), host)
      ensures failed == [] && Stopped(old(host)) ==> host.client == if clientCaptured then vault.client else old(host).client
    {
      GivenFailures(tick, clientCaptured, RestoreClientDatabase);
      failed := [];
      if clientCaptured {
        var ok := RestoreStore(true);
        failed := Missed(ok, RestoreClientDatabase);
      }
    }

    method PutStoresBack() returns (failed: seq<Compensation>)
      requires Valid() && phase == RollingBack
      modifies this`tick, this`host, this`run
      ensures var script := Given(databaseCaptured, RestoreDatabase) + Given(clientCaptured, RestoreClientDatabase);
              Valid() && tick == old(tick) + |script| && failed == Failed(fate, old(tick), script)
      ensures Wandered(old(host).(db := host.db, client := host.client), host)
      ensures failed == [] && Stopped(old(host)) ==>
                && host.db == (if databaseCaptured then vault.db else old(host).db)
                && host.client == (if clientCaptured then vault.client else old(host).client)
    {
      FailuresJoined(fate, tick, Given(databaseCaptured, RestoreDatabase), Given(clientCaptured, RestoreClientDatabase));
      var first := PutDatabaseBack();
      var second := PutClientBack();
      failed := first + second;
    }

    method PutInstallationBack() returns (failed: seq<Compensation>)
      requires Valid() && phase == RollingBack
      modifies this`tick, this`host, this`run
      ensures Valid() && tick == old(tick) + |Given(installerApplied, RollbackServerWideInstaller)|
      ensures failed == Failed(fate, old(tick), Given(installerApplied, RollbackServerWideInstaller))
      ensures Wandered(old(host).(installed := host.installed), host)
      ensures failed == [] && installerApplied ==> !host.installed
    {
      GivenFailures(tick, installerApplied, RollbackServerWideInstaller);
      failed := [];
      if installerApplied {
        var ok := RollBackInstaller();
        failed := Missed(ok, RollbackServerWideInstaller);
      }
    }

    method PutUnitsBack() returns (failed: seq<Compensation>)
      requires Valid() && phase == RollingBack
      modifies this`tick, this`host, this`run
      ensures Valid() && tick == old(tick) + |Given(unitsCaptured, RestoreConsoleUnits)|
      ensures failed == Failed(fate, old(tick), Given(unitsCaptured, RestoreConsoleUnits))
      ensures Wandered(old(host).(units := host.units), host)
      ensures failed == [] && unitsCaptured ==> host.units == vault.units
    {
      GivenFailures(tick, unitsCaptured, RestoreConsoleUnits);
      failed := [];
      if unitsCaptured {
        var ok := RestoreUnits();
        failed := Missed(ok, RestoreConsoleUnits);
      }
    }

    method PutSourceBack() returns (failed: seq<Compensation>)
      requires Valid() && phase == RollingBack
      modifies this`tick, this`host, this`run
      ensures Valid() && tick == old(tick) + |Given(true, CheckoutCompatibilitySource)|
      ensures failed == Failed(fate, old(tick), Given(true, CheckoutCompatibilitySource))
      ensures Wandered(old(host).(source := host.source), host)
      ensures failed == [] ==> host.source == RollbackRef
    {
      GivenFailures(tick, true, CheckoutCompatibilitySource);
      var ok := CheckoutSource(RollbackRef);
      failed := Missed(ok, CheckoutCompatibilitySource);
    }

    /** Put the unit files and the sources back. */
    method PutSourcesBack() returns (failed: seq<Compensation>)
      requires Valid() && phase == RollingBack
      modifies this`tick, this`host, this`run
      ensures Valid() && tick == old(tick) + |SourcesScript(unitsCaptured)|
      ensures failed == Failed(fate, old(tick), SourcesScript(unitsCaptured))
      ensures Wandered(old(host).(units := host.units, source := host.source), host)
      ensures failed == [] ==> host.source == RollbackRef && (unitsCaptured ==> host.units == vault.units)
    {
      FailuresJoined(fate, tick, Given(unitsCaptured, RestoreConsoleUnits), Given(true, CheckoutCompatibilitySource));
      var units := PutUnitsBack();
      var source := PutSourceBack();
      failed := units + source;
    }

    ghost predicate SchemasKept(w: World, w': World) {
      w'.db.schema == w.db.schema && w'.client.schema == w.client.schema
    }

    method PutReleaseBack() returns (failed: seq<Compensation>)
      requires Valid() && phase == RollingBack
      modifies this`tick, this`host, this`run
      ensures var script := Given(installerApplied, RollbackServerWideInstaller) + SourcesScript(unitsCaptured);
              Valid() && tick == old(tick) + |script| && failed == Failed(fate, old(tick), script)
      ensures SchemasKept(old(host), host) && host.marker == old(host).marker
      ensures failed == [] ==> ReleaseIsBack()
    {
      FailuresJoined(fate, tick, Given(installerApplied, RollbackServerWideInstaller), SourcesScript(unitsCaptured));
      var installation := PutInstallationBack();
      var sources := PutSourcesBack();
      failed := installation + sources;
    }

    method RestartCompatible() returns (failed: seq<Compensation>)
      requires Valid() && phase == RollingBack
      modifies this`tick, this`host, this`run
      ensures Valid() && tick == old(tick) + 5
      ensures failed == Failed(fate, old(tick), RESTART_SCRIPT)
      ensures SameTarget(old(host), host) && host.source == old(host).source
    {
      RestartFailures(tick);
      var broker, ready := StartOne(true, false);
      var api, normalized := StartOne(false, true);
      var console := Start(false, false, true);
      failed := Missed(broker, StartCompatibleBroker) + Missed(ready, WaitCompatibleBrokerReady)
             + Missed(api, RestartCompatibleAPI) + Missed(normalized, NormalizeCompatibleConsoleState)
             + Missed(console, RestartCompatibleConsole);
    }

    /** Start one service, then check it or what depends on it, whatever became of the start. */
    method StartOne(broker: bool, api: bool) returns (started: bool, checked: bool)
      requires Valid() && phase == RollingBack
      modifies this`tick, this`host, this`run
      ensures Valid() && tick == old(tick) + 2
      ensures (started <==> fate(old(tick)).Works?) && (checked <==> fate(old(tick) + 1).Works?)
      ensures SameTarget(old(host), host) && host.source == old(host).source
    {
      started := Start(broker, api, false);
      checked := Probe();
    }

    /** The compatible services and both schemas, each checked whatever fails before it. */
    method VerifyReverted() returns (failed: seq<Compensation>)
      requires Valid() && phase == RollingBack
      modifies this`tick, this`host, this`run
      ensures Valid() && tick == old(tick) + 4
      ensures Wandered(old(host), host)
      ensures failed == [] <==> AllWork(fate, old(tick), 4) && old(SchemasBack())
      ensures SchemasBack() == old(SchemasBack())
    {
      FewWork(fate, tick);
      failed := [];
      var ok := Probe();
      failed := failed + Missed(ok, VerifyCompatibleServices);
      ok := Probe();
      failed := failed + Missed(ok, RenormalizeCompatibleConsoleState);
      ok := SchemaEvidence(SchemaBefore(same));
      failed := failed + Missed(ok, VerifyRollbackSchema);
      ok := ClientSchemaEvidence(SchemaBefore(same));
      failed := failed + Missed(ok, VerifyRollbackClientSchema);
    }

    /** What there is to go back to has the schema of the rollback release. */
    ghost predicate WayBack()
      reads this`databaseCaptured, this`clientCaptured, this`vault, this`host
    {
      && (if databaseCaptured then vault.db else host.db).schema == SchemaBefore(same)
      && (if clientCaptured then vault.client else host.client).schema == SchemaBefore(same)
    }

    ghost predicate SchemasBack()
      reads this`host
    {
      host.db.schema == SchemaBefore(same) && host.client.schema == SchemaBefore(same)
    }

    /** The release is back: sources, unit files and the installation that is known of. */
    ghost predicate ReleaseIsBack()
      reads this`host, this`vault, this`unitsCaptured, this`installerApplied
    {
      && host.source == RollbackRef && (unitsCaptured ==> host.units == vault.units)
      && (installerApplied ==> !host.installed)
    }

    /** Both stores hold their captured contents and no service runs. */
    ghost predicate StoresAreBack()
      reads this`host, this`vault, this`databaseCaptured, this`clientCaptured
    {
      && Stopped(host)
      && (databaseCaptured ==> host.db == vault.db) && (clientCaptured ==> host.client == vault.client)
    }

    ghost method NoteStoresBack()
      requires Valid() && phase == RollingBack && StoresAreBack()
      modifies this`restored, this`run
      ensures Valid() && restored
    {
      ghost var before := Now();
      restored := true;
      assert NoteRestored(before, Now());
      Record();
    }

    /** Stop the writers and put both stores back. */
    method BringStoresBack() returns (failed: seq<Compensation>)
      requires Valid() && phase == RollingBack
      modifies this`tick, this`host, this`run, this`restored
      ensures Valid() && host.marker == old(host).marker
      ensures tick == old(tick) + |StoresScript(databaseCaptured, clientCaptured)|
      ensures failed == Failed(fate, old(tick), StoresScript(databaseCaptured, clientCaptured))
      ensures failed == [] ==> restored && (SchemasBack() <==> old(WayBack()))
    {
      FailuresJoined(fate, tick, STOP_SCRIPT, Given(databaseCaptured, RestoreDatabase) + Given(clientCaptured, RestoreClientDatabase));
      var stopping := StopWriters();
      var stores := PutStoresBack();
      failed := stopping + stores;
      if stopping == [] && stores == [] { NoteStoresBack(); }
    }

    /** Put the release back and start it. */
    method BringReleaseBack() returns (failed: seq<Compensation>)
      requires Valid() && phase == RollingBack
      modifies this`tick, this`host, this`run
      ensures Valid() && host.marker == old(host).marker
      ensures tick == old(tick) + |ReleaseScript(installerApplied, unitsCaptured)|
      ensures failed == Failed(fate, old(tick), ReleaseScript(installerApplied, unitsCaptured))
      ensures SchemasKept(old(host), host)
      ensures failed == [] ==> ReleaseIsBack()
    {
      FailuresJoined(fate, tick, Given(installerApplied, RollbackServerWideInstaller) + SourcesScript(unitsCaptured), RESTART_SCRIPT);
      var release := PutReleaseBack();
      var starting := RestartCompatible();
      failed := release + starting;
    }

    /** Every compensation is attempted in order, whatever fails before it. */
    method Compensate()
      requires Valid() && MayRollBack()
      modifies this`tick, this`host, this`run, this`phase, this`failures, this`restored
      ensures Valid() && phase == RollingBack
      ensures tick == old(tick) + |Script()| && failures == Failed(fate, old(tick), Script())
      ensures failures == [] ==> restored && ReleaseIsBack() && (SchemasBack() <==> old(WayBack()))
    {
      EnterPhase(RollingBack);
      CompensateAll();
    }

    method CompensateAll()
      requires Valid() && phase == RollingBack
      modifies this`tick, this`host, this`run, this`failures, this`restored
      ensures Valid()
      ensures tick == old(tick) + |Script()| && failures == Failed(fate, old(tick), Script())
      ensures failures == [] ==> restored && ReleaseIsBack() && (SchemasBack() <==> old(WayBack()))
    {
      hide Valid, StoresScript, ReleaseScript, Failed;
      FailuresJoined(fate, tick, StoresScript(databaseCaptured, clientCaptured), ReleaseScript(installerApplied, unitsCaptured));
      var stores := BringStoresBack();
      var release := BringReleaseBack();
      failures := stores + release;
    }

    ghost predicate MayRollBack()
      reads this
    {
      && !phase.Preflight? && !phase.Complete? && !phase.RollingBack? && !phase.RollbackComplete? && !phase.RollbackFailed?
      && failures == [] && fence.last.None?
    }

    /** After a clean rollback: verify it, then lower the fence. */
    method VerifyAndUnfence() returns (failed: seq<Compensation>)
      requires Valid() && phase == RollingBack && host.source == RollbackRef && fence.last.None?
      modifies this`tick, this`host, this`run, this`markerActive, this`fence
      ensures Valid()
      ensures host.units == old(host).units && host.installed == old(host).installed && host.source == old(host).source
      ensures SchemasBack() == old(SchemasBack())
      ensures fence == old(fence).(last := if old(markerActive) && AllWork(fate, old(tick), 4) && old(SchemasBack())
                                           then Some(old(tick) + 4) else None)
      ensures failed == [] <==> old(SchemasBack()) && AllWork(fate, old(tick), if old(markerActive) then 5 else 4)
      ensures WasSeen(fate, fence.last) ==> failed == []
      ensures markerActive == (failed != [] && old(markerActive))
    {
      assert AllWork(fate, tick, 5) <==> AllWork(fate, tick, 4) && fate(tick + 4).Works? by { FewWork(fate, tick); }
      hide Valid, AllWork, Steady;
      failed := VerifyReverted();
      if failed == [] && markerActive { failed := Unfence(); }
    }

    /** The last clear of the fence. */
    method Unfence() returns (failed: seq<Compensation>)
      requires Valid() && phase == RollingBack && Reverted(same, host) && fence.last.None? && markerActive
      modifies this`tick, this`host, this`run, this`markerActive, this`fence
      ensures Valid() && fence == old(fence).(last := Some(old(tick)))
      ensures host.units == old(host).units && host.installed == old(host).installed && host.source == old(host).source
      ensures SchemasBack() && markerActive == (failed != [])
      ensures failed == [] <==> fate(old(tick)).Works?
    {
      hide Valid;
      var ok := ClearFence();
      failed := Missed(ok, ClearMaintenanceMarkerAfterRollback);
    }

    /** Verify a clean rollback and lower the fence; then record the verdict. */
    method Conclude() returns (outcome: Outcome)
      requires Valid() && phase == RollingBack && fence.last.None?
      requires failures == [] ==> host.source == RollbackRef && restored
      modifies this`tick, this`host, this`run, this`phase, this`failures, this`markerActive, this`fence
      ensures Valid()
      ensures outcome == if failures == [] then RolledBack else RolledBackInPart
      ensures phase == if failures == [] then RollbackComplete else RollbackFailed
      ensures failures == [] ==> Reverted(same, host)
      ensures host.units == old(host).units && host.installed == old(host).installed && host.source == old(host).source
      ensures old(failures) != [] ==> failures == old(failures) && fence == old(fence)
      ensures WasSeen(fate, fence.last) ==> failures == []
      ensures old(failures) == [] ==>
                && (failures == [] <==> old(SchemasBack()) && AllWork(fate, old(tick), if old(markerActive) then 5 else 4))
                && fence == old(fence).(last := if old(markerActive) && AllWork(fate, old(tick), 4) && old(SchemasBack())
                                                then Some(old(tick) + 4) else None)
      ensures markerActive == (failures != [] && old(markerActive))
    {
      if failures == [] { failures := VerifyAndUnfence(); }
      outcome := if failures == [] then RolledBack else RolledBackInPart;
      EnterPhase(if failures == [] then RollbackComplete else RollbackFailed);
    }

    /** The primitives of a rollback that succeeds, the last clear of the fence not counted. */
    ghost function RollbackSteps(): nat
      reads this`databaseCaptured, this`clientCaptured, this`installerApplied, this`unitsCaptured
    {
      |Script()| + 4
    }

    /** A rollback is complete exactly when there is a way back and nothing in it fails; every
        compensation is attempted, and the fence is cleared last and only after a clean verification. */
    method Rollback() returns (outcome: Outcome)
      requires Valid() && MayRollBack()
      modifies this`tick, this`host, this`run, this`phase, this`failures, this`markerActive, this`fence, this`restored
      ensures Valid()
      ensures outcome == if failures == [] then RolledBack else RolledBackInPart
      ensures outcome == RolledBack <==>
                old(WayBack()) && AllWork(fate, old(tick), RollbackSteps() + if old(markerActive) then 1 else 0)
      ensures Failed(fate, old(tick), Script()) != [] ==> failures == Failed(fate, old(tick), Script())
      ensures fence == old(fence).(last := if old(markerActive && WayBack()) && AllWork(fate, old(tick), RollbackSteps())
                                           then Some(old(tick) + RollbackSteps()) else None)
      ensures outcome == RolledBack ==> phase == RollbackComplete && restored && ReleaseIsBack() && Reverted(same, host)
      ensures outcome == RolledBackInPart ==> phase == RollbackFailed
      ensures markerActive == (outcome == RolledBackInPart && old(markerActive))
      ensures WasSeen(fate, fence.last) ==> outcome == RolledBack
    {
      hide Valid, Script, Failed, AllWork;
      NoneFailedAndMore(fate, tick, Script(), 4);
      NoneFailedAndMore(fate, tick, Script(), 5);
      Compensate();
      outcome := Conclude();
    }

    /** Everything inside the source's try block. */
    method RunSaga() returns (ok: bool)
      requires Valid() && phase == Preflight && RaisedOnly() && unitsCaptured && appliedAt.None?
      modifies this`tick, this`host, this`run, this`phase, this`databaseCaptured, this`clientCaptured, this`vault
      modifies this`installerApplied, this`markerActive, this`fence, this`appliedAt
      ensures Valid() && old(tick) <= tick && unitsCaptured && vault.units == old(vault).units
      ensures ok ==> phase == Complete && host.units == targetUnits && host.installed && TargetServes()
      ensures !ok ==> (phase.Draining? || phase.MaintenanceActive? || phase.TargetSource? || phase.Checkpoint? || phase.StartingTarget? || phase.StartingServices?)
      ensures RaisedOnly() || ClearTried()
      ensures !ok ==> (phase == StartingServices <==> WasSeen(fate, fence.cleared))
      ensures (old(Calm()) && old(host).db.schema == SchemaBefore(same) && old(host).client.schema == SchemaBefore(same))
              ==> ok
    {
      LastIsSafe(run);
      ok := Drain();
      if ok { ok := StopAndCapture(); }
      if ok { ok := ChangeOver(); }
    }

    /** The target source and schema, and no fence. */
    ghost predicate TargetServes()
      reads this`host, this`markerActive
    {
      host.source == Main && host.db.schema == SCHEMA_AFTER && !host.marker && !markerActive
    }

    /** Install the target release and start it. */
    method ChangeOver() returns (ok: bool)
      requires Valid() && phase == Checkpoint && Stopped(host) && RaisedOnly() && appliedAt.None?
      modifies this`tick, this`host, this`run, this`phase
      modifies this`installerApplied, this`markerActive, this`fence, this`appliedAt
      ensures Valid() && old(tick) <= tick
      ensures ok ==> phase == Complete && host.units == targetUnits && host.installed && TargetServes()
      ensures !ok ==> (phase.Checkpoint? || phase.StartingTarget? || phase.StartingServices?)
      ensures RaisedOnly() || ClearTried()
      ensures !ok ==> (phase == StartingServices <==> WasSeen(fate, fence.cleared))
      ensures old(Calm()) && (same ==> old(host).db.schema == SCHEMA_AFTER) ==> ok
    {
      hide Valid;
      ok := InstallTarget();
      if ok { ok := LaunchTarget(); }
    }

    /** What takes a fence down that should be up after a failed rollback: a clear that raised
        late, before the target services or at the end, or no effect of raising it again. */
    ghost predicate Lost(fence: Fence) {
      || WasLate(fate, fence.cleared) || WasLate(fate, fence.last)
      || (fence.again.Some? && !TookEffect(fate, fence.again))
    }

    /** The driver holds the fence exactly when no clear of it was seen to succeed. */
    lemma IsRaised()
      requires Valid() && (RaisedOnly() || ClearTried())
      ensures markerActive <==> !WasSeen(fate, fence.cleared)
    {
    }

    lemma AfterRollback()
      requires Valid() && WasSeen(fate, fence.raised) && (fence.again.Some? <==> WasSeen(fate, fence.cleared))
      requires fence.last.Some? ==> fence.again.None? || WasSeen(fate, fence.again)
      ensures !WasSeen(fate, fence.last) ==> (host.marker <==> !Lost(fence))
      ensures !markerActive ==> (host.marker <==> WasLate(fate, fence.again))
      ensures ReleaseIsBack() ==> (host.installed <==> WasLate(fate, appliedAt))
    {
    }

    /** Raise the fence again if the driver knows it to be down. */
    method RaiseAgain()
      requires Valid() && MayRollBack() && (RaisedOnly() || ClearTried())
      requires phase == StartingServices <==> WasSeen(fate, fence.cleared)
      modifies this`tick, this`host, this`run, this`phase, this`markerActive, this`fence
      ensures Valid() && MayRollBack()
      ensures fence == old(fence).(again := if WasSeen(fate, fence.cleared) then Some(old(tick)) else None)
      ensures WasSeen(fate, fence.raised)
      ensures markerActive <==> fence.again.None? || WasSeen(fate, fence.again)
      ensures old(markerActive) ==> tick == old(tick) && host == old(host)
    {
      IsRaised();
      hide Valid;
      if !markerActive {
        var ok := ActivateFence();
        if ok { EnterPhase(RecoveryFence); }
      }
    }

    /** The source's exception handler: raise the fence again if it is down, then roll back. */
    method Recover() returns (outcome: Outcome)
      requires Valid() && MayRollBack() && (RaisedOnly() || ClearTried())
      requires phase == StartingServices <==> WasSeen(fate, fence.cleared)
      modifies this`tick, this`host, this`run, this`phase, this`failures, this`markerActive, this`fence, this`restored
      ensures Valid()
      ensures outcome == if failures == [] then RolledBack else RolledBackInPart
      ensures outcome == RolledBack ==>
                && phase == RollbackComplete && restored && ReleaseIsBack() && Reverted(same, host)
                && (host.marker <==> WasLate(fate, fence.again)) && (host.installed <==> WasLate(fate, appliedAt))
      ensures outcome == RolledBackInPart ==> phase == RollbackFailed && (host.marker <==> !Lost(fence))
      ensures old(markerActive) ==> markerActive == (outcome == RolledBackInPart)
      ensures fence.raised == old(fence.raised) && fence.cleared == old(fence.cleared)
      ensures fence.again == if WasSeen(fate, fence.cleared) then Some(old(tick)) else None
      ensures old(markerActive) ==> (outcome == RolledBack <==> old(WayBack()) && AllWork(fate, old(tick), RollbackSteps() + 1))
    {
      hide Valid, AllWork, RollbackSteps, WayBack, ReleaseIsBack, Reverted, Lost, RaisedOnly, ClearTried;
      assert old(markerActive) <==> !WasSeen(fate, fence.cleared) by { IsRaised(); }
      RaiseAgain();
      outcome := Rollback();
      AfterRollback();
    }

    /** Proofs before the fence, the unit copies, and the fence itself. */
    method RaiseInitialFence() returns (ok: bool)
      requires Valid() && phase == Preflight && !unitsCaptured && Untouched()
      modifies this`tick, this`host, this`run, this`markerActive, this`unitsCaptured, this`vault, this`fence
      ensures Valid() && old(tick) <= tick
      ensures SameTarget(old(host).(marker := host.marker), host) && host.source == old(host).source
      ensures ok ==> RaisedOnly() && unitsCaptured && vault.units == old(host).units
      ensures !ok ==> (host.marker <==> WasLate(fate, fence.raised))
      ensures old(Calm()) ==> ok
    {
      ok := Probe();                                     // preflight proofs
      if ok { ok := CaptureUnitFiles(); }
      if ok { ok := ActivateFence(); }
    }

    /** deploy(): the whole saga, from preflight to one of its final states. */
    method Deploy() returns (outcome: Outcome)
      requires Valid() && phase == Preflight && !unitsCaptured && Untouched() && appliedAt.None? && failures == []
      modifies this
      ensures Valid()
      ensures outcome == NotStarted ==>
                && phase == Preflight && SameTarget(old(host).(marker := host.marker), host) && host.source == old(host).source
                && (host.marker <==> WasLate(fate, fence.raised))
      ensures outcome == Deployed ==>
                && phase == Complete && !host.marker && !markerActive && host.source == Main
                && host.db.schema == SCHEMA_AFTER && host.units == targetUnits && host.installed
      ensures outcome == RolledBack ==>
                && phase == RollbackComplete && failures == [] && Reverted(same, host)
                && host.units == old(host).units && restored
                && (host.marker <==> WasLate(fate, fence.again))
                && (host.installed <==> WasLate(fate, appliedAt))
      ensures outcome == RolledBackInPart ==>
                && phase == RollbackFailed && failures != [] && (host.marker <==> !Lost(fence))
      ensures (old(Calm()) && old(host).db.schema == SchemaBefore(same) && old(host).client.schema == SchemaBefore(same))
              ==> outcome == Deployed
    {
      hide Valid;
      var ok := RaiseInitialFence();
      if !ok { return NotStarted; }
      ok := RunSaga();
      if ok { return Deployed; }
      outcome := Recover();
    }

    // ---- What goes wrong, and exactly when ----

    /** A clear that raises after removing the marker: the target never starts, and the fence is
        down for good, with the driver still recording it, exactly when the rollback then fails. */
    method ClearLate() returns (outcome: Outcome)
      requires Valid() && phase == StartingTarget && RaisedOnly() && failures == []
      requires AllWork(fate, tick, 3) && fate(tick + 3).Late()
      modifies this
      ensures Valid()
      ensures outcome == RolledBack <==> old(WayBack()) && AllWork(fate, old(tick) + 4, RollbackSteps() + 1)
      ensures outcome == RolledBack ==> phase == RollbackComplete && !markerActive && !host.marker
      ensures outcome != RolledBack ==> phase == RollbackFailed && markerActive && !host.marker
    {
      assert Captured(Now()) by { SafeNow(); }
      hide Valid, AllWork, RollbackSteps;
      var ok := LaunchTarget();
      IsRaised();
      assert WayBack() <==> old(WayBack());
      hide WayBack;
      outcome := Recover();
    }

    method InstallLate()
      requires Valid() && phase == Checkpoint && Stopped(host) && appliedAt.None?
      requires same ==> host.db.schema == SCHEMA_AFTER
      requires AllWork(fate, tick, MigrationSteps() + 1) && fate(tick + MigrationSteps() + 1).Late()
      modifies this`tick, this`host, this`run, this`phase, this`installerApplied, this`appliedAt
      ensures Valid() && phase == Checkpoint && tick == old(tick) + MigrationSteps() + 2
      ensures WasLate(fate, appliedAt) && installerApplied == old(installerApplied)
      ensures WayBack() <==> old(WayBack())
    {
      assert Captured(Now()) by { SafeNow(); }
      assert !installerApplied;
      var ok := InstallTarget();
      assert !installerApplied;
    }

    /** An installation that raises after taking effect: the rollback does not know of it, and
        where it counts as complete what was installed is still there. */
    method ApplyLate() returns (outcome: Outcome)
      requires Valid() && phase == Checkpoint && Stopped(host) && RaisedOnly() && appliedAt.None? && failures == []
      requires same ==> host.db.schema == SCHEMA_AFTER
      requires AllWork(fate, tick, MigrationSteps() + 1) && fate(tick + MigrationSteps() + 1).Late()
      modifies this
      ensures Valid()
      ensures outcome == RolledBack <==>
                old(WayBack()) && AllWork(fate, old(tick) + MigrationSteps() + 2, RollbackSteps() + 1)
      ensures outcome == RolledBack ==> phase == RollbackComplete && !installerApplied && host.installed
    {
      IsRaised();
      hide Valid, AllWork, RollbackSteps, WayBack, MigrationSteps;
      InstallLate();
      outcome := Recover();
    }
  }
}
