# Verification models of the operational scripts

The Python scripts of this repository are operational protocols: journaled installation and
activation, a fenced deployment with a compensating rollback, crash-safe publication, one-shot
attestations, and observers that have to conclude something sound from non-atomic reads of a
host that keeps changing. This project models those protocols in Dafny and proves what they
keep in every run, with failures and crashes between any two primitive effects.

How the models are built:

- Host effects (files, directories, units, processes, sockets, clocks, locks) are a small state
  that the methods change one primitive at a time. Before every primitive an oracle decides
  whether it works, raises without effect, raises after its effect, or is the last thing the
  process does. The oracles are arbitrary functions, so a contract holds for every pattern of
  failures.
- Where others act on the same state (processes that fork and die, files that appear, other runs
  that publish), a second oracle or a history of the host says what they do. The only law about
  processes is that death is permanent: a pair (PID, start ticks) that left the process table
  never returns.
- Loops over files and journals are tied to recursive functions on plain values (`After`,
  `Rewind`, `Staged`, `Moved`, `Built`, `Strip`), and the promises of the scripts are lemmas about
  those functions.
- A protocol of several processes is a relation on states (`Activation.Next`, `Deployment.Next`,
  `Publication.Moves`, `Consumption.Runs`). The methods keep a ghost record of their durable steps,
  each proved to be a legal one, so what is proved of every legal run holds of theirs.
- SHA-256, HMAC, CRC-32, JSON text and the registration graph check of
  `scripts/verify_post_cutover_registration.py` are arbitrary functions. Injectivity is asked for
  only where a statement needs it, and then it is written in that statement.
- Times are integers of one resolution per module.

One module per protocol: `Activation`, `SystemFiles`, `SkillDirectories`, `LegacyDropin` and `Acl`
(the installer), `Deployment`, `PriorRecovery` and `DatabaseFiles` (the deployment driver),
`StoppedBoundary` and `ProcStat` (the stopped-boundary observer), `ConsoleReadiness`,
`Publication` and `Consumption` (browser runtime and attestations), `CallGraph`, `JsScan`, `Png`
and `Capacity`. `Options`, `Faults` and `Posix` hold what they share.

## What turned out different from what the scripts say or suggest

- Installing a system file over a dangling symbolic link records "did not exist", so rollback
  removes the file and the link is lost. Rollback is exact if and only if no destination was a
  dangling link (`SystemFiles.RoundTrip`).
- A rollback of system files that stopped half way, or that finished, can be repeated if and only
  if every file undone held the installed content before and every file whose undo failed half way
  still reads as installed (`SystemFiles.RepeatsExactlyWhenIntact`). `shutil.copyfile` truncates
  before it writes, so a copy cut short leaves a torn file and every later rollback is refused
  (`SystemFiles.Installer.CutShort`, `Activation.Host.Rollback`).
- A system file is renamed into place before its entry exists. If its installation raises after the
  rename, an otherwise exact rollback leaves that one file installed; a failed journal write after it
  does not, because the handler writes the journal again. If that second write fails too, nothing is
  undone (`SystemFiles.Installer.ApplyOrUndo`, `SystemFiles.Installer.StaysBehind`). A crash between
  the rename and the journal write leaves the file as well (`SystemFiles.Installer.ApplyThenRollback`).
- Two installations of one destination share one backup, so undoing the first is refused unless the
  contents agree (`SystemFiles.RepeatedDestinationIsRefused`).
- A skill directory that was made, but whose making or securing raised, is not recorded as installed,
  and the rollback that follows is refused (`SkillDirectories.RoundTrip`,
  `SkillDirectories.SkillRoots.StaysBehind`).
- Whatever others put under the name of the legacy drop-in between the last look and the unlink,
  unless it is a directory, is what gets removed (`LegacyDropin.Host.Remove`).
- `clear_maintenance` can raise after it removed the marker. The driver then believes that the fence
  is up and does not raise it again. A rollback in which nothing fails still ends complete, because a
  clear that finds no marker succeeds; if anything in it fails, the fence is down although the verdict
  is rollback-failed (`Deployment.Driver.ClearLate`). The other ways to lose the fence are a last clear
  that raises late and a re-activation without effect (`Deployment.Driver.Deploy`). The recovery of an
  earlier deployment has the same two holes (`PriorRecovery.Driver.ProveUnfenced`).
- The first activation of the fence happens before the `try` block. If it raises after publishing the
  marker, the deployment ends without a rollback and the fence stays up; a re-activation that raises
  after publishing leaves the fence up after a complete rollback (`Deployment.Driver.Deploy`).
- `installer_applied` is set after the apply command returned. If that command raises after it took
  effect (it has a timeout), rollback does not undo it, and a rollback that counts as complete leaves
  the target installation in place (`Deployment.Driver.ApplyLate`).
- A database restore takes a temporary off its list before renaming it, so a rename that fails
  leaves the verified temporary behind (`DatabaseFiles.Triple.Restore`).
- The ACL evaluator adds up the permissions of several groups. That is exact for one permission, and
  for every set of permissions if and only if one applicable group entry holds all that they hold
  together (`Acl.ExactExactlyWhenOneHoldsAll`); otherwise it grants what acl(5) denies
  (`Acl.UnionGrantsTooMuch`).
- The attestation marker is written with one `os.write`. A short write publishes a torn marker
  although consumption reports success (`Consumption.Evidence.Consume`).
- One byte more of memory shrinks a budget exactly when it completes a multiple of ten bytes above
  5 GiB and up to 20 GiB (`Capacity.WhenOneByteShrinksABudget`).
- A staged runtime succeeds only for plans in which no path lies below another one and every path is
  written in normal form; `verify_plan` asks for neither. A path such as `a/./b` is accepted, copied to
  `a/b`, and then not found under its planned text (`Publication.Root.Stage`,
  `Publication.DottedIsNotBuildable`).
- `apply_install` reads `service.pw_uid` (scripts/install_server_wide_coordinator.py:2963 and
  :2967) although the name is never bound: the result of `getpwnam` at :2901 is dropped. The
  intended binding is the account record; these ownership checks are not part of the model.
- `_systemd_unit_active` counts a failed unit as active. That `systemctl stop` makes the unit
  inactive is an assumption of the completeness clauses only.

## Model

| member | source | states |
|---|---|---|
| Activation.RunsStaySafe | scripts/install_server_wide_coordinator.py:3057-3291 | every durable state of every run of activate, restore-baseline and rollback, with a crash after any journal write or systemctl call, keeps the status/phase table, the recorded initial enablement and the rule that undone files mean a stopped unit |
| Activation.SafeIsKept | scripts/install_server_wide_coordinator.py:3057-3291 | each single durable change of the protocol keeps that invariant |
| Activation.IntentIsWrittenOnce | scripts/install_server_wide_coordinator.py:3057-3205 | operation, clients and initial enablement are written once and never change or disappear, and the attempt counter only grows |
| Activation.DeviationIsJournaled | scripts/install_server_wide_coordinator.py:3057-3237 | whenever the service differs from its baseline, a durable record of that baseline exists in a phase from which it can be restored |
| Activation.ActivatedIsReadyOrRestoring | scripts/install_server_wide_coordinator.py:3057-3205 | a journal that says activated is ready or restoring its baseline, and ready occurs under no other status |
| Activation.Host.RestoreServiceBaseline | scripts/install_server_wide_coordinator.py:3043-3054 | success means inactive and enabled as recorded; without faults it succeeds |
| Activation.Host.Activate | scripts/install_server_wide_coordinator.py:3057-3205 | what completion, replay and refusal each prove, in terms of the journal before the call; refusal at the gate changes nothing; a cooperative host is activated |
| Activation.Host.ReplayActivated | scripts/install_server_wide_coordinator.py:3109-3119 | a replay is reported only for phase ready, a unit seen active and unchanged readiness evidence |
| Activation.Host.RecordIntent | scripts/install_server_wide_coordinator.py:3145-3168 | the intent is durable before the unit is touched, and holds the enablement found |
| Activation.Host.Resume | scripts/install_server_wide_coordinator.py:3121-3143 | an interrupted attempt whose broker came up is proved again, or the baseline is restored |
| Activation.Host.Launch | scripts/install_server_wide_coordinator.py:3170-3175 | success means that readiness was read after the start |
| Activation.Host.Fail | scripts/install_server_wide_coordinator.py:3176-3197 | without faults a failed attempt ends at the baseline with status applied |
| Activation.Host.RestoreActivationBaseline | scripts/install_server_wide_coordinator.py:3208-3237 | from every crash state with status applied, activated or activation_rollback_required it reaches inactive, enabled as recorded, status applied |
| Activation.Host.Rollback | scripts/install_server_wide_coordinator.py:3240-3291 | completion means rolled back, files undone, unit inactive and, if there was an activation, enabled as before it; files change only while the unit is inactive; without faults it completes exactly when the undo of the files goes through, and a repeat once refused is refused for good |
| Activation.RepeatedUndo | scripts/install_server_wide_coordinator.py:2500-2529 | from wherever earlier undos of the system files stopped, the undo goes through exactly when it is the first, or every file undone held the installed content before and every file whose undo failed half way still reads as installed |
| Activation.UndoSystemFiles | scripts/install_server_wide_coordinator.py:3279-3280 | every outcome of undoing the system files, however often and wherever stopped, is one that the rollback model allows, and without faults it completes exactly when that condition holds |
| Activation.Host.AnyCommands | scripts/install_server_wide_coordinator.py:3057-3291 | any sequence of the three commands, each crashing anywhere, passes through safe states only |
| SystemFiles.RoundTrip | scripts/install_server_wide_coordinator.py:2412-2529 | installing distinct destinations and undoing them is never refused, and gives back every file exactly when no destination was a dangling link |
| SystemFiles.RewindIsExact | scripts/install_server_wide_coordinator.py:3279-3280 | undoing down to entry k gives exactly the files after k installations |
| SystemFiles.NothingRefused | scripts/install_server_wide_coordinator.py:2500-2520 | without interference every target and backup check on the way passes |
| SystemFiles.StepBack | scripts/install_server_wide_coordinator.py:2412-2529 | undoing one installation restores presence, content, mode and owner |
| SystemFiles.RefusedExactlyWhenChanged | scripts/install_server_wide_coordinator.py:2500-2520 | whatever others did, rollback goes through if and only if every target and every backup still has its recorded content |
| SystemFiles.ChangedTargetIsKept | scripts/install_server_wide_coordinator.py:2502-2509 | a target that others changed is never overwritten |
| SystemFiles.RepeatedExactlyWhenContentWasThere | scripts/install_server_wide_coordinator.py:2502-2509 | a rollback that ended, early or not, can start again if and only if the last file held the installed content before |
| SystemFiles.RepeatsExactlyWhenAllHeldTheSame | scripts/install_server_wide_coordinator.py:2502-2509 | a rollback that stopped at entry k can be run to k again if and only if every file from k on held the installed content before |
| SystemFiles.RepeatsExactlyWhenIntact | scripts/install_server_wide_coordinator.py:2502-2529 | after any number of rollbacks, each stopped anywhere, another one goes through exactly when every file undone held the installed content before and every half-undone file reads as installed |
| SystemFiles.CutRepeats | scripts/install_server_wide_coordinator.py:2502-2529 | a rollback that failed at entry `at` can be repeated exactly when those above held the installed content before and the file of `at` still reads as installed |
| SystemFiles.RepeatedDestinationIsRefused | scripts/install_server_wide_coordinator.py:2433-2444 | for every plan, repeated destinations included, rollback goes through exactly when each file that existed before its installation was last backed up with the content the entry recorded: of a destination installed twice, exactly when the content of both installations agrees with what the later one found |
| SystemFiles.ClearsExactlyWhenBackedUp | scripts/install_server_wide_coordinator.py:2500-2520 | for every plan, rollback after it goes through exactly when every entry that needs its backup finds it with the recorded digest |
| SystemFiles.FailedApplyIsUndone | scripts/install_server_wide_coordinator.py:2873-2888 | a journal that lags one file behind still undoes everything but that file |
| SystemFiles.Installer.Install | scripts/install_server_wide_coordinator.py:2412-2487 | the entry, the backup and the new file, or a failure that tells whether the file was replaced |
| SystemFiles.Installer.Apply | scripts/install_server_wide_coordinator.py:2873-2888 | wherever it stops, the journal is that of a prefix and the files lead it by at most one replacement |
| SystemFiles.Installer.Undo | scripts/install_server_wide_coordinator.py:2500-2529 | refuses exactly when target or backup changed, and then touches nothing |
| SystemFiles.Installer.Rollback | scripts/install_server_wide_coordinator.py:3279-3280 | last entry first; where it stopped says exactly which files are back and why |
| SystemFiles.Installer.RollbackAgain | scripts/install_server_wide_coordinator.py:3279-3280 | any number of rollbacks in a row, with any failures: each is refused exactly when it was not repeatable, and what is not repeatable stays so |
| SystemFiles.Installer.CutShort | scripts/install_server_wide_coordinator.py:2523-2523 | a copy cut short blocks the repeat although the file held the installed content before and nothing fails any more |
| SystemFiles.Installer.ApplyOrUndo | scripts/install_server_wide_coordinator.py:2873-2995 | everything is installed, or the handler's journal write fails and nothing is undone, or the rollback runs and, if it completes, gives back every path but the one whose rename took effect before its installation raised |
| SystemFiles.Installer.ApplyThenRollback | scripts/install_server_wide_coordinator.py:2873-2888 | after a death anywhere in the loop a completed rollback leaves that last file installed exactly when its entry was not in the journal or its installation raised after the rename |
| SystemFiles.Installer.StaysBehind | scripts/install_server_wide_coordinator.py:2464-2487 | an installation whose rename took effect and which then raised is still there after a rollback in which nothing fails |
| SkillDirectories.RoundTrip | scripts/install_server_wide_coordinator.py:2572-2689 | however a run ended and however often a directory was installed, rollback goes through exactly when the last directory is not made-but-unrecorded, and then restores every directory and removes every new one |
| SkillDirectories.StepBack | scripts/install_server_wide_coordinator.py:2642-2689 | undoing one entry, from any point its installation reached, gives the tree before it exactly |
| SkillDirectories.ForeignNodeIsKept | scripts/install_server_wide_coordinator.py:2661-2678 | a node whose identity no entry recorded is never changed |
| SkillDirectories.ChangedMetadataIsKept | scripts/install_server_wide_coordinator.py:2667-2675 | a secured directory whose owner or mode was changed since is left as it is |
| SkillDirectories.SkillRoots.InstallOwned | scripts/install_server_wide_coordinator.py:2572-2608 | the entry is journaled before the directory is touched; how far it got is one of the states rollback knows, for the list of the program and for the one on disk |
| SkillDirectories.SkillRoots.InstallAll | scripts/install_server_wide_coordinator.py:2611-2639 | the trees of a run, up to where it ended, form a chain of such installations, and the list on disk is that of a beginning of it with the same tree |
| SkillDirectories.SkillRoots.Rollback | scripts/install_server_wide_coordinator.py:2642-2689 | last entry first, up to the first refusal or failure, and the tree then |
| SkillDirectories.SkillRoots.InstallThenRollback | scripts/install_server_wide_coordinator.py:2572-2689 | after a death anywhere a completed rollback gives the original tree, and it is refused exactly when the last directory on disk was made and not recorded as installed |
| SkillDirectories.SkillRoots.InstallOrUndo | scripts/install_server_wide_coordinator.py:2987-2995 | the same for a run that raised, once the handler's journal write worked: then the list of the program decides |
| SkillDirectories.SkillRoots.StaysBehind | scripts/install_server_wide_coordinator.py:2592-2597 | a directory whose making took effect and raised stays, although nothing else fails |
| LegacyDropin.Host.Inspect | scripts/install_server_wide_coordinator.py:446-515 | what is found is the known file, under the same inode at the end, and unchanged unless others wrote during the last look |
| LegacyDropin.Host.Prepare | scripts/install_server_wide_coordinator.py:531-557 | an intent exists only with an intact backup of the file that was proved |
| LegacyDropin.Host.Remove | scripts/install_server_wide_coordinator.py:595-632 | one unlink at most, and only with an intact backup; it hits what others put under the name after the last look, a directory excepted, else the inode that was proved; with calm primitives others replacing the file by another in that one step do lose theirs, and others removing it or putting a directory there leave nothing to unlink |
| LegacyDropin.Host.Restore | scripts/install_server_wide_coordinator.py:635-698 | nothing is ever replaced: the only effect fills an absent name with the recorded content, mode and owner; left alone it succeeds exactly when backup and present file allow it |
| LegacyDropin.Host.RestoreTwice | scripts/install_server_wide_coordinator.py:635-698 | a restore that stopped anywhere can be repeated, and left alone it then completes |
| LegacyDropin.Host.RemoveThenRollback | scripts/install_server_wide_coordinator.py:2890-2896 | wherever the removal stopped, an undisturbed rollback brings the file back with content, mode and owner |
| Acl.Parse | scripts/install_server_wide_coordinator.py:1366-1385 | accepts exactly the well-formed listings without repeated keys and with the three base entries, and returns what they say |
| Acl.PrintedIsRead | scripts/install_server_wide_coordinator.py:1366-1385 | reading printed entries gives the entries back |
| Acl.AclPermissions | scripts/install_server_wide_coordinator.py:1432-1462 | the accumulating loop computes the owner, named-user, group-union or other class under the mask |
| Acl.OnePermissionIsExact | scripts/install_server_wide_coordinator.py:1432-1462 | for one permission the evaluator decides as the Access Check Algorithm section of acl(5) (POSIX.1e draft 17) |
| Acl.NeverTooStrict | scripts/install_server_wide_coordinator.py:1432-1462 | for any set of permissions it never denies what acl(5) grants |
| Acl.ExactExactlyWhenOneHoldsAll | scripts/install_server_wide_coordinator.py:1432-1462 | the evaluator agrees with acl(5) on every set of permissions if and only if the user is outside the group class or one applicable group entry holds, under the mask, all that the applicable ones hold together |
| Acl.UnionGrantsTooMuch | scripts/install_server_wide_coordinator.py:1446-1461 | an input on which it does not agree: two groups with one permission each are added up |
| Acl.ModeAgrees | scripts/install_server_wide_coordinator.py:1415-1429 | mode bits and ACL agree on every minimal ACL and, for the owner, on every ACL |
| Acl.PathPermission | scripts/install_server_wide_coordinator.py:1465-1512 | unknown exactly when the file or its ACL could not be observed and root is not asked about; a yes or no is the truth on every host that explains the observation, and that of acl(5) where the ACL was read |
| Acl.ModeIsTheTruth | scripts/install_server_wide_coordinator.py:1465-1512 | without a readable ACL the mode bits are asked only where they decide as the ACL would |
| Acl.WhenModeSettles | scripts/install_server_wide_coordinator.py:1501-1507 | exactly when the mode alone would settle a denial that is reported as unknown |
| Acl.DirectAccess | scripts/install_server_wide_coordinator.py:1630-1670 | the verdict over all sockets from their rows |
| Acl.RowIsKleene | scripts/install_server_wide_coordinator.py:1636-1653 | the verdict for one socket and its parents is three-valued conjunction |
| Acl.VerdictIsSound | scripts/install_server_wide_coordinator.py:1630-1670 | a yes or no over all sockets holds for every resolution of the unknowns |
| Acl.VerdictIsExact | scripts/install_server_wide_coordinator.py:1662-1670 | an unknown is unavoidable: the unknowns can still turn out either way |
| Deployment.RunsStaySafe | scripts/deploy_server_wide_maintenance.py:921-1211 | in every run the phase says what is fenced, captured, installed and migrated |
| Deployment.NothingChangesBeforeCapture | scripts/deploy_server_wide_maintenance.py:1103-1154 | no schema, unit file or installation changes before the captures that rollback restores, and afterwards only behind the fence or while restoring |
| Deployment.CopiesAreWrittenOnce | scripts/deploy_server_wide_maintenance.py:695-703 | a captured copy is never taken again, lost or altered |
| Deployment.CheckpointIsTheLiveStore | scripts/deploy_server_wide_maintenance.py:1105-1126 | what rollback restores is the stores as they were at the writer-free checkpoint, fenced and with every service stopped |
| Deployment.RestoredIsReal | scripts/deploy_server_wide_maintenance.py:932-948 | a rollback that counts as complete did see both stores back while no service ran |
| Deployment.Driver.Deploy | scripts/deploy_server_wide_maintenance.py:1020-1211 | every run ends not started, complete with the fence down and the target in place, rolled back with no failed compensation and with the sources, schemas and unit files of before, or rolled back in part; in each the fence is up exactly as the fates of the commands that raised and cleared it say, and a complete rollback leaves some of the installation exactly when applying it raised after taking effect |
| Deployment.Driver.ClearLate | scripts/deploy_server_wide_maintenance.py:1159-1211 | a clear that raises after removing the marker: the rollback is complete exactly when there is a way back and nothing in it fails, and otherwise the fence is down although the driver records it as active |
| Deployment.Driver.ApplyLate | scripts/deploy_server_wide_maintenance.py:1131-1211 | an installation that raises after taking effect: the rollback does not undo it, and where it counts as complete the installation is still there |
| Deployment.Driver.RunSaga | scripts/deploy_server_wide_maintenance.py:1083-1188 | success is the complete target; any failure leaves a phase that rollback accepts |
| Deployment.Driver.Drain | scripts/deploy_server_wide_maintenance.py:1084-1106 | behind the fence, up to the target checkout, without touching schemas, units or installation |
| Deployment.Driver.Recover | scripts/deploy_server_wide_maintenance.py:1189-1211 | a fence known to be down is raised again before the rollback; when is exactly the fence up, and the installation there, afterwards |
| Deployment.Driver.Rollback | scripts/deploy_server_wide_maintenance.py:921-1018 | every compensation is attempted in order, and the failures are exactly those that failed; complete exactly when there is a way back to the old schemas and nothing fails, and then both stores were restored while stopped and sources, units and an installation known of are back; the fence is cleared last, exactly after a clean verification |
| Deployment.Driver.Compensate | scripts/deploy_server_wide_maintenance.py:922-979 | the failures are those of the attempted compensations, whatever failed before; without any, stores and release are back, the schemas exactly when there is a way back |
| Deployment.Driver.Conclude | scripts/deploy_server_wide_maintenance.py:980-1018 | the verdict is complete exactly when nothing failed and the verification and the last clear succeed, and only then is the fence recorded as lowered |
| PriorRecovery.Driver.Recover | scripts/deploy_server_wide_maintenance.py:370-425 | only the exact old fence is ever cleared; recovered exactly when it is found, nothing raises and no service exits at a moment that matters; after a refusal it is down exactly when the clear raised late or raising it again had no effect |
| PriorRecovery.Driver.EstablishBoundary | scripts/deploy_server_wide_maintenance.py:390-396 | the API loads the target source only while no Console runs; it succeeds exactly when nothing raises, broker and API are up at the start, and the restarted API stays up |
| PriorRecovery.Driver.ProveUnfenced | scripts/deploy_server_wide_maintenance.py:397-415 | the proof succeeds exactly when nothing raises, broker and API stay up and the Console does once it is restarted; otherwise the fence is raised again exactly when its clear was seen to succeed, and is down exactly when the clear raised late or raising it again had no effect |
| DatabaseFiles.CaptureThenRestore | scripts/deploy_server_wide_maintenance.py:666-789 | capture and restore together keep presence, bytes and owner of database, -wal and -shm, and the mode up to the umask, whatever lived there meanwhile |
| DatabaseFiles.CheckpointsAreIntact | scripts/deploy_server_wide_maintenance.py:675-693 | a captured checkpoint passes the restore's size and checksum checks |
| DatabaseFiles.StagedThenMoved | scripts/deploy_server_wide_maintenance.py:712-778 | after n moves the first n names hold their replacements, the others what they held, and exactly the unmoved temporaries wait |
| DatabaseFiles.StagedEntry | scripts/deploy_server_wide_maintenance.py:716-767 | preparing replacements touches no other name |
| DatabaseFiles.MovedEntry | scripts/deploy_server_wide_maintenance.py:769-778 | what each name holds after the first n moves |
| DatabaseFiles.StagedThenDiscarded | scripts/deploy_server_wide_maintenance.py:786-789 | after a rejected checkpoint every name is as before, but for at most the one temporary being written |
| DatabaseFiles.MovedThenDiscarded | scripts/deploy_server_wide_maintenance.py:769-789 | what is left when moving stopped: nothing, or the one verified replacement that could not be moved |
| DatabaseFiles.Triple.Capture | scripts/deploy_server_wide_maintenance.py:666-693 | success is a checkpoint of exactly the live files; it needs regular files and a present database |
| DatabaseFiles.Triple.CopyBytes | scripts/deploy_server_wide_maintenance.py:746-761 | short reads and writes lose and repeat no byte |
| DatabaseFiles.Triple.Prepare | scripts/deploy_server_wide_maintenance.py:717-766 | success means a verified replacement under its temporary name |
| DatabaseFiles.Triple.PrepareAll | scripts/deploy_server_wide_maintenance.py:716-767 | all replacements are prepared and checked before any live name is touched |
| DatabaseFiles.Triple.MoveAll | scripts/deploy_server_wide_maintenance.py:769-778 | names are replaced or removed in order, up to an unsafe target or a failure |
| DatabaseFiles.Triple.Restore | scripts/deploy_server_wide_maintenance.py:705-789 | restored, rejected, obstructed or interrupted, and what each leaves in the directory; a mismatch changes no live name |
| StoppedBoundary.DeathIsPermanent | scripts/check_legacy_cutover_stopped.py:64-121 | an instance that lived and is gone stays gone, whoever gets its PID |
| StoppedBoundary.ListedOrReused | scripts/check_legacy_cutover_stopped.py:75-88 | a listed instance is the one whose identity is read, or it is dead |
| StoppedBoundary.Observer.ReadIdentity | scripts/linux_proc_identity.py:31-46 | the identity returned is one instance that was alive throughout the read |
| StoppedBoundary.Observer.StillAlive | scripts/check_legacy_cutover_stopped.py:92-121 | "not alive" means dead for good if it ever lived |
| StoppedBoundary.Observer.CaptureMembers | scripts/check_legacy_cutover_stopped.py:75-90 | afterwards every listed instance is tracked or dead |
| StoppedBoundary.Observer.FindEscaped | scripts/check_legacy_cutover_stopped.py:92-108 | finds tracked instances outside the group, or proves them all dead |
| StoppedBoundary.Observer.ProbePorts | scripts/check_legacy_cutover_stopped.py:123-127 | a port reported open was open at that moment; otherwise each port was closed at some instant of the pass |
| StoppedBoundary.Observer.FindCaptured | scripts/check_legacy_cutover_stopped.py:110-121 | neither captured process alive means that both are dead for good if they ever lived |
| StoppedBoundary.Observer.CheckOnce | scripts/check_legacy_cutover_stopped.py:55-133 | stopped means that everything listed, tracked or captured is dead and every port was seen closed during the pass; a retry or a refusal names its cause |
| StoppedBoundary.Observer.CheckStopped | scripts/check_legacy_cutover_stopped.py:136-270 | a clean result means that every instance ever listed on any attempt, and both captured ones, are dead from then on, and that every port reported closed was seen closed; every other result has a cause in the host or the clock; the loop ends |
| ProcStat.StartTicksSurvive | scripts/linux_proc_identity.py:13-28 | the start time is read back from a printed line for every command name, exactly when there are 22 fields and the last is a number |
| ProcStat.LaterClosingShifts | scripts/linux_proc_identity.py:16-27 | a closing parenthesis in any later field: the fields are counted from what follows the last one |
| ProcStat.SplitOfJoined | scripts/linux_proc_identity.py:22-22 | splitting the printed fields gives them back |
| ConsoleReadiness.PendingIsExplained | scripts/check_console_registration_ready.py:470-1001 | for all inventories a retryable verdict means that the active leases on the port are none or exactly the one the report names, and that a non-stopped server on the port is the only target with MainPID |
| ConsoleReadiness.BrokerClaimExplained | scripts/check_console_registration_ready.py:290-423 | the stopped baseline of the broker accounts for every active lease on the port |
| ConsoleReadiness.StoppedIsExplained | scripts/check_console_registration_ready.py:851-1001 | the same for every way in which a stopped server is retryable |
| ConsoleReadiness.EnrolledIsExplained | scripts/check_console_registration_ready.py:671-816 | the same for an enrolled server that was never observed |
| ConsoleReadiness.ServersAreExplained | scripts/check_console_registration_ready.py:536-668 | a running row on the port is retryable only as the single target with MainPID |
| ConsoleReadiness.CurrentClaimIsLinked | scripts/check_console_registration_ready.py:536-669 | while a running row is waited for, the only lease and the only server on the port name each other, and both name MainPID |
| ConsoleReadiness.ClaimsAreExplained | scripts/check_console_registration_ready.py:504-1001 | the lease half over all branches |
| ConsoleReadiness.ViewOfNormalized | scripts/verify_post_cutover_registration.py:34-72 | the leases of a normalized inventory's view are its compatibility leases |
| ConsoleReadiness.SearchMeans | scripts/check_console_registration_ready.py:504-533 | row filters find nothing, exactly one, or several |
| ConsoleReadiness.Gate.ReadBaseline | scripts/check_console_registration_ready.py:1313-1326 | the baseline is what the first probes of unit, process and account read, or something was not steady |
| ConsoleReadiness.Gate.Round | scripts/check_console_registration_ready.py:1337-1348 | one round of probes matches the baseline, or something was not steady |
| ConsoleReadiness.Gate.Turn | scripts/check_console_registration_ready.py:1337-1402 | an answer is read between two rounds in which unit, process and account match, and before the deadline |
| ConsoleReadiness.Gate.Poll | scripts/check_console_registration_ready.py:1330-1406 | the loop ends, and its result has one of four causes |
| ConsoleReadiness.Gate.Wait | scripts/check_console_registration_ready.py:1267-1406 | ready only for a ready snapshot between two rounds in which unit, process and account match the very baseline read first, before the deadline |
| ConsoleReadiness.Gate.ReadyWhileAlive | scripts/check_console_registration_ready.py:1313-1383 | the same process instance was there from the reading of the baseline to the last round, and while the snapshot was taken |
| Publication.FrozenIsVerified | scripts/install_browser_lcp_runtime.py:561-737 | copying every planned file and freezing the tree passes the verification of the tree, for paths in normal form |
| Publication.VerifiedExactlyWhenNormal | scripts/install_browser_lcp_runtime.py:696-737 | a copied and frozen tree passes the verification exactly when every planned path is written in normal form |
| Publication.DottedIsNotBuildable | scripts/install_browser_lcp_runtime.py:438-458 | a path with a dot passes the check of the plan and can be copied, and fails the verification |
| Publication.OneMoreFits | scripts/install_browser_lcp_runtime.py:536-591 | the next file can be created exactly when the plan stays prefix-free |
| Publication.BuiltFile | scripts/install_browser_lcp_runtime.py:561-621 | every copied file is in the tree with its content, mode and owner |
| Publication.BuiltDirectory | scripts/install_browser_lcp_runtime.py:536-558 | everything else in the tree is a directory above a planned file |
| Publication.Root.EnsureDirectory | scripts/install_browser_lcp_runtime.py:536-558 | adds exactly the missing directories, and succeeds when no file is in the way |
| Publication.Root.CopyFile | scripts/install_browser_lcp_runtime.py:561-621 | adds exactly one file with the planned content, or fails leaving a tree that can be repaired |
| Publication.Root.Pour | scripts/install_browser_lcp_runtime.py:593-605 | the chunked copy loses and repeats no byte and notices a source that ended |
| Publication.Root.CopyAll | scripts/install_browser_lcp_runtime.py:774-775 | builds exactly the planned tree, exactly when the sources match, the plan is prefix-free and no path is the root itself |
| Publication.Root.Freeze | scripts/install_browser_lcp_runtime.py:624-640 | freezes every directory; wherever it stops the tree can be repaired |
| Publication.Root.RemovePartial | scripts/install_browser_lcp_runtime.py:643-673 | removes the whole tree; wherever it stops, what is left can be removed again |
| Publication.Root.Repair | scripts/install_browser_lcp_runtime.py:676-693 | removes the partials of its digest and no others, each a legal move of the run that holds the lock |
| Publication.Root.Check | scripts/install_browser_lcp_runtime.py:696-737 | accepts exactly the planned, frozen trees |
| Publication.Root.Publish | scripts/install_browser_lcp_runtime.py:778-785 | only a verified tree gets the published name; dying before the sync may undo that |
| Publication.Root.Stage | scripts/install_browser_lcp_runtime.py:748-796 | whatever happens, everything published verifies, nothing published changes, other digests' partials are untouched and every leftover can be repaired; every step is a legal move of the run and the lock is given back; without faults it succeeds exactly for what is already published or can be copied and is planned in normal form |
| Publication.Root.EveryPlanVerifies | scripts/install_browser_lcp_runtime.py:761-767 | a published tree verifies for every plan of its digest |
| Publication.OnlyTheHolderBuilds | scripts/install_browser_lcp_runtime.py:760-796 | in any interleaving of such moves, the log of a root included, only the holder of the root lock has a partial in the making, and that partial is on disk |
| Publication.RepairSparesRunningStages | scripts/install_browser_lcp_runtime.py:760-796 | in any such interleaving a partial in the making goes away only by its own run, and repair never removes it |
| Consumption.SealRoundTrip | scripts/browser_lcp_acceptance.py:349-380 | a sealed document verifies exactly when its values did not override schema or kind |
| Consumption.VerifiedWasSealed | scripts/browser_lcp_acceptance.py:357-380 | what verifies is the seal of its own fields, and without collisions the digest determines the document |
| Consumption.IssuedIsTimely | scripts/browser_lcp_acceptance.py:1718-1767 | a fresh attestation is timely exactly from the skew before its issue to its expiry |
| Consumption.HindsightHolds | scripts/browser_lcp_acceptance.py:1660-1715 | a valid marker means that the attestation was timely when consumed |
| Consumption.ValidUntilExpiry | scripts/browser_lcp_acceptance.py:1574-1586 | a marker once valid stays valid exactly until the expiry |
| Consumption.Evidence.Publish | scripts/browser_lcp_acceptance.py:298-346 | one marker at most, and only where none was; success means it is there; the log shows this run done exactly when it succeeds |
| Consumption.Evidence.Consume | scripts/browser_lcp_acceptance.py:1919-1985 | success means that this run published the marker, valid until expiry, and whole unless its write was short; the log of all runs shows it done exactly then; undisturbed it succeeds exactly for a timely attestation that was issued by now |
| Consumption.Evidence.OneConsumer | scripts/browser_lcp_acceptance.py:1941-1985 | of all the runs in the log of a path, those of this process included, at most one consumed, and the marker there is its own |
| Consumption.AtMostOneConsumer | scripts/browser_lcp_acceptance.py:1941-1985 | in any interleaving of legal acts on one marker at most one run succeeds |
| Consumption.SuccessOwnsTheMarker | scripts/browser_lcp_acceptance.py:328-346 | whoever succeeded published the marker that is there |
| CallGraph.OwnerGated | scripts/check_cleanup_contract.py:1401-1414 | true exactly when a gated function is reachable along calls that pass the session, on cyclic graphs too |
| CallGraph.ReachableMethods | scripts/check_cleanup_contract.py:375-390 | exactly the methods reachable from the start inside the class |
| CallGraph.DependsIsReachability | scripts/check_cleanup_contract.py:338-352 | an expression depends on the parameter exactly when one of its names reaches it through assignments |
| CallGraph.OneStep | scripts/check_cleanup_contract.py:1409-1413 | searching on without coming back through the same name loses no path |
| JsScan.StripComments | scripts/check_cleanup_contract.py:1016-1049 | the loop computes the comment-free text of the grammar |
| JsScan.StripIsFaithful | scripts/check_cleanup_contract.py:1016-1049 | no comment is left outside quotes, the text never grows, and every quoted literal is copied unchanged and in order |
| JsScan.OnlyCommentsGo | scripts/check_cleanup_contract.py:1016-1049 | but for blanks and line ends outside quotes, every character outside comments stays, in order |
| JsScan.StripIsIdempotent | scripts/check_cleanup_contract.py:1016-1049 | stripping twice is stripping once |
| JsScan.UnchangedExactlyWhenCommentFree | scripts/check_cleanup_contract.py:1016-1049 | exactly the comment-free texts are left alone |
| JsScan.FindMatchingBrace | scripts/check_cleanup_contract.py:1358-1381 | the first closing brace outside quotes that brings the depth back to zero, or there is none |
| JsScan.NestedInside | scripts/check_cleanup_contract.py:1358-1381 | between the two braces the depth stays positive |
| Png.ReadPng | scripts/public_artifact_guard.py:169-205 | accepts data exactly when it is the signature and the encodings of a well-formed chunk list (sections 3.1, 3.2 and 3.4 of RFC 2083), and returns that list and the size in its last header |
| Png.OneReading | scripts/public_artifact_guard.py:169-205 | data encodes at most one chunk list |
| Png.ReadIsEncoded | scripts/public_artifact_guard.py:178-192 | encoding the chunk that was read gives the bytes back |
| Png.EncodedIsRead | scripts/public_artifact_guard.py:178-192 | reading an encoded chunk gives the chunk back, whatever follows |
| Png.TakeChunk | scripts/public_artifact_guard.py:177-202 | one turn of the loop: a refusal means that the data is no PNG at all |
| Capacity.OnlyArgumentsAreRefused | scripts/install_availability_release.py:403-441 | neither later error is reachable, and the four reservations add up to the host exactly |
| Capacity.FloorsNeverBind | scripts/install_availability_release.py:422-437 | the pressure thresholds are four fifths and nine tenths of their limits, so their written floors never take effect, and every CPU counts for 100 percent |
| Capacity.LimitsAreShares | scripts/install_availability_release.py:415-419 | each limit is its share of the host or one of its bounds |
| Capacity.MonotoneInKib | scripts/install_availability_release.py:390-441 | over whole KiB more memory never shrinks a budget |
| Capacity.WhenOneByteShrinks | scripts/install_availability_release.py:415-417 | exactly when one byte more shrinks what can be allocated |
| Capacity.WhenOneByteShrinksABudget | scripts/install_availability_release.py:415-437 | exactly when one byte more shrinks a returned budget |
| Capacity.NotMonotoneInBytes | scripts/install_availability_release.py:415-419 | so at byte granularity the project budget is not monotone |

## Left out

- Argument parsing, root checks, printing and error texts: each is settled by a single branch.
- Activation journal field `activation.status`: it is written and never read; loading and parsing the journal file is not modelled either.
- The outside world between installer commands: nobody but the model's own steps changes the enablement of the unit or, in `Activation`, the installed files; what interference with the files does is in `SystemFiles`.
- Skill-link transactions, ACL backup and restore, group membership, sysusers and tmpfiles: `rollback_install` hands them to other programs; a skill directory that still holds links counts as interference.
- Checks of the parent directory of a system file or a skill directory, and the parents that `install_payload` creates: rollback does not claim to undo them.
- Leftover temporary names of `install_payload` and of the drop-in restore after a crash: nothing refers to them.
- LegacyDropin.Host.Inspect: opening, stat and reading the drop-in are one primitive, so a write between the two inside one open file is not told apart.
- Acl.Parse: works on lines already stripped of comments and split at colons, and on numeric qualifiers as numbers.
- Sockets with several names, group lookup and live group collection in `docker_socket_admission_evidence`: the rows per socket are the input.
- Deployment.NothingChangesBeforeCapture: a running service writes its store but never changes a schema; a service that migrates its database at startup is not modelled.
- Deployment.Driver.Deploy: preflight identity of refs and services is one primitive; journal writes succeed.
- Console private state, online backup, public probes and service inventories of the deployment: each is one primitive that may fail.
- DatabaseFiles.Triple.Capture: errors while the manifest is written are errors of a file operation; a crash during a restore is not followed by a second restore in the model, but Restore is stated for any directory.
- StoppedBoundary.Observer.CheckStopped: nothing is said about a process that joined and left the group without being in any listing.
- ConsoleReadiness: normalized evidence that never mentions a lease (authority envelope, repository, definition, stopped observation, assignment, final row) is one predicate of `World`; numbers are integers, so Python's `True == 1` and `1 == 1.0` do not occur.
- ConsoleReadiness.Gate.Wait: a clock that goes back or a sleep that does not move it forward; the loop of the script would then poll on.
- Probing a process or a unit is one instant; the bracketed identity read itself is the one of StoppedBoundary.
- Publication: texts of absolute paths and of paths with `..` are refused with the plan, so a part of a text is a name, a dot or nothing.
- Publication.Root.Stage: the installer runs with effective group 0, as `root` does; with another group a crash between `mkdir` and `chown` leaves a partial that repair refuses. After a power loss only the last rename may be undone. Owner and identity checks of source files are part of one primitive, and the runtime lock that `stage` writes afterwards is not modelled.
- Consumption.Evidence.Consume: signature, samples, routes and live health of an attestation are one primitive that may refuse.
- JsScan and ProcStat: characters are single code units; white space and digits are the ASCII ones.
- Png: names of chunks other than IHDR and IEND are not interpreted.
- `stage_release` of the availability installer: a second publish-after-verify protocol whose rules are those of Publication.
- Static checklist gates, browser measurement, credentials and log tools: long tables of independent tests or thin wrappers.
