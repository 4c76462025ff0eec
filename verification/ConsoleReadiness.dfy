/**
 The Console registration gate of scripts/check_console_registration_ready.py: the
 snapshot classifier and the bracketed polling loop around it.

 An inventory is a JSON document; rows are looked at through the current view of
 scripts/verify_post_cutover_registration.py.  Evidence that never mentions a lease is
 left to the functions of `World`.
 */
module ConsoleReadiness {
  import opened Options

  datatype Json =
    | Null
    | Bool(b: bool)
    | Int(n: int)
    | Str(s: string)
    | Fraction(id: int)
    | List(items: seq<Json>)
    | Obj(fields: map<string, Json>)

  function Get(row: Json, key: string): Json {
    if row.Obj? && key in row.fields then row.fields[key] else Null
  }

  /** A list of objects under a key; anything else is refused. */
  function Rows(j: Json, key: string): Option<seq<Json>> {
    if Get(j, key).List? && (forall i :: 0 <= i < |Get(j, key).items| ==> Get(j, key).items[i].Obj?)
    then Some(Get(j, key).items) else None
  }

  // ---- The registration being waited for ----

  datatype Context = Context(
    project: string, name: string, port: int, mainPid: int,
    uid: int, account: string, ticks: string, cwd: string, observedAt: int)

  /** Decisions this model does not spell out: the full registration graph, the normalized
      evidence around a stopped server, listener fingerprints, and timestamps. */
  datatype World = World(
    graph: (Json, Context) -> bool,
    evidence: (Json, Json, Json, Context) -> bool,
    fingerprint: Context -> string,
    epoch: string -> Option<int>,
    decimal: int -> string)

  const FRESHNESS: int := 120
  const FUTURE_SKEW: int := 1
  const MAX_TTL: int := 7 * 24 * 60 * 60

  function Key(c: Context): string { c.project + "::" + c.name }

  predicate Inside(j: Json, project: string) {
    (j.Str? && j.s == project) || Prefixed(j, Stem(project))
  }

  /** The project path without trailing slashes, and then one. */
  function Stem(project: string): string {
    if project != "" && project[|project| - 1] == '/' then Stem(project[..|project| - 1]) else project + "/"
  }

  predicate Matches(row: Json, expected: map<string, Json>) {
    forall k :: k in expected ==> Get(row, k) == expected[k]
  }

  predicate Has(row: Json, key: string) { row.Obj? && key in row.fields }

  predicate Text(j: Json) { j.Str? && j.s != "" }

  /** A string with something else than blanks in it. */
  predicate NonBlank(j: Json) {
    j.Str? && exists i :: 0 <= i < |j.s| && j.s[i] !in " \t\r\n"
  }

  predicate IsDigits(s: string) {
    s != "" && forall i :: 0 <= i < |s| ==> s[i] in "0123456789"
  }

  /** A string that starts with `prefix`; the rest is looked at separately. */
  predicate Prefixed(j: Json, prefix: string) {
    j.Str? && |prefix| <= |j.s| && j.s[..|prefix|] == prefix
  }

  /** current_registration_inventory_view: top-level rows of an old inventory, the
      compatibility rows of a normalized one. */
  function View(inventory: Json): Option<Json> {
    if !inventory.Obj? then None
    else if "schema_version" !in inventory.fields then Some(inventory)
    else if Get(inventory, "schema_version") != Int(2) && Get(inventory, "schema_version") != Int(3) then None
    else
      var v1 := Get(inventory, "v1_compatibility");
      if Rows(v1, "port_assignments").None? || Rows(v1, "servers").None? || Rows(v1, "leases").None? then None
      else Some(Obj(inventory.fields["port_assignments" := Get(v1, "port_assignments")]
                                    ["servers" := Get(v1, "servers")]["leases" := Get(v1, "leases")]))
  }

  /** The row filters of the classifier. */
  datatype Filter =
    | ActiveOnPort | ActiveTarget | Target | CurrentOnPort | RelevantAssignment
    | RefersTo(lease: Json) | WithId(lease: Json)
    | RelevantCompatible(server: Json) | ActiveCompatible(server: Json) | ActiveNormalized(server: Json)
    | OfServer(server: Json) | LeaseOfServer(server: Json, lease: Json)

  predicate IsTarget(row: Json, c: Context) {
    Get(row, "project") == Str(c.project) && Get(row, "name") == Str(c.name)
  }

  predicate IsRelevant(lease: Json, server: Json, c: Context) {
    Get(lease, "port") == Int(c.port) || Get(lease, "server_id") == Get(server, "id") || Get(lease, "assignment_key") == Str(Key(c))
  }

  predicate Passes(f: Filter, row: Json, c: Context) {
    match f
    case ActiveOnPort => Get(row, "port") == Int(c.port) && Get(row, "status") == Str("active")
    case ActiveTarget =>
      Get(row, "status") == Str("active") && Get(row, "project") == Str(c.project) && Get(row, "purpose") == Str("server:" + c.name)
    case Target => IsTarget(row, c)
    case CurrentOnPort => Get(row, "port") == Int(c.port) && Get(row, "status") != Str("stopped")
    case RelevantAssignment => Get(row, "port") == Int(c.port) || IsTarget(row, c)
    case RefersTo(lease) => lease != Null && (Get(row, "id") == lease || Get(row, "lease_id") == lease)
    case WithId(lease) => Get(row, "id") == lease
    case RelevantCompatible(server) => IsRelevant(row, server, c)
    case ActiveCompatible(server) => IsRelevant(row, server, c) && Get(row, "status") == Str("active")
    case ActiveNormalized(server) =>
      (Get(row, "port") == Int(c.port) || Get(row, "server_definition_id") == Get(server, "id")) && Get(row, "status") == Str("active")
    case OfServer(server) => Get(row, "server_definition_id") == Get(server, "id")
    case LeaseOfServer(server, lease) => Get(row, "server_definition_id") == Get(server, "id") && Get(row, "lease_id") == lease
  }

  /** The rows that pass a filter, as far as the classifier looks at them: none, one, or more. */
  datatype Found = Nothing | One(at: nat) | Several

  function Search(rows: seq<Json>, f: Filter, c: Context): (r: Found)
    ensures r.One? ==> r.at < |rows|
  {
    if rows == [] then Nothing
    else
      var n := |rows| - 1;
      var earlier := Search(rows[..n], f, c);
      if !Passes(f, rows[n], c) then earlier else if earlier.Nothing? then One(n) else Several
  }

  lemma {:induction false} SearchMeans(rows: seq<Json>, f: Filter, c: Context)
    ensures var r := Search(rows, f, c);
            match r
            case Nothing => forall i :: 0 <= i < |rows| ==> !Passes(f, rows[i], c)
            case One(k) => Passes(f, rows[k], c) && forall i :: 0 <= i < |rows| && i != k ==> !Passes(f, rows[i], c)
            case Several => exists i, j :: 0 <= i < j < |rows| && Passes(f, rows[i], c) && Passes(f, rows[j], c)
  {
    if rows != [] {
      var n := |rows| - 1;
      var fewer := rows[..n];
      SearchMeans(fewer, f, c);
      assert forall i :: 0 <= i < n ==> fewer[i] == rows[i];
    }
  }

  datatype Kind = CleanAbsence | CurrentMainPidProof | EnrolledReservation | EnrolledUnobserved | StoppedBaseline

  /** A retryable report names at most one lease. */
  datatype Verdict = Ready | Rejected | Pending(kind: Kind, lease: Option<Json>)

  // ---- The branches ----

  /** A running row on the port: pending only as the fresh, unverified listener of MainPID. */
  predicate CurrentProof(assignments: seq<Json>, server: Json, lease: Json, c: Context) {
    && Matches(server, map["key" := Str(Key(c)), "project" := Str(c.project), "name" := Str(c.name), "host" := Str("127.0.0.1"),
                           "port" := Int(c.port), "pid" := Int(c.mainPid), "status" := Str("running")])
    && Inside(Get(server, "cwd"), c.project) && !Has(server, "registration_identity")
    && Unverified(Get(server, "health"), c)
    && Search(assignments, RelevantAssignment, c).One?
    && Matches(assignments[Search(assignments, RelevantAssignment, c).at],
               map["key" := Str(Key(c)), "project" := Str(c.project), "name" := Str(c.name), "port" := Int(c.port),
                   "status" := Str("active"), "server_status" := Str("running")])
    && NonBlank(Get(server, "id")) && NonBlank(Get(lease, "id"))
    && Matches(lease, map["project" := Str(c.project), "port" := Int(c.port), "status" := Str("active"),
                          "purpose" := Str("server:" + c.name), "server_id" := Get(server, "id"),
                          "owner_pid" := Int(c.mainPid), "assignment_key" := Str(Key(c))])
    && Get(server, "lease_id") == Get(lease, "id")
  }

  predicate Unverified(health: Json, c: Context) {
    var identity := Get(health, "identity");
    && health.Obj? && identity.Obj?
    && Get(health, "ok") == Null && Get(health, "pid_alive") == Bool(true)
    && Get(health, "classification") == Str("unverified-listener")
    && Get(identity, "ok") == Null && Get(identity, "observable") == Bool(false)
    && Get(identity, "pid") == Int(c.mainPid) && Get(identity, "project") == Str(c.project)
    && Inside(Get(identity, "cwd"), c.project)
  }

  /** An enrolled server that was never observed. */
  predicate NeverObserved(server: Json, c: Context) {
    && Matches(server, map["key" := Str(Key(c)), "project" := Str(c.project), "name" := Str(c.name), "host" := Str("127.0.0.1"),
                           "port" := Null, "pid" := Null, "process_start_time" := Null, "process_fingerprint" := Null,
                           "status" := Str("unobserved"), "metadata_source" := Str("normalized-sqlite"),
                           "identity_observable" := Null, "attribution" := Null, "url" := Null,
                           "url_is_current" := Bool(false), "stopped_at" := Null, "stopped_reason" := Null])
    && NonBlank(Get(server, "id")) && Inside(Get(server, "cwd"), c.project)
    && Get(server, "argv") == List([]) && !Has(server, "registration_identity")
    && Get(server, "health").Obj?
    && Matches(Get(server, "health"), map["classification" := Str("unobserved"), "ok" := Null, "pid_alive" := Null])
    && Get(server, "port_reused") != Bool(true) && Get(server, "port_reused_by") == Null
    && (Get(server, "lease_id") == Null || NonBlank(Get(server, "lease_id")))
  }

  predicate Reservation(lease: Json, server: Json, c: Context) {
    && Matches(lease, map["id" := Get(server, "lease_id"), "status" := Str("active"), "project" := Str(c.project),
                          "port" := Int(c.port), "purpose" := Str("broker"), "assignment_key" := Str(Key(c)),
                          "server_id" := Get(server, "id"), "owner_pid" := Null, "deactivated_at" := Null])
    && Prefixed(Get(lease, "owner"), "uid:") && IsDigits(Get(lease, "owner").s[4..]) && NonBlank(Get(lease, "agent"))
    && Prefixed(Get(lease, "process_fingerprint"), "sha256:") && |Get(lease, "process_fingerprint").s| == 7 + 64
    && (forall i :: 7 <= i < 71 ==> Get(lease, "process_fingerprint").s[i] in "0123456789abcdef")
  }

  function Enrolled(leases: seq<Json>, server: Json, c: Context): Verdict {
    var onPort, own := Search(leases, ActiveOnPort, c), Search(leases, ActiveTarget, c);
    var referenced := Search(leases, RefersTo(Get(server, "lease_id")), c);
    if !NeverObserved(server, c) || referenced.Several? then Rejected
    else if referenced.One? then
      if !Reservation(leases[referenced.at], server, c) || onPort != referenced || own != Nothing then Rejected
      else Pending(EnrolledReservation, Some(Get(server, "lease_id")))
    else if onPort != Nothing || own != Nothing then Rejected
    else Pending(EnrolledUnobserved, None)
  }

  /** The listener that reuses a stopped server's port, if any, is MainPID's. */
  predicate ReuseOk(server: Json, c: Context) {
    (Get(server, "port_reused") == Bool(true) || Get(server, "port_reused_by") != Null) ==>
      && Get(server, "port_reused") == Bool(true) && Get(server, "url_is_current") == Bool(false)
      && Claimed(Get(server, "port_reused_by"), c)
  }

  predicate Claimed(user: Json, c: Context) {
    user.Obj? && Get(user, "type") == Str("process") && Get(user, "pid") == Int(c.mainPid)
    && Get(user, "project") == Str(c.project) && Inside(Get(user, "cwd"), c.project)
  }

  // ---- _require_broker_stopped_baseline: what it asks of leases ----

  function Epoch(w: World, j: Json): Option<int> {
    if j.Str? && j.s != "" then w.epoch(j.s) else None
  }

  /** The normalized lease is the broker's fresh reservation for exactly this process. */
  predicate BrokerLease(w: World, lease: Json, server: Json, c: Context) {
    var created, updated, expires := Epoch(w, Get(lease, "created_at")), Epoch(w, Get(lease, "updated_at")), Epoch(w, Get(lease, "expires_at"));
    && 0 <= c.uid && c.account != "" && IsDigits(c.ticks) && Inside(Str(c.cwd), c.project)
    && Text(Get(lease, "lease_id")) && Get(lease, "server_definition_id") == Get(server, "id")
    && Get(lease, "port") == Int(c.port) && Get(lease, "purpose") == Str("broker") && Get(lease, "status") == Str("active")
    && Get(lease, "deactivated_at") == Null
    && Get(lease, "owner") == Str("uid:" + w.decimal(c.uid)) && Get(lease, "agent") == Str(c.account)
    && Get(lease, "process_fingerprint") == Str(w.fingerprint(c))
    && created.Some? && updated.Some? && expires.Some? && created.value <= updated.value
    && updated.value <= c.observedAt + FUTURE_SKEW && c.observedAt - updated.value <= FRESHNESS
    && expires.value > c.observedAt && expires.value > updated.value && expires.value - updated.value <= MAX_TTL
  }

  predicate MirrorsLease(compatible: Json, lease: Json, server: Json, c: Context) {
    Matches(compatible,
      map["id" := Get(lease, "lease_id"), "project" := Str(c.project), "port" := Int(c.port), "owner" := Get(lease, "owner"),
          "agent" := Get(lease, "agent"), "purpose" := Str("broker"), "status" := Str("active"),
          "expires_at" := Get(lease, "expires_at"), "process_fingerprint" := Get(lease, "process_fingerprint"),
          "deactivated_at" := Null, "created_at" := Get(lease, "created_at"), "updated_at" := Get(lease, "updated_at"),
          "server_id" := Get(server, "id"), "owner_pid" := Null, "assignment_key" := Str(Key(c))])
  }

  /** None rejects; otherwise the id of the active broker lease, if there is one. */
  function BrokerBaseline(w: World, raw: Json, server: Json, assignment: Json, c: Context): Option<Option<Json>> {
    if Get(raw, "schema_version") != Int(2) || !w.evidence(raw, server, assignment, c) then None
    else
      var all, compatible := Rows(raw, "leases"), Rows(Get(raw, "v1_compatibility"), "leases");
      if all.None? || compatible.None? then None
      else
        var relevant := Search(compatible.value, RelevantCompatible(server), c);
        var active := Search(compatible.value, ActiveCompatible(server), c);
        var normalized := Search(all.value, ActiveNormalized(server), c);
        if active == Nothing && normalized == Nothing then
          if InactiveHistory(all.value, server, c) then Some(None) else None
        else if !normalized.One? || !active.One? || !relevant.One? then None
        else
          var lease := all.value[normalized.at];
          if !BrokerLease(w, lease, server, c) || !MirrorsLease(compatible.value[active.at], lease, server, c)
             || Get(server, "lease_id") != Get(lease, "lease_id") || Get(server, "port_reused") != Bool(true)
             || Get(server, "url_is_current") != Bool(false) || !Claimed(Get(server, "port_reused_by"), c)
          then None
          else Some(Some(Get(lease, "lease_id")))
  }

  /** Without an active lease the server's own lease is gone, or exactly one released row. */
  predicate InactiveHistory(all: seq<Json>, server: Json, c: Context) {
    var id := Get(server, "lease_id");
    if id == Null then Search(all, OfServer(server), c) == Nothing
    else
      var exact := Search(all, LeaseOfServer(server, id), c);
      exact.One? && Get(all[exact.at], "port") == Int(c.port) && Text(Get(all[exact.at], "deactivated_at"))
      && Released(all[exact.at])
  }

  predicate Released(lease: Json) {
    Get(lease, "status") == Str("released") || Get(lease, "status") == Str("stale_released")
  }

  predicate Relocated(server: Json, c: Context) {
    && Has(server, "pid") && Has(server, "lease_id") && Text(Get(server, "relocated_from")) && Get(server, "relocated_from") != Str(c.project)
    && Text(Get(server, "relocated_at"))
    && Get(server, "stopped_reason") == Str("Checkout ownership relocated; awaiting exact listener registration")
  }

  predicate ProvenDead(server: Json, c: Context) {
    var health := Get(server, "health");
    && health.Obj? && Get(health, "pid_alive") == Bool(false)
    && (Get(health, "classification") == Str("stopped") || Get(health, "classification") == Str("unhealthy_process")
        || Get(health, "classification") == Str("crashed_process") || Get(health, "classification") == Str("stale_coordinator_metadata"))
    && Get(server, "pid").Int? && Get(server, "pid").n > 1 && Get(server, "pid").n != c.mainPid
  }

  /** The lease that a stopped server still refers to, when its row was kept, is released. */
  predicate HistoryOk(leases: seq<Json>, server: Json, c: Context) {
    var id := Get(server, "lease_id");
    var referenced := Search(leases, WithId(id), c);
    id == Null || referenced == Nothing
    || (referenced.One? && Released(leases[referenced.at])
        && Matches(leases[referenced.at],
             map["project" := Str(c.project), "port" := Int(c.port), "purpose" := Str("server:" + c.name),
                 "assignment_key" := Str(Key(c)), "server_id" := Get(server, "id")]))
  }

  function Stopped(w: World, raw: Json, leases: seq<Json>, server: Json, assignment: Json, c: Context): Verdict {
    var claim := Search(leases, ActiveOnPort, c) != Nothing || Search(leases, ActiveTarget, c) != Nothing;
    if !Matches(server, map["key" := Str(Key(c)), "project" := Str(c.project), "name" := Str(c.name),
                            "port" := Int(c.port), "status" := Str("stopped")])
       || !NonBlank(Get(server, "id")) || !ReuseOk(server, c) then Rejected
    else if Get(server, "pid") != Null then
      if claim || !ProvenDead(server, c) || !HistoryOk(leases, server, c) then Rejected else Pending(StoppedBaseline, None)
    else if Get(server, "lease_id") == Null && Get(server, "metadata_source") == Str("port_relocate") then
      if claim || !Relocated(server, c) then Rejected else Pending(StoppedBaseline, None)
    else
      match BrokerBaseline(w, raw, server, assignment, c)
      case None => Rejected
      case Some(None) => if HistoryOk(leases, server, c) then Pending(StoppedBaseline, None) else Rejected
      case Some(Some(id)) => Pending(StoppedBaseline, Some(id))
  }

  /** classify_registration_snapshot. */
  function Classify(w: World, inventory: Json, c: Context): Verdict {
    var view := View(inventory);
    if view.None? then Rejected
    else if w.graph(view.value, c) then Ready
    else
      var a, s, l := Rows(view.value, "port_assignments"), Rows(view.value, "servers"), Rows(view.value, "leases");
      if a.None? || s.None? || l.None? then Rejected else Baseline(w, inventory, a.value, s.value, l.value, c)
  }

  function Baseline(w: World, raw: Json, assignments: seq<Json>, servers: seq<Json>, leases: seq<Json>, c: Context): Verdict {
    var current, target := Search(servers, CurrentOnPort, c), Search(servers, Target, c);
    var onPort, own := Search(leases, ActiveOnPort, c), Search(leases, ActiveTarget, c);
    var relevant := Search(assignments, RelevantAssignment, c);
    if current != Nothing then
      if !current.One? || target != current || !onPort.One? || own != onPort
         || !CurrentProof(assignments, servers[current.at], leases[onPort.at], c) then Rejected
      else Pending(CurrentMainPidProof, Some(Get(leases[onPort.at], "id")))
    else if relevant == Nothing && target.One? && Get(servers[target.at], "status") == Str("unobserved") then
      Enrolled(leases, servers[target.at], c)
    else if relevant == Nothing && target == Nothing then
      if onPort != Nothing || own != Nothing then Rejected else Pending(CleanAbsence, None)
    else if !relevant.One?
            || !Matches(assignments[relevant.at], map["key" := Str(Key(c)), "project" := Str(c.project),
                                                      "name" := Str(c.name), "port" := Int(c.port)])
            || Get(assignments[relevant.at], "server_status") != Str(if target != Nothing then "stopped" else "unregistered")
    then Rejected
    else if target == Nothing then
      if onPort != Nothing || own != Nothing then Rejected else Pending(StoppedBaseline, None)
    else if !target.One? then Rejected
    else Stopped(w, raw, leases, servers[target.at], assignments[relevant.at], c)
  }

  // ---- What a retryable verdict means ----

  /** The active leases on the port: none, or exactly the one that the report names. */
  ghost predicate ClaimsExplained(leases: seq<Json>, named: Option<Json>, c: Context) {
    if named.None? then forall i :: 0 <= i < |leases| ==> !Passes(ActiveOnPort, leases[i], c)
    else exists k :: 0 <= k < |leases| && Get(leases[k], "id") == named.value && OnlyClaim(leases, k, c)
  }

  ghost predicate OnlyClaim(leases: seq<Json>, k: nat, c: Context) {
    forall i :: 0 <= i < |leases| ==> (Passes(ActiveOnPort, leases[i], c) <==> i == k)
  }

  /** A server that holds the port without being stopped is the only target, with MainPID. */
  ghost predicate ServersExplained(servers: seq<Json>, c: Context) {
    forall i :: 0 <= i < |servers| && Passes(CurrentOnPort, servers[i], c) ==>
      && Get(servers[i], "pid") == Int(c.mainPid) && Get(servers[i], "status") == Str("running")
      && OnlyTarget(servers, i, c)
  }

  ghost predicate OnlyTarget(servers: seq<Json>, k: nat, c: Context) {
    forall i :: 0 <= i < |servers| ==> (Passes(Target, servers[i], c) <==> i == k)
  }

  /** In a normalized inventory the view's leases are the compatibility leases. */
  lemma ViewOfNormalized(inventory: Json)
    requires View(inventory).Some? && Get(inventory, "schema_version") == Int(2)
    ensures Rows(View(inventory).value, "leases") == Rows(Get(inventory, "v1_compatibility"), "leases")
  {
  }

  lemma Mirrored(compatible: Json, lease: Json, server: Json, c: Context)
    requires MirrorsLease(compatible, lease, server, c)
    ensures Get(compatible, "id") == Get(lease, "lease_id") && Get(compatible, "port") == Int(c.port)
  {
  }

  lemma Reserved(lease: Json, server: Json, c: Context)
    requires Reservation(lease, server, c)
    ensures Get(lease, "id") == Get(server, "lease_id")
  {
  }

  lemma ProvedCurrent(assignments: seq<Json>, server: Json, lease: Json, c: Context)
    requires CurrentProof(assignments, server, lease, c)
    ensures Get(server, "pid") == Int(c.mainPid) && Get(server, "status") == Str("running")
  {
  }

  lemma ActiveOnPortIsCompatible(lease: Json, server: Json, c: Context)
    ensures Passes(ActiveOnPort, lease, c) <==> Get(lease, "port") == Int(c.port) && Passes(ActiveCompatible(server), lease, c)
  {
  }

  lemma BrokerClaimExplained(w: World, raw: Json, leases: seq<Json>, server: Json, assignment: Json, c: Context)
    requires BrokerBaseline(w, raw, server, assignment, c).Some?
    requires Rows(Get(raw, "v1_compatibility"), "leases") == Some(leases)
    ensures ClaimsExplained(leases, BrokerBaseline(w, raw, server, assignment, c).value, c)
  {
    var active := Search(leases, ActiveCompatible(server), c);
    SearchMeans(leases, ActiveCompatible(server), c);
    forall i | 0 <= i < |leases|
      ensures Passes(ActiveOnPort, leases[i], c) <==> Get(leases[i], "port") == Int(c.port) && Passes(ActiveCompatible(server), leases[i], c)
    {
      ActiveOnPortIsCompatible(leases[i], server, c);
    }
    if active.One? {
      var all := Rows(raw, "leases").value;
      Mirrored(leases[active.at], all[Search(all, ActiveNormalized(server), c).at], server, c);
      assert OnlyClaim(leases, active.at, c);
    }
  }

  lemma NamedClaimExplained(leases: seq<Json>, k: nat, c: Context)
    requires Search(leases, ActiveOnPort, c) == One(k)
    ensures k < |leases| && OnlyClaim(leases, k, c) && ClaimsExplained(leases, Some(Get(leases[k], "id")), c)
  {
    SearchMeans(leases, ActiveOnPort, c);
  }

  lemma NoClaimExplained(leases: seq<Json>, c: Context)
    requires Search(leases, ActiveOnPort, c) == Nothing
    ensures ClaimsExplained(leases, None, c)
  {
    SearchMeans(leases, ActiveOnPort, c);
  }

  lemma StoppedIsExplained(w: World, raw: Json, leases: seq<Json>, server: Json, assignment: Json, c: Context)
    requires Stopped(w, raw, leases, server, assignment, c).Pending?
    requires Get(raw, "schema_version") == Int(2) ==> Rows(Get(raw, "v1_compatibility"), "leases") == Some(leases)
    ensures ClaimsExplained(leases, Stopped(w, raw, leases, server, assignment, c).lease, c)
  {
    if Search(leases, ActiveOnPort, c) == Nothing { NoClaimExplained(leases, c); }
    if BrokerBaseline(w, raw, server, assignment, c).Some? {
      BrokerClaimExplained(w, raw, leases, server, assignment, c);
    }
  }

  lemma EnrolledIsExplained(leases: seq<Json>, server: Json, c: Context)
    requires Enrolled(leases, server, c).Pending?
    ensures ClaimsExplained(leases, Enrolled(leases, server, c).lease, c)
  {
    var onPort := Search(leases, ActiveOnPort, c);
    if onPort.One? {
      NamedClaimExplained(leases, onPort.at, c);
      Reserved(leases[onPort.at], server, c);
    } else {
      NoClaimExplained(leases, c);
    }
  }

  lemma ServersAreExplained(w: World, raw: Json, assignments: seq<Json>, servers: seq<Json>, leases: seq<Json>, c: Context)
    requires Baseline(w, raw, assignments, servers, leases, c).Pending?
    ensures ServersExplained(servers, c)
    ensures Baseline(w, raw, assignments, servers, leases, c).kind.CurrentMainPidProof? <==>
            exists i :: 0 <= i < |servers| && Passes(CurrentOnPort, servers[i], c)
  {
    SearchMeans(servers, CurrentOnPort, c);
    SearchMeans(servers, Target, c);
    var current := Search(servers, CurrentOnPort, c);
    if current.One? {
      ProvedCurrent(assignments, servers[current.at], leases[Search(leases, ActiveOnPort, c).at], c);
      assert OnlyTarget(servers, current.at, c);
    }
  }

  lemma ClaimsAreExplained(w: World, raw: Json, assignments: seq<Json>, servers: seq<Json>, leases: seq<Json>, c: Context)
    requires Baseline(w, raw, assignments, servers, leases, c).Pending?
    requires Get(raw, "schema_version") == Int(2) ==> Rows(Get(raw, "v1_compatibility"), "leases") == Some(leases)
    ensures ClaimsExplained(leases, Baseline(w, raw, assignments, servers, leases, c).lease, c)
  {
    var current, target := Search(servers, CurrentOnPort, c), Search(servers, Target, c);
    var onPort, relevant := Search(leases, ActiveOnPort, c), Search(assignments, RelevantAssignment, c);
    if current != Nothing {
      NamedClaimExplained(leases, onPort.at, c);
    } else if relevant == Nothing && target.One? && Get(servers[target.at], "status") == Str("unobserved") {
      EnrolledIsExplained(leases, servers[target.at], c);
    } else if target.One? {
      StoppedIsExplained(w, raw, leases, servers[target.at], assignments[relevant.at], c);
    } else {
      NoClaimExplained(leases, c);
    }
  }

  lemma ProvedLink(assignments: seq<Json>, server: Json, lease: Json, c: Context)
    requires CurrentProof(assignments, server, lease, c)
    ensures Get(lease, "owner_pid") == Int(c.mainPid) && Get(lease, "server_id") == Get(server, "id")
    ensures Get(server, "lease_id") == Get(lease, "id") && Get(server, "port") == Int(c.port)
  {
  }

  /** While a running row is waited for, the only claim and the only server on the port name
      each other, and both name MainPID. */
  lemma CurrentClaimIsLinked(w: World, raw: Json, assignments: seq<Json>, servers: seq<Json>, leases: seq<Json>, c: Context)
    requires Baseline(w, raw, assignments, servers, leases, c).Pending?
    requires Baseline(w, raw, assignments, servers, leases, c).kind.CurrentMainPidProof?
    ensures exists j, k :: 0 <= j < |servers| && 0 <= k < |leases| && OnlyTarget(servers, j, c) && OnlyClaim(leases, k, c)
              && Get(servers[j], "pid") == Int(c.mainPid) && Get(leases[k], "owner_pid") == Int(c.mainPid)
              && Get(leases[k], "server_id") == Get(servers[j], "id") && Get(servers[j], "lease_id") == Get(leases[k], "id")
  {
    var current, onPort := Search(servers, CurrentOnPort, c), Search(leases, ActiveOnPort, c);
    SearchMeans(servers, Target, c);
    assert OnlyTarget(servers, current.at, c);
    NamedClaimExplained(leases, onPort.at, c);
    ProvedCurrent(assignments, servers[current.at], leases[onPort.at], c);
    ProvedLink(assignments, servers[current.at], leases[onPort.at], c);
  }

  /** Every retryable snapshot accounts for every claim on the port, for all inventories:
      the loop never waits beside a lease or a server that somebody else holds. */
  lemma PendingIsExplained(w: World, inventory: Json, c: Context)
    requires Classify(w, inventory, c).Pending?
    ensures View(inventory).Some?
    ensures Rows(View(inventory).value, "leases").Some? && Rows(View(inventory).value, "servers").Some?
    ensures ClaimsExplained(Rows(View(inventory).value, "leases").value, Classify(w, inventory, c).lease, c)
    ensures ServersExplained(Rows(View(inventory).value, "servers").value, c)
  {
    var view := View(inventory).value;
    var assignments, servers, leases := Rows(view, "port_assignments").value, Rows(view, "servers").value, Rows(view, "leases").value;
    if Get(inventory, "schema_version") == Int(2) { ViewOfNormalized(inventory); }
    ClaimsAreExplained(w, inventory, assignments, servers, leases, c);
    ServersAreExplained(w, inventory, assignments, servers, leases, c);
  }

  // ---- The polling loop ----

  datatype Process = Process(ticks: string, uid: int, argv: seq<string>, cwd: string, cgroups: set<string>)

  /** The host at one instant: the unit, the process table, and the account names. */
  datatype Host = Host(running: bool, mainPid: int, cgroup: string, table: map<int, Process>, accounts: map<int, string>)

  datatype Answer = Starting | Broken | Inventory(document: Json)

  datatype Outcome = ReadyAfter(attempts: nat) | Unsafe | TimedOut | CrossedDeadline | BadArguments

  /** When the two rounds of probes around a snapshot took place. */
  datatype Bracket = Bracket(
    unitBefore: nat, processBefore: nat, accountBefore: nat, snapshot: nat,
    unitAfter: nat, processAfter: nat, accountAfter: nat, checked: nat)

  const NO_BRACKET := Bracket(0, 0, 0, 0, 0, 0, 0, 0)

  /** When the first round of probes read the unit, the process and the account of the baseline. */
  datatype Reading = Reading(unit: nat, process: nat, account: nat)

  const SECOND: int := 1_000_000_000

  class Gate {
    const history: nat -> Host
    const answers: nat -> Answer
    const clock: nat -> int
    const unreadable: nat -> bool
    const world: World
    const project: string
    const name: string
    const port: int
    const pid: int
    const argv: seq<string>
    const cwd: string
    const wall: nat -> int
    var now: nat

    constructor (history: nat -> Host, answers: nat -> Answer, clock: nat -> int, wall: nat -> int, unreadable: nat -> bool,
                 world: World, project: string, name: string, port: int, pid: int, argv: seq<string>, cwd: string)
      ensures this.history == history && this.answers == answers && this.clock == clock && this.wall == wall
      ensures this.unreadable == unreadable && this.world == world && this.project == project && this.name == name
      ensures this.port == port && this.pid == pid && this.argv == argv && this.cwd == cwd && now == 0
    {
      this.history, this.answers, this.clock, this.wall, this.unreadable := history, answers, clock, wall, unreadable;
      this.world, this.project, this.name, this.port, this.pid, this.argv, this.cwd := world, project, name, port, pid, argv, cwd;
      now := 0;
    }

    predicate Live(ticks: string, t: nat) {
      pid in history(t).table && history(t).table[pid].ticks == ticks
    }

    /** A process instance that is there twice was there in between. */
    ghost predicate Lasting() {
      forall ticks: string, a: nat, b: nat, c: nat ::
        a <= b <= c && Live(ticks, a) && Live(ticks, c) ==> Live(ticks, b)
    }

    /** The monotonic clock never goes back, and a sleep moves it forward. */
    ghost predicate ClockAdvances() {
      && (forall a: nat, b: nat :: a <= b ==> clock(a) <= clock(b))
      && (forall a: nat :: Later(a))
    }

    ghost predicate Later(a: nat) {
      exists b: nat :: a < b && clock(a) < clock(b)
    }

    predicate UnitOk(t: nat, cgroup: string) {
      var h := history(t);
      !unreadable(t) && h.running && h.mainPid == pid && h.cgroup == cgroup && cgroup != "" && cgroup[0] == '/'
    }

    predicate ProcessOk(t: nat, baseline: Process, cgroup: string) {
      && !unreadable(t) && pid in history(t).table
      && var p := history(t).table[pid];
         && 0 <= p.uid == baseline.uid && p.ticks == baseline.ticks && p.argv == baseline.argv
         && p.argv == argv && p.cwd == cwd && cgroup in p.cgroups
    }

    predicate AccountOk(t: nat, uid: int, account: string) {
      !unreadable(t) && uid in history(t).accounts && history(t).accounts[uid] == account && account != ""
    }

    function ContextAt(baseline: Process, account: string, t: nat): Context {
      Context(project, name, port, pid, baseline.uid, account, baseline.ticks, baseline.cwd, wall(t))
    }

    method Pass()
      modifies this`now
      ensures old(now) < now
    {
      var k: nat :| true;
      now := now + 1 + k;
    }

    method Sleep()
      requires ClockAdvances()
      modifies this`now
      ensures old(now) < now && clock(old(now)) < clock(now)
    {
      assert Later(now);
      var b: nat :| now < b && clock(now) < clock(b);
      now := b;
    }

    /** Unit, process, account: one round of probes against the baseline. */
    method Round(baseline: Process, cgroup: string, account: string) returns (ok: bool, ghost unit: nat, ghost process: nat)
      modifies this`now
      ensures old(now) < now
      ensures ok ==> old(now) < unit < process < now && UnitOk(unit, cgroup) && ProcessOk(process, baseline, cgroup)
                     && AccountOk(now, baseline.uid, account)
      ensures !ok ==> exists t: nat :: old(now) < t <= now && !Steady(t, baseline, cgroup, account)
    {
      ok, unit, process := false, 0, 0;
      Pass();
      unit := now;
      if !UnitOk(now, cgroup) { assert !Steady(now, baseline, cgroup, account); return; }
      Pass();
      process := now;
      if !ProcessOk(now, baseline, cgroup) { assert !Steady(now, baseline, cgroup, account); return; }
      Pass();
      ok := AccountOk(now, baseline.uid, account);
      assert !ok ==> !Steady(now, baseline, cgroup, account);
    }

    predicate Steady(t: nat, baseline: Process, cgroup: string, account: string) {
      UnitOk(t, cgroup) && ProcessOk(t, baseline, cgroup) && AccountOk(t, baseline.uid, account)
    }

    /** Something that the gate must not wait through, relative to its baseline. */
    ghost predicate Disturbed(t: nat, baseline: Process, cgroup: string, account: string) {
      || !Steady(t, baseline, cgroup, account)
      || answers(t).Broken?
      || (answers(t).Inventory? && exists u: nat :: Classify(world, answers(t).document, ContextAt(baseline, account, u)).Rejected?)
    }

    /** The baseline is what the first round read, each part at its own instant. */
    ghost predicate FirstRead(r: Reading, start: nat, baseline: Process, cgroup: string, account: string) {
      && start < r.unit < r.process < r.account
      && UnitOk(r.unit, cgroup)
      && ProcessOk(r.process, baseline, cgroup) && history(r.process).table[pid] == baseline
      && AccountOk(r.account, baseline.uid, account)
    }

    /** What success was read from: a snapshot between two matching rounds, before the deadline. */
    ghost predicate Bracketed(b: Bracket, start: nat, baseline: Process, cgroup: string, account: string, deadline: int) {
      && start < b.unitBefore < b.processBefore < b.accountBefore < b.snapshot
      && b.snapshot < b.unitAfter < b.processAfter < b.accountAfter < b.checked
      && UnitOk(b.unitBefore, cgroup) && ProcessOk(b.processBefore, baseline, cgroup)
      && AccountOk(b.accountBefore, baseline.uid, account)
      && UnitOk(b.unitAfter, cgroup) && ProcessOk(b.processAfter, baseline, cgroup)
      && AccountOk(b.accountAfter, baseline.uid, account)
      && clock(b.checked) < deadline
      && answers(b.snapshot).Inventory?
      && Classify(world, answers(b.snapshot).document, ContextAt(baseline, account, b.checked)).Ready?
    }

    /** The very same process instance was there all along from the reading of the baseline to
        the last round, and so while the ready snapshot was taken. */
    lemma ReadyWhileAlive(r: Reading, b: Bracket, start: nat, baseline: Process, cgroup: string, account: string, deadline: int, t: nat)
      requires Lasting() && FirstRead(r, start, baseline, cgroup, account)
      requires Bracketed(b, r.account, baseline, cgroup, account, deadline)
      requires r.process <= t <= b.processAfter
      ensures Live(baseline.ticks, t) && Live(baseline.ticks, b.snapshot)
    {
      assert Live(baseline.ticks, r.process) && Live(baseline.ticks, b.processAfter);
    }

    /** wait_for_console_registration: the baseline is what the first round of probes read. */
    method Wait(wait: int, poll: int)
      returns (outcome: Outcome, ghost first: Reading, ghost bracket: Bracket,
               ghost baseline: Process, ghost cgroup: string, ghost account: string, ghost deadline: int)
      requires ClockAdvances()
      modifies this`now
      ensures outcome.BadArguments? <==> !(1 < pid && 0 < wait <= 120 * SECOND && 0 < poll <= SECOND)
      ensures outcome.ReadyAfter? ==> outcome.attempts >= 1 && FirstRead(first, old(now), baseline, cgroup, account)
      ensures outcome.ReadyAfter? ==> Bracketed(bracket, first.account, baseline, cgroup, account, deadline)
      ensures !outcome.BadArguments? ==> exists t: nat :: old(now) < t <= now && deadline == clock(t) + wait
      // Every refusal has a cause: a disturbance, or the deadline.
      ensures outcome.Unsafe? ==> exists t: nat :: old(now) < t <= now && Disturbed(t, baseline, cgroup, account)
      ensures outcome.TimedOut? || outcome.CrossedDeadline? ==> deadline <= clock(now)
    {
      first, bracket, baseline := Reading(0, 0, 0), NO_BRACKET, Process("", 0, [], "", {});
      cgroup, account, deadline := "", "", 0;
      outcome := BadArguments;
      if pid <= 1 || !(0 < wait <= 120 * SECOND) || !(0 < poll <= SECOND) { return; }
      outcome := Unsafe;
      Pass();
      var limit := clock(now) + wait;
      deadline := limit;
      var ok, group, process, user;
      ok, group, process, user, first := ReadBaseline();
      cgroup, baseline, account := group, process, user;
      if !ok { return; }
      outcome, bracket := Poll(process, group, user, limit);
    }

    /** The first round of probes. */
    method ReadBaseline() returns (ok: bool, group: string, process: Process, user: string, ghost r: Reading)
      modifies this`now
      ensures old(now) < now
      ensures ok ==> FirstRead(r, old(now), process, group, user) && r.account == now
      ensures !ok ==> exists t: nat :: old(now) < t <= now && Disturbed(t, process, group, user)
    {
      ok, process, user, r := false, Process("", 0, [], "", {}), "", Reading(0, 0, 0);
      Pass();
      r := r.(unit := now);
      group := history(now).cgroup;
      if !UnitOk(now, group) {
        assert Disturbed(now, process, group, user);
        return;
      }
      Pass();
      r := r.(process := now);
      if pid !in history(now).table {
        assert Disturbed(now, process, group, user);
        return;
      }
      process := history(now).table[pid];
      if !ProcessOk(now, process, group) {
        assert Disturbed(now, process, group, user);
        return;
      }
      Pass();
      r := r.(account := now);
      if process.uid !in history(now).accounts || !AccountOk(now, process.uid, history(now).accounts[process.uid]) {
        assert Disturbed(now, process, group, user);
        return;
      }
      ok, user := true, history(now).accounts[process.uid];
    }

    /** The loop; every turn that does not end it moves the clock on. */
    method Poll(first: Process, group: string, user: string, limit: int) returns (outcome: Outcome, ghost bracket: Bracket)
      requires ClockAdvances()
      modifies this`now
      ensures old(now) < now && !outcome.BadArguments?
      ensures outcome.ReadyAfter? ==> outcome.attempts >= 1 && Bracketed(bracket, old(now), first, group, user, limit)
      ensures outcome.Unsafe? ==> exists t: nat :: old(now) < t <= now && Disturbed(t, first, group, user)
      ensures outcome.TimedOut? || outcome.CrossedDeadline? ==> limit <= clock(now)
    {
      var attempts := 0;
      bracket := NO_BRACKET;
      ghost var least := clock(now);
      while true
        invariant old(now) <= now && least <= clock(now)
        decreases limit - least
      {
        Pass();
        if limit <= clock(now) { return TimedOut, bracket; }
        attempts := attempts + 1;
        ghost var reading := clock(now);
        var turn, b := Turn(first, group, user, limit);
        bracket := b;
        match turn {
          case Answered => return ReadyAfter(attempts), bracket;
          case Failed => return Unsafe, bracket;
          case TooLate => return CrossedDeadline, bracket;
          case Again =>
        }
        Pass();
        if clock(now) < limit { Sleep(); }
        assert reading < clock(now);
        least := clock(now);
      }
    }

    /** One turn: a round of probes, the snapshot, another round, and the verdict. */
    method Turn(first: Process, group: string, user: string, limit: int) returns (turn: Turned, ghost b: Bracket)
      requires ClockAdvances()
      modifies this`now
      ensures old(now) < now
      ensures turn.Answered? ==> Bracketed(b, old(now), first, group, user, limit)
      ensures turn.Failed? ==> exists t: nat :: old(now) < t <= now && Disturbed(t, first, group, user)
      ensures turn.TooLate? ==> limit <= clock(now)
    {
      b := NO_BRACKET;
      var ok, unitBefore, processBefore := Round(first, group, user);
      ghost var accountBefore := now;
      if !ok {
        ghost var t: nat :| old(now) < t <= now && !Steady(t, first, group, user);
        assert Disturbed(t, first, group, user);
        return Failed, b;
      }
      Pass();
      ghost var snapshot := now;
      var answer := answers(now);
      if answer.Broken? {
        assert Disturbed(now, first, group, user);
        return Failed, b;
      }
      var again, unitAfter, processAfter := Round(first, group, user);
      ghost var accountAfter := now;
      if !again {
        ghost var t: nat :| snapshot < t <= now && !Steady(t, first, group, user);
        assert Disturbed(t, first, group, user);
        return Failed, b;
      }
      if answer.Starting? { return Again, b; }
      Pass();
      if limit <= clock(now) { return TooLate, b; }
      b := Bracket(unitBefore, processBefore, accountBefore, snapshot, unitAfter, processAfter, accountAfter, now);
      match Classify(world, answer.document, ContextAt(first, user, now)) {
        case Ready => turn := Answered;
        case Rejected =>
          assert Disturbed(snapshot, first, group, user);
          turn := Failed;
        case Pending(_, _) => turn := Again;
      }
    }
  }

  datatype Turned = Answered | Again | Failed | TooLate
}
