/**
 The stopped-boundary observer of scripts/check_legacy_cutover_stopped.py.

 The host is a history: one table of processes, one control group and one set of
 open ports for every instant.  Between any two primitive reads the host may move
 on by any number of instants, so processes fork, die, leave the group and reuse
 PIDs while the observer polls.  The only law is that death is permanent: a pair
 (pid, start ticks) that left the process table never returns.
 */
module StoppedBoundary {
  import opened Options

  /** One process instance: a PID together with its start time. */
  datatype Instance = Instance(pid: nat, ticks: string)

  datatype Host = Host(
    table: map<nat, string>,      // live PID -> start ticks
    group: Option<set<nat>>,      // PIDs in cgroup.procs; None once the cgroup is removed
    groupUnreadable: bool,        // cgroup.procs cannot be read or parsed
    unreadable: set<nat>,         // PIDs whose /proc files cannot be read or parsed
    open: set<nat>)               // ports that accept a connection

  type History = nat -> Host

  predicate Live(host: Host, i: Instance) {
    i.pid in host.table && host.table[i.pid] == i.ticks
  }

  /** An instance that is live twice was live in between. */
  ghost predicate Permanent(history: History, i: Instance) {
    forall a: nat, b: nat, c: nat ::
      a <= b <= c && Live(history(a), i) && Live(history(c), i) ==> Live(history(b), i)
  }

  /** Only existing processes are members of the group. */
  ghost predicate Grouped(host: Host) {
    host.group.Some? ==> host.group.value <= host.table.Keys
  }

  ghost predicate Lawful(history: History) {
    && (forall t: nat :: Grouped(history(t)))
    && (forall i: Instance :: Permanent(history, i))
  }

  ghost predicate LivedBy(history: History, i: Instance, now: nat) {
    exists t: nat :: t <= now && Live(history(t), i)
  }

  /** Every later instant agrees: the instance is gone for good. */
  ghost predicate DeadForever(history: History, i: Instance, now: nat) {
    forall t: nat :: now <= t ==> !Live(history(t), i)
  }

  /** The instances behind the PIDs that one listing shows. */
  ghost function Listed(host: Host): set<Instance> {
    if host.group.None? then {}
    else set p | p in host.group.value && p in host.table :: Instance(p, host.table[p])
  }

  datatype Evidence = Evidence(console: Instance, coordinator: Instance)

  ghost predicate CapturedDead(history: History, evidence: Evidence, start: nat, now: nat) {
    forall i | i in {evidence.console, evidence.coordinator} && LivedBy(history, i, start) ::
      DeadForever(history, i, now)
  }

  /** Some part of the legacy boundary is up at this instant. */
  ghost predicate Up(host: Host, observed: set<Instance>, evidence: Evidence, ports: set<nat>) {
    || (host.group.Some? && host.group.value != {})
    || (exists i :: i in observed && Live(host, i))
    || Live(host, evidence.console) || Live(host, evidence.coordinator)
    || ports * host.open != {}
  }

  /** Something the observer had to read was unreadable, or one PID changed hands. */
  ghost predicate Unreadable(history: History, start: nat, end: nat) {
    || (exists t: nat :: start <= t <= end && history(t).groupUnreadable)
    || (exists t: nat, p :: start <= t <= end && p in history(t).unreadable)
    || (exists a: nat, b: nat, p :: start <= a <= b <= end && p in history(a).table && p in history(b).table
                                    && history(a).table[p] != history(b).table[p])
  }

  /** The port refused a connection at some instant of the interval. */
  ghost predicate SeenClosed(history: History, port: nat, after: nat, end: nat) {
    exists t: nat :: after < t <= end && port !in history(t).open
  }

  ghost predicate AllSeenClosed(history: History, ports: set<nat>, after: nat, end: nat) {
    forall port | port in ports :: SeenClosed(history, port, after, end)
  }

  lemma DeathIsPermanent(history: History, i: Instance, seen: nat, gone: nat)
    requires Lawful(history)
    requires LivedBy(history, i, seen) && seen <= gone && !Live(history(gone), i)
    ensures DeadForever(history, i, gone)
  {
    var a: nat :| a <= seen && Live(history(a), i);
    assert Permanent(history, i);
    forall c: nat | gone <= c ensures !Live(history(c), i) {
      assert Live(history(c), i) ==> Live(history(gone), i) by { assert a <= gone <= c; }
    }
  }

  /** A listed instance is either the one an identity read returns, or dead for good. */
  lemma ListedOrReused(history: History, i: Instance, listedAt: nat, readAt: nat, ticks: string)
    requires Lawful(history) && listedAt <= readAt
    requires Live(history(listedAt), i)
    requires Live(history(readAt), Instance(i.pid, ticks))
    ensures i.ticks == ticks || DeadForever(history, i, readAt)
  {
    if i.ticks != ticks {
      assert LivedBy(history, i, listedAt);
      DeathIsPermanent(history, i, listedAt, readAt);
    }
  }

  /** Everything listed so far is still being tracked, or is dead already. */
  ghost predicate Tracked(history: History, observed: set<Instance>, listed: set<Instance>, now: nat) {
    && (forall i :: i in observed || i in listed ==> LivedBy(history, i, now))
    && (forall i :: i in listed ==> i in observed || DeadForever(history, i, now))
  }

  ghost predicate AllDead(history: History, instances: set<Instance>, now: nat) {
    forall i :: i in instances ==> DeadForever(history, i, now)
  }

  lemma Later(history: History, observed: set<Instance>, listed: set<Instance>, dead: set<Instance>, now: nat, later: nat)
    requires now <= later
    ensures Tracked(history, observed, listed, now) ==> Tracked(history, observed, listed, later)
    ensures AllDead(history, dead, now) ==> AllDead(history, dead, later)
  {
  }

  datatype Listing = NoGroup | GroupFault | Members(pids: set<nat>)
  datatype Identity = Gone | Fault | Ticks(ticks: string)
  datatype Verdict = Stopped | Retry | Fatal

  /** A reading of the monotonic clock, or a duration argument, in clock ticks. */
  datatype Reading = Finite(v: int) | NotFinite

  const TICKS_PER_SECOND: int := 1_000_000_000
  const MAX_WAIT: int := 60 * TICKS_PER_SECOND
  const MAX_POLL: int := TICKS_PER_SECOND

  predicate ValidArguments(timeout: Reading, poll: Reading) {
    && timeout.Finite? && 0 <= timeout.v <= MAX_WAIT
    && poll.Finite? && 0 < poll.v <= MAX_POLL
  }

  datatype Timing = Timing(attempts: nat, elapsed: int, processes: set<Instance>)

  datatype Outcome =
    | Clean(timing: Option<Timing>)
    | BadArguments
    | Unverifiable
    | ClockFault
    | NotConverged
    | TooLate

  ghost predicate ClockMisbehaved(clock: nat -> Reading, start: nat, end: nat) {
    || (exists t: nat :: start <= t <= end && clock(t).NotFinite?)
    || (exists a: nat, b: nat :: start <= a < b <= end && clock(a).Finite? && clock(b).Finite?
                                 && clock(b).v <= clock(a).v)
  }

  class Observer {
    const history: History
    const clock: nat -> Reading
    var now: nat
    var observed: set<Instance>      // identities read for cgroup members, over all attempts
    ghost var listed: set<Instance>  // instances any listing of this run has shown

    constructor (history: History, clock: nat -> Reading)
      ensures this.history == history && this.clock == clock && now == 0
      ensures observed == {} && listed == {}
    {
      this.history, this.clock := history, clock;
      now, observed, listed := 0, {}, {};
    }

    ghost predicate Tracking()
      reads this
    {
      Lawful(history) && Tracked(history, observed, listed, now)
    }

    /** The host moves on before the next primitive takes effect. */
    method Pass()
      modifies this`now
      ensures old(now) < now
    {
      var k: nat :| true;
      now := now + 1 + k;
    }

    method ListGroup() returns (r: Listing)
      requires Tracking()
      modifies this`now, this`listed
      ensures old(now) < now
      ensures r == if history(now).groupUnreadable then GroupFault
                   else if history(now).group.None? then NoGroup
                   else Members(history(now).group.value)
      ensures listed == if r.Members? then old(listed) + Listed(history(now)) else old(listed)
      ensures Tracked(history, observed, old(listed), now)
    {
      Pass();
      Later(history, observed, listed, {}, old(now), now);
      var host := history(now);
      if host.groupUnreadable { return GroupFault; }
      if host.group.None? { return NoGroup; }
      r := Members(host.group.value);
      listed := listed + Listed(host);
    }

    method ReadStat(pid: nat) returns (r: Identity)
      modifies this`now
      ensures old(now) < now
      ensures r == if pid in history(now).unreadable then Fault
                   else if pid in history(now).table then Ticks(history(now).table[pid])
                   else Gone
    {
      Pass();
      var host := history(now);
      if pid in host.unreadable { return Fault; }
      r := if pid in host.table then Ticks(host.table[pid]) else Gone;
    }

    /** stat, cmdline, stat: the identity returned is the one instance alive throughout. */
    method ReadIdentity(pid: nat) returns (r: Identity, ghost since: nat)
      requires Lawful(history)
      modifies this`now
      ensures old(now) < since <= now
      ensures r.Ticks? ==> forall t: nat :: since <= t <= now ==> Live(history(t), Instance(pid, r.ticks))
      ensures r.Gone? ==> pid !in history(now).table
      ensures r.Fault? ==> Unreadable(history, since, now)
    {
      var before := ReadStat(pid);
      since := now;
      if !before.Ticks? { return before, since; }
      var command := ReadStat(pid);
      if !command.Ticks? { return command, since; }
      var after := ReadStat(pid);
      if after.Ticks? && after != before {
        assert pid in history(since).table && pid in history(now).table;
        return Fault, since;
      }
      r := after;
      if r.Ticks? {
        assert Permanent(history, Instance(pid, r.ticks));
        forall t: nat | since <= t <= now ensures Live(history(t), Instance(pid, r.ticks)) {
          assert Live(history(since), Instance(pid, r.ticks)) && Live(history(now), Instance(pid, r.ticks));
        }
      }
    }

    /** Reads one identity; tells whether that very instance is gone for good. */
    method StillAlive(i: Instance) returns (alive: bool, fault: bool)
      requires Lawful(history)
      modifies this`now
      ensures old(now) < now
      ensures fault ==> Unreadable(history, old(now), now)
      ensures !fault && alive ==> Live(history(now), i)
      ensures !fault && !alive && LivedBy(history, i, old(now)) ==> DeadForever(history, i, now)
    {
      var r, since := ReadIdentity(i.pid);
      fault := r.Fault?;
      alive := r.Ticks? && r.ticks == i.ticks;
      if !fault && !alive && LivedBy(history, i, old(now)) {
        assert !Live(history(now), i) by {
          if r.Ticks? { assert Live(history(now), Instance(i.pid, r.ticks)); }
        }
        DeathIsPermanent(history, i, old(now), now);
      }
    }

    /** Reads the identity of one listed member: afterwards that instance is tracked or dead. */
    method CaptureMember(pid: nat, ghost start: nat) returns (fault: bool)
      requires Lawful(history) && start <= now && pid in history(start).table
      modifies this`now, this`observed
      ensures old(now) < now && old(observed) <= observed
      ensures fault ==> Unreadable(history, old(now), now)
      ensures !fault ==>
                var i := Instance(pid, history(start).table[pid]);
                i in observed || DeadForever(history, i, now)
      ensures forall i :: i in observed && i !in old(observed) ==> LivedBy(history, i, now)
    {
      ghost var i := Instance(pid, history(start).table[pid]);
      assert Live(history(start), i);
      var r, since := ReadIdentity(pid);
      if r.Fault? { return true; }
      fault := false;
      if r.Gone? {
        assert LivedBy(history, i, start);
        DeathIsPermanent(history, i, start, now);
      } else {
        ListedOrReused(history, i, start, now, r.ticks);
        observed := observed + {Instance(pid, r.ticks)};
      }
    }

    /** Captures the identity of every listed member that is still there. */
    method CaptureMembers(pids: set<nat>) returns (fault: bool)
      requires history(now).group == Some(pids) && Listed(history(now)) <= listed
      requires Lawful(history)
      requires forall i :: i in observed ==> LivedBy(history, i, now)
      requires forall i :: i in listed ==> LivedBy(history, i, now)
      requires forall i :: i in listed ==> i in observed || DeadForever(history, i, now) || i in Listed(history(now))
      modifies this`now, this`observed
      ensures old(now) <= now && old(observed) <= observed
      ensures fault ==> Unreadable(history, old(now), now)
      ensures !fault ==> Tracking()
    {
      var rest := pids;
      ghost var start := now;
      assert Grouped(history(start));
      while rest != {}
        invariant start <= now && rest <= pids && old(observed) <= observed
        invariant forall i :: i in observed ==> LivedBy(history, i, now)
        invariant forall i :: i in listed ==>
            i in observed || DeadForever(history, i, now) || (i in Listed(history(start)) && i.pid in rest)
        decreases rest
      {
        LeastExists(rest);
        var pid :| pid in rest && forall q :: q in rest ==> pid <= q;
        rest := rest - {pid};
        ghost var before := now;
        var bad := CaptureMember(pid, start);
        if bad { return true; }
        StillLived(history, old(observed), before, now);
      }
      fault := false;
      StillLived(history, listed, start, now);
    }

    /** Looks for observed identities that are alive outside the group. */
    method FindEscaped() returns (escaped: bool, fault: bool, ghost at: nat)
      requires Tracking()
      modifies this`now
      ensures old(now) <= now
      ensures fault ==> Unreadable(history, old(now), now)
      ensures !fault ==> Tracking()
      ensures !fault && escaped ==> old(now) < at <= now && exists i :: i in observed && Live(history(at), i)
      ensures !fault && !escaped ==> AllDead(history, observed, now)
    {
      var rest := observed;
      escaped, fault, at := false, false, now;
      while rest != {}
        invariant old(now) <= now && rest <= observed
        invariant Tracking()
        invariant !escaped ==> AllDead(history, observed - rest, now)
        invariant escaped ==> old(now) < at <= now && exists i :: i in observed && Live(history(at), i)
        modifies this`now
        decreases rest
      {
        var i :| i in rest;
        ghost var before, seen := now, observed - rest;
        rest := rest - {i};
        assert LivedBy(history, i, now);
        var alive, bad := StillAlive(i);
        if bad { return false, true, now; }
        Later(history, observed, listed, seen, before, now);
        assert observed - rest == seen + {i};
        if alive { escaped, at := true, now; }
      }
    }

    /** Probes every port: one is open at the instant returned, or each was closed when it was probed. */
    method ProbePorts(ports: set<nat>) returns (open: bool, ghost at: nat)
      modifies this`now
      ensures old(now) <= now
      ensures open ==> old(now) < at <= now && ports * history(at).open != {}
      ensures !open ==> AllSeenClosed(history, ports, old(now), now)
    {
      var left := ports;
      open, at := false, now;
      while left != {}
        invariant old(now) <= now && left <= ports
        invariant !open ==> AllSeenClosed(history, ports - left, old(now), now)
        invariant open ==> old(now) < at <= now && ports * history(at).open != {}
        modifies this`now
        decreases left
      {
        var port :| port in left;
        left := left - {port};
        ghost var before := now;
        Pass();
        ClosedLater(history, ports - left - {port}, old(now), before, now);
        if port in history(now).open {
          assert port in ports * history(now).open;
          open, at := true, now;
        }
      }
    }

    /** Looks for the two captured processes; when neither is alive, both are dead for good if they lived. */
    method FindCaptured(evidence: Evidence) returns (alive: bool, fault: bool)
      requires Lawful(history)
      modifies this`now
      ensures old(now) < now
      ensures fault ==> Unreadable(history, old(now), now)
      ensures !fault && alive ==> Live(history(now), evidence.console) || Live(history(now), evidence.coordinator)
      ensures !fault && !alive ==> CapturedDead(history, evidence, old(now), now)
    {
      alive, fault := StillAlive(evidence.console);
      if fault || alive { return; }
      LivedLater(history, evidence.coordinator, old(now), now);
      alive, fault := StillAlive(evidence.coordinator);
    }

    /** One pass over group, observed identities, captured identities and ports. */
    method CheckOnce(evidence: Evidence, ports: set<nat>) returns (verdict: Verdict, ghost at: nat)
      requires Tracking()
      modifies this`now, this`observed, this`listed
      ensures old(now) < now && old(observed) <= observed && old(listed) <= listed
      ensures !verdict.Fatal? ==> Tracking()
      ensures verdict.Stopped? ==> observed == old(observed) && listed == old(listed)
      ensures verdict.Stopped? ==> AllDead(history, listed + observed, now)
      ensures verdict.Stopped? ==> CapturedDead(history, evidence, old(now), now)
      ensures verdict.Stopped? ==> AllSeenClosed(history, ports, old(now), now)
      ensures verdict.Retry? ==> old(now) < at <= now && Up(history(at), observed, evidence, ports)
      ensures verdict.Fatal? ==> Unreadable(history, old(now), now)
    {
      var listing := ListGroup();
      at := now;
      if listing.GroupFault? { return Fatal, at; }
      if listing.Members? && listing.pids != {} {
        var fault := CaptureMembers(listing.pids);
        WiderUnreadable(history, at, now, old(now));
        return if fault then Fatal else Retry, at;
      }
      assert listed == old(listed);
      ghost var before := now;
      var escaped, fault, seen := FindEscaped();
      WiderUnreadable(history, before, now, old(now));
      if fault { return Fatal, now; }
      if escaped { return Retry, seen; }
      before := now;
      var alive;
      alive, fault := FindCaptured(evidence);
      WiderUnreadable(history, before, now, old(now));
      if fault { return Fatal, now; }
      if alive { return Retry, now; }
      CapturedEarlier(history, evidence, old(now), before, now);
      before := now;
      var open, probed := ProbePorts(ports);
      ClosedEarlier(history, ports, old(now), before, now);
      verdict, at := if open then Retry else Stopped, probed;
    }

    /** The polling loop: exact outcomes, and what each of them proves. */
    method CheckStopped(evidence: Evidence, ports: set<nat>, timeout: Reading, poll: Reading)
      returns (outcome: Outcome)
      requires Lawful(history)
      modifies this
      ensures old(now) <= now
      ensures outcome.BadArguments? <==> !ValidArguments(timeout, poll)
      // Soundness: nothing that was ever listed, read or captured is alive, now or later.
      ensures outcome.Clean? ==> AllDead(history, listed + observed, now)
      ensures outcome.Clean? ==> CapturedDead(history, evidence, old(now), now)
      // Each port of the report refused a connection during the run.
      ensures outcome.Clean? ==> AllSeenClosed(history, ports, old(now), now)
      ensures outcome.Clean? ==> (outcome.timing.None? <==> timeout.v == 0)
      ensures outcome.Clean? && outcome.timing.Some? ==>
                && outcome.timing.value.attempts >= 1
                && 0 <= outcome.timing.value.elapsed < timeout.v
                && outcome.timing.value.processes == observed
      // Every refusal has a cause in the host or in the clock.
      ensures outcome.NotConverged? ==>
                exists t: nat :: old(now) < t <= now && Up(history(t), observed, evidence, ports)
      ensures outcome.Unverifiable? ==> Unreadable(history, old(now), now)
      ensures outcome.ClockFault? ==> ClockMisbehaved(clock, old(now), now)
      ensures outcome.TooLate? ==>
                exists t: nat :: old(now) < t < now && clock(t).Finite? && clock(now).Finite?
                                 && timeout.v <= clock(now).v - clock(t).v
    {
      observed := {};
      listed := {};
      if !ValidArguments(timeout, poll) { return BadArguments; }
      if timeout.v == 0 {
        var once, at := CheckOnce(evidence, ports);
        match once {
          case Stopped => return Clean(None);
          case Retry => return NotConverged;
          case Fatal => return Unverifiable;
        }
      }
      Pass();
      ghost var startedAt := now;
      var first := clock(now);
      if first.NotFinite? { return ClockFault; }
      var started := first.v;
      var deadline := started + timeout.v;
      var last, attempts := started, 0;
      ghost var lastAt := now;
      while true
        invariant Tracking() && old(now) < startedAt <= lastAt <= now
        invariant clock(startedAt) == Finite(started) && clock(lastAt) == Finite(last)
        invariant started <= last < deadline
        decreases deadline - last
      {
        attempts := attempts + 1;
        ghost var attemptAt := now;
        var verdict, at := CheckOnce(evidence, ports);
        if verdict.Fatal? {
          WiderUnreadable(history, attemptAt, now, old(now));
          return Unverifiable;
        }
        Pass();
        var reading := clock(now);
        if reading.NotFinite? { return ClockFault; }
        if reading.v < last { return ClockFault; }
        if verdict.Stopped? {
          CapturedEarlier(history, evidence, old(now), attemptAt, now);
          ClosedEarlier(history, ports, old(now), attemptAt, now);
          if deadline <= reading.v { return TooLate; }
          return Clean(Some(Timing(attempts, reading.v - started, observed)));
        }
        if deadline <= reading.v { return NotConverged; }
        last, lastAt := reading.v, now;
        Pass();
        reading := clock(now);
        if reading.NotFinite? { return ClockFault; }
        if reading.v <= last { return ClockFault; }
        if deadline <= reading.v { return NotConverged; }
        last, lastAt := reading.v, now;
      }
    }
  }

  lemma LeastBelow(s: set<nat>, x: nat)
    requires x in s
    ensures exists p :: p in s && forall q :: q in s ==> p <= q
    decreases x
  {
    if y :| y in s && y < x {
      LeastBelow(s, y);
    } else {
      assert forall q :: q in s ==> x <= q;
    }
  }

  lemma LeastExists(s: set<nat>)
    requires s != {}
    ensures exists p :: p in s && forall q :: q in s ==> p <= q
  {
    var x :| x in s;
    LeastBelow(s, x);
  }

  lemma LivedLater(history: History, i: Instance, early: nat, late: nat)
    requires early <= late
    ensures LivedBy(history, i, early) ==> LivedBy(history, i, late)
  {
  }

  lemma StillLived(history: History, instances: set<Instance>, early: nat, late: nat)
    requires early <= late
    requires forall i :: i in instances ==> LivedBy(history, i, early)
    ensures forall i :: i in instances ==> LivedBy(history, i, late)
  {
  }

  lemma ClosedLater(history: History, ports: set<nat>, after: nat, early: nat, late: nat)
    requires early <= late
    ensures AllSeenClosed(history, ports, after, early) ==> AllSeenClosed(history, ports, after, late)
  {
  }

  lemma ClosedEarlier(history: History, ports: set<nat>, early: nat, late: nat, end: nat)
    requires early <= late
    ensures AllSeenClosed(history, ports, late, end) ==> AllSeenClosed(history, ports, early, end)
  {
  }

  lemma WiderUnreadable(history: History, start: nat, end: nat, earlier: nat)
    requires earlier <= start
    ensures Unreadable(history, start, end) ==> Unreadable(history, earlier, end)
  {
  }

  lemma CapturedEarlier(history: History, evidence: Evidence, early: nat, late: nat, now: nat)
    requires early <= late
    ensures CapturedDead(history, evidence, late, now) ==> CapturedDead(history, evidence, early, now)
  {
  }
}
