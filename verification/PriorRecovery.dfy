/**
 Recovering an earlier, failed deployment before a new one starts:
 Driver.recover_prior_failed_deployment of scripts/deploy_server_wide_maintenance.py.

 The maintenance marker belongs to one deployment.  Every primitive may raise before or
 after its effect, and running services may exit at any time.
 */
module PriorRecovery {
  import opened Faults
  import opened Options

  /** The marker's owner, the services, and whether the API has loaded the target source. */
  datatype Host = Host(marker: Option<nat>, broker: bool, api: bool, console: bool, renewed: bool)

  /** Which services exit on their own before a primitive. */
  datatype Exits = Exits(broker: bool, api: bool, console: bool)

  datatype Outcome = Skipped | Recovered | Refused

  class Driver {
    const fate: nat -> Fate
    const exits: nat -> Exits            // the services that exit just before this primitive
    var tick: nat
    var host: Host
    ghost var boundary: bool             // the API loaded the target source while no Console ran

    constructor (fate: nat -> Fate, exits: nat -> Exits, host: Host)
      ensures this.fate == fate && this.exits == exits && this.host == host && !boundary && tick == 0
    {
      this.fate, this.exits, this.host := fate, exits, host;
      tick, boundary := 0, false;
    }

    ghost predicate AllWork(from: nat, n: nat) {
      forall k :: from <= k < from + n ==> fate(k).Works?
    }

    ghost predicate BrokerStays(from: nat, n: nat) {
      forall k :: from <= k < from + n ==> !exits(k).broker
    }

    ghost predicate ApiStays(from: nat, n: nat) {
      forall k :: from <= k < from + n ==> !exits(k).api
    }

    /** Nothing raises and no service exits at a moment that matters: the API is restarted on
        the way, and the Console is stopped until it is restarted for the proof. */
    ghost predicate Undisturbed(from: nat) {
      && AllWork(from, 9) && BrokerStays(from, 9)
      && ApiStays(from, 2) && ApiStays(from + 5, 4)
      && !exits(from + 8).console
    }

    method Next() returns (f: Fate)
      modifies this`tick, this`host
      ensures tick == old(tick) + 1 && f == fate(old(tick))
      ensures host == Left(old(host), exits(old(tick)))
    {
      host := Left(host, exits(tick));
      f := fate(tick);
      tick := tick + 1;
    }

    function Left(h: Host, gone: Exits): Host {
      h.(broker := h.broker && !gone.broker, api := h.api && !gone.api, console := h.console && !gone.console)
    }

    /** The broker and the API are active; the Console is stopped and seen inactive. */
    method StopConsole() returns (ok: bool)
      modifies this`tick, this`host
      ensures old(tick) < tick && host.marker == old(host).marker && host.renewed == old(host).renewed
      ensures ok ==> tick == old(tick) + 3 && !host.console
      ensures ok ==> (host.broker <==> BrokerStays(old(tick), 3))
      ensures ok <==> AllWork(old(tick), 3) && old(host).broker && !exits(old(tick)).broker
                      && old(host).api && !exits(old(tick)).api
    {
      var f := Next();
      ok := f.Works? && host.broker && host.api;
      if !ok { return; }
      f := Next();
      if !f.Fails? { host := host.(console := false); }
      ok := f.Works?;
      if !ok { return; }
      f := Next();
      ok := f.Works?;
    }

    /** The API loads the target source and is active; its private state is normalized. */
    method RestartApi() returns (ok: bool)
      requires !host.console
      modifies this`tick, this`host, this`boundary
      ensures old(tick) < tick && host.marker == old(host).marker
      ensures ok ==> host.renewed && boundary && host.api && tick == old(tick) + 2
      ensures ok ==> (host.broker <==> old(host).broker && BrokerStays(old(tick), 2))
      ensures ok <==> AllWork(old(tick), 2) && !exits(old(tick) + 1).api
    {
      boundary := false;
      var f := Next();
      if !f.Fails? {
        host := host.(api := true, renewed := true);
        boundary := !host.console;
      }
      ok := f.Works?;
      if !ok { return; }
      f := Next();
      ok := f.Works? && host.api;
    }

    /** Stop the Console, then let the API load the target source behind it. */
    method EstablishBoundary() returns (ok: bool)
      modifies this`tick, this`host, this`boundary
      ensures old(tick) < tick && host.marker == old(host).marker
      ensures ok ==> host.renewed && boundary && tick == old(tick) + 5
      ensures ok ==> host.api && (host.broker <==> BrokerStays(old(tick), 5))
      ensures ok <==> AllWork(old(tick), 5) && old(host).broker && !exits(old(tick)).broker
                      && old(host).api && !exits(old(tick)).api && !exits(old(tick) + 4).api
    {
      boundary := false;
      ok := StopConsole();
      if ok { ok := RestartApi(); }
    }

    /** Restart the Console, then verify all three services. */
    method ProveServices() returns (ok: bool)
      modifies this`tick, this`host
      ensures old(tick) < tick && host.marker == old(host).marker && host.renewed == old(host).renewed
      ensures ok ==> host.broker && host.api && host.console
      ensures ok <==> AllWork(old(tick), 2) && old(host).broker && BrokerStays(old(tick), 2)
                      && old(host).api && ApiStays(old(tick), 2) && !exits(old(tick) + 1).console
    {
      var f := Next();
      if !f.Fails? { host := host.(console := true); }
      ok := f.Works?;
      if !ok { return; }
      f := Next();
      ok := f.Works? && host.broker && host.api && host.console;
    }

    /** Clear the old fence for the proof; raise it again if the proof fails.  The numbers of the
        primitive that clears the fence, and of the one that raises it again, are returned. */
    method ProveUnfenced(id: nat) returns (ok: bool, ghost clearedAt: nat, ghost againAt: Option<nat>)
      requires host.marker == Some(id)
      modifies this`tick, this`host
      ensures clearedAt == old(tick) < tick && host.renewed == old(host).renewed
      ensures ok ==> host.marker == None && host.broker && host.api && host.console && againAt.None?
      // It is raised again exactly when the clear was seen to succeed ...
      ensures !ok ==> (againAt.Some? <==> fate(clearedAt).Works?)
      ensures againAt.Some? ==> clearedAt < againAt.value < tick
      // ... and is down exactly when the clear raised late or raising it again had no effect.
      ensures !ok ==> (host.marker == None <==>
                         fate(clearedAt).FailsAfterwards? || (againAt.Some? && fate(againAt.value).Fails?))
      ensures !ok && host.marker.Some? ==> host.marker == Some(id)
      ensures ok <==> AllWork(old(tick), 3) && old(host).broker && BrokerStays(old(tick), 3)
                      && old(host).api && ApiStays(old(tick), 3) && !exits(old(tick) + 2).console
    {
      clearedAt, againAt := tick, None;
      var f := Next();
      if f.Fails? { return false, clearedAt, None; }
      host := host.(marker := None);
      if !f.Works? { return false, clearedAt, None; }      // outside the handler: nothing raises it again
      ok := ProveServices();
      if !ok {
        againAt := Some(tick);
        f := Next();
        if !f.Fails? { host := host.(marker := Some(id)); }
      }
    }

    /** recover_prior_failed_deployment: `asked` names the deployment to recover, if any. */
    method Recover(asked: Option<nat>)
      returns (outcome: Outcome, ghost clearedAt: Option<nat>, ghost againAt: Option<nat>)
      modifies this
      ensures outcome == Skipped <==> asked.None?
      // A fence of anybody else, or no fence, is never touched.
      ensures asked.None? || old(host).marker != asked ==> host.marker == old(host).marker && clearedAt.None?
      // Recovered exactly when the old fence is found and nothing goes wrong.
      ensures outcome == Recovered <==>
                asked.Some? && old(host).marker == asked && old(host).broker && old(host).api && Undisturbed(old(tick))
      ensures outcome == Recovered ==> host.marker == None && boundary && host.renewed
                                       && host.broker && host.api && host.console
      // After a refusal the old fence is down exactly when the clear raised late or raising it again had no effect.
      ensures clearedAt.Some? ==> old(tick) < clearedAt.value < tick
      ensures againAt.Some? ==> clearedAt.Some? && fate(clearedAt.value).Works? && clearedAt.value < againAt.value < tick
      ensures outcome == Refused && old(host).marker == asked ==>
                (host.marker != asked <==> clearedAt.Some? && (fate(clearedAt.value).FailsAfterwards?
                                                               || (againAt.Some? && fate(againAt.value).Fails?)))
      ensures outcome == Refused && clearedAt.Some? && fate(clearedAt.value).Works? ==> againAt.Some?
    {
      clearedAt, againAt := None, None;
      if asked.None? { return Skipped, None, None; }
      var f := Next();                                     // load_maintenance_state
      if !f.Works? || host.marker != asked { return Refused, None, None; }
      var ok := EstablishBoundary();
      if !ok { return Refused, None, None; }
      ghost var at;
      ok, at, againAt := ProveUnfenced(asked.value);
      outcome, clearedAt := if ok then Recovered else Refused, Some(at);
    }
  }
}
