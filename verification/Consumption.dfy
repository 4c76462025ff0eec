/**
 One-shot attestations in scripts/browser_lcp_acceptance.py: digest seals, the temporal
 contract of an attestation, the consumption marker, and consume_attestation.

 Times are microseconds; documents keep them cut to milliseconds.  Between any two
 primitives other runs may publish a marker under the same path, but no one removes one.
 */
module Consumption {
  import opened Faults
  import opened Options

  // ---- Seals ----

  /** A document: field names and values, both as numbers. */
  type Document = map<nat, int>

  const SCHEMA: nat := 0
  const KIND: nat := 1
  const DIGEST: nat := 2
  const SCHEMA_VERSION: int := 1

  /** The values are laid over schema and kind, as the program writes them. */
  function Unsealed(kind: int, values: Document): Document {
    map[SCHEMA := SCHEMA_VERSION, KIND := kind] + values
  }

  /** _seal_digest. */
  function Seal(kind: int, values: Document, digest: Document -> int): Option<Document> {
    var d := Unsealed(kind, values);
    if DIGEST in d then None else Some(d[DIGEST := digest(d)])
  }

  /** _verify_digest_seal. */
  predicate SealVerifies(d: Document, kind: int, fields: set<nat>, digest: Document -> int) {
    && d.Keys == {SCHEMA, KIND, DIGEST} + fields
    && d[SCHEMA] == SCHEMA_VERSION && d[KIND] == kind
    && digest(d - {DIGEST}) == d[DIGEST]
  }

  /** A sealed document verifies exactly when its values did not override schema or kind. */
  lemma SealRoundTrip(kind: int, values: Document, digest: Document -> int)
    requires DIGEST !in values
    ensures Seal(kind, values, digest).Some?
    ensures SealVerifies(Seal(kind, values, digest).value, kind, values.Keys, digest) <==>
            ((SCHEMA in values ==> values[SCHEMA] == SCHEMA_VERSION) && (KIND in values ==> values[KIND] == kind))
  {
    var d := Unsealed(kind, values);
    assert d[DIGEST := digest(d)] - {DIGEST} == d;
  }

  /** What verifies was sealed from its own fields, and two documents that verify with one
      digest are equal when the digest function does not collide. */
  lemma VerifiedWasSealed(d: Document, e: Document, kind: int, fields: set<nat>, digest: Document -> int)
    requires SealVerifies(d, kind, fields, digest) && SealVerifies(e, kind, fields, digest)
    ensures Seal(kind, d - {DIGEST}, digest) == Some(d)
    ensures d[DIGEST] == e[DIGEST] && (digest(d - {DIGEST}) == digest(e - {DIGEST}) ==> d - {DIGEST} == e - {DIGEST}) ==> d == e
  {
    assert Unsealed(kind, d - {DIGEST}) == d - {DIGEST};
    assert d == (d - {DIGEST})[DIGEST := d[DIGEST]];
    assert e == (e - {DIGEST})[DIGEST := e[DIGEST]];
  }

  // ---- Times ----

  const MILLISECOND: int := 1_000
  const SECOND: int := 1_000_000
  const SKEW: int := 5 * SECOND
  const MIN_TTL: int := 30
  const MAX_TTL: int := 1800

  /** The time a document shows for a reading of the clock. */
  function Shown(t: int): (s: int)
    ensures s <= t < s + MILLISECOND && s % MILLISECOND == 0
  {
    t - t % MILLISECOND
  }

  datatype Attestation = Attestation(
    digest: int, operation: int, release: int,
    healthObserved: int, started: int, completed: int, issued: int, expires: int, ttl: int)

  /** The temporal part of _verify_attestation_contract. */
  predicate Timely(a: Attestation, now: int) {
    && MIN_TTL <= a.ttl <= MAX_TTL
    && a.started <= a.completed <= a.issued
    && a.healthObserved <= a.started && a.started - a.healthObserved <= 30 * SECOND
    && a.expires - a.issued == a.ttl * SECOND
    && a.issued - SKEW <= now <= a.expires
  }

  /** _build_attestation: what it shows is timely from the start, if the observation was. */
  function Issue(a: Attestation, now: int, ttl: int): Attestation {
    a.(issued := Shown(now), expires := Shown(now + ttl * SECOND), ttl := ttl)
  }

  lemma IssuedIsTimely(a: Attestation, now: int, ttl: int, later: int)
    requires MIN_TTL <= ttl <= MAX_TTL && a.completed % MILLISECOND == 0
    requires a.healthObserved <= a.started <= a.completed <= now && a.started - a.healthObserved <= 30 * SECOND
    ensures Timely(Issue(a, now, ttl), later) <==> Shown(now) - SKEW <= later <= Shown(now) + ttl * SECOND
  {
    assert ttl * SECOND == (ttl * 1000) * MILLISECOND;
    assert (now + (ttl * 1000) * MILLISECOND) % MILLISECOND == now % MILLISECOND by {
      ShiftKeepsRemainder(now, ttl * 1000);
    }
    SameMillisecond(a.completed, now);
  }

  lemma ShiftKeepsRemainder(t: int, k: int)
    ensures (t + k * MILLISECOND) % MILLISECOND == t % MILLISECOND
  {
  }

  /** A time shown in whole milliseconds is not after the shown form of a later reading. */
  lemma SameMillisecond(s: int, t: int)
    requires s % MILLISECOND == 0 && s <= t
    ensures s <= Shown(t)
  {
  }

  // ---- The marker ----

  datatype Marker = Marker(attestation: int, operation: int, consumer: int, release: int, consumed: int)

  /** validate_consumption_document, once both documents' seals have verified. */
  predicate Validates(m: Marker, a: Attestation, consumer: int, release: int, now: int) {
    && a.release == release
    && m.attestation == a.digest && m.operation == a.operation && m.consumer == consumer && m.release == release
    && a.issued < a.expires
    && a.issued <= m.consumed <= a.expires
    && m.consumed - SKEW <= now <= a.expires
  }

  /** A valid marker means that the attestation was timely when it was consumed, so looking
      at it in hindsight cannot fail on time. */
  lemma HindsightHolds(m: Marker, a: Attestation, consumer: int, release: int, now: int, verified: int)
    requires Validates(m, a, consumer, release, now) && Timely(a, verified)
    ensures Timely(a, m.consumed)
  {
  }

  /** Once valid, a marker stays valid exactly until the attestation expires. */
  lemma ValidUntilExpiry(m: Marker, a: Attestation, consumer: int, release: int, now: int, later: int)
    requires Validates(m, a, consumer, release, now) && now <= later
    ensures Validates(m, a, consumer, release, later) <==> later <= a.expires
  {
  }

  // ---- Many runs on one path ----

  /** Phases of a run; a linked run has published its marker, a done run also says so. */
  datatype Phase = Starting | Verifying | Ready | Linked | Done | Over

  /** Whose marker is there, and how far each run is; a run not listed has not started. */
  datatype Race = Race(marker: Option<nat>, phase: map<nat, Phase>)

  datatype Act = Look(run: nat) | Verify(run: nat) | Link(run: nat) | Finish(run: nat) | Stop(run: nat)

  function PhaseOf(s: Race, run: nat): Phase {
    if run in s.phase then s.phase[run] else Starting
  }

  /** The phase that an act leads its run into: a look or a link that finds a marker ends it. */
  function Reached(m: Act, taken: bool): Phase {
    match m
    case Look(_) => if taken then Over else Verifying
    case Verify(_) => Ready
    case Link(_) => if taken then Over else Linked
    case Finish(_) => Done
    case Stop(_) => Over
  }

  function After(s: Race, m: Act): Race {
    Race(if m.Link? && s.marker.None? then Some(m.run) else s.marker, s.phase[m.run := Reached(m, s.marker.Some?)])
  }

  predicate Allowed(s: Race, m: Act) {
    match m
    case Look(r) => PhaseOf(s, r) == Starting
    case Verify(r) => PhaseOf(s, r) == Verifying
    case Link(r) => PhaseOf(s, r) == Ready
    case Finish(r) => PhaseOf(s, r) == Linked
    case Stop(r) => PhaseOf(s, r) != Done
  }

  ghost predicate ActsAt(states: seq<Race>, acts: seq<Act>, i: nat)
    requires i < |acts| && i + 1 < |states|
  {
    Allowed(states[i], acts[i]) && states[i + 1] == After(states[i], acts[i])
  }

  /** Any interleaving of any number of runs, from a path without a marker. */
  ghost predicate Runs(states: seq<Race>, acts: seq<Act>) {
    && |states| == |acts| + 1 && states[0] == Race(None, map[])
    && forall i :: 0 <= i < |acts| ==> ActsAt(states, acts, i)
  }

  /** Whoever succeeded published the marker that is there, and it was there for good since. */
  lemma {:induction false} SuccessOwnsTheMarker(states: seq<Race>, acts: seq<Act>, i: nat, r: nat)
    requires Runs(states, acts) && i < |states|
    requires PhaseOf(states[i], r) in {Linked, Done}
    ensures states[i].marker == Some(r)
  {
    if i > 0 {
      assert ActsAt(states, acts, i - 1);
      if PhaseOf(states[i - 1], r) in {Linked, Done} {
        SuccessOwnsTheMarker(states, acts, i - 1, r);
      }
    }
  }

  /** At most one run ever consumes an attestation, in any interleaving. */
  lemma AtMostOneConsumer(states: seq<Race>, acts: seq<Act>, i: nat, j: nat, r: nat, q: nat)
    requires Runs(states, acts) && i <= j < |states|
    requires PhaseOf(states[i], r) == Done && PhaseOf(states[j], q) == Done
    ensures r == q
  {
    DoneStays(states, acts, i, j, r);
    SuccessOwnsTheMarker(states, acts, j, r);
    SuccessOwnsTheMarker(states, acts, j, q);
  }

  lemma {:induction false} DoneStays(states: seq<Race>, acts: seq<Act>, i: nat, j: nat, r: nat)
    requires Runs(states, acts) && i <= j < |states| && PhaseOf(states[i], r) == Done
    ensures PhaseOf(states[j], r) == Done
  {
    if i < j {
      DoneStays(states, acts, i, j - 1, r);
      assert ActsAt(states, acts, j - 1);
    }
  }

  /** The states and acts of a path so far. */
  datatype Log = Log(states: seq<Race>, acts: seq<Act>)

  type Interleaving = log: Log | Runs(log.states, log.acts) ghost witness Log([Race(None, map[])], [])

  ghost predicate Extends(earlier: Interleaving, log: Interleaving) {
    earlier.states <= log.states && earlier.acts <= log.acts
  }

  // ---- Consuming ----

  /** What the marker's path holds: a whole marker, or the start of one. */
  datatype Content = Whole(marker: Marker) | Torn

  datatype Outcome = Consumed(document: Marker) | Replay | Refused | Failed

  class Evidence {
    const fate: nat -> Fate
    const others: nat -> Option<Content>       // markers that other runs publish
    const clock: nat -> int
    const short: nat -> bool                   // the write at this tick is cut short
    var tick: nat
    var marker: Option<Content>
    ghost var effects: seq<Content>            // what the runs of this process have published
    ghost var log: Interleaving                // every act of every run that mattered
    ghost var runs: nat                        // runs are numbered as they come

    constructor (fate: nat -> Fate, others: nat -> Option<Content>, clock: nat -> int, short: nat -> bool)
      ensures this.fate == fate && this.others == others && this.clock == clock && this.short == short
      ensures marker == None && effects == [] && tick == 0 && Recorded()
    {
      this.fate, this.others, this.clock, this.short := fate, others, clock, short;
      marker, effects, tick := None, [], 0;
      log, runs := Log([Race(None, map[])], []), 0;
    }

    ghost function Now(): Race
      reads this`log
    {
      log.states[|log.states| - 1]
    }

    /** The log is that of this path, and numbers from `runs` on are unused. */
    ghost predicate Recorded()
      reads this`log, this`marker, this`runs
    {
      && (Now().marker.Some? <==> marker.Some?) && (Now().marker.Some? ==> Now().marker.value < runs)
      && forall r :: r in Now().phase ==> r < runs
    }

    ghost predicate Calm(from: nat) {
      CalmFrom(fate, from) && forall t :: from <= t ==> others(t).None?
    }

    ghost predicate Monotone(from: nat) {
      forall s, t :: from <= s <= t ==> clock(s) <= clock(t)
    }

    ghost method Record(m: Act)
      requires Allowed(Now(), m)
      modifies this`log
      ensures Now() == After(old(Now()), m) && Extends(old(log), log)
    {
      ghost var next := Log(log.states + [After(Now(), m)], log.acts + [m]);
      forall i | 0 <= i < |next.acts| ensures ActsAt(next.states, next.acts, i) {
        if i < |log.acts| {
          assert ActsAt(log.states, log.acts, i);
        }
      }
      log := next;
    }

    /** Another run that publishes looked, verified and linked. */
    ghost method RecordRival()
      requires Recorded() && marker.None?
      modifies this`log, this`runs
      ensures Now().marker == Some(old(runs)) && runs == old(runs) + 1 && Extends(old(log), log)
      ensures Now().phase == old(Now().phase)[old(runs) := Linked]
    {
      ghost var rival := runs;
      Record(Look(rival));
      Record(Verify(rival));
      Record(Link(rival));
      runs := runs + 1;
    }

    method Pass(ghost me: nat) returns (f: Fate)
      requires Recorded() && me < runs
      modifies this`tick, this`marker, this`log, this`runs
      ensures tick == old(tick) + 1 && f == fate(old(tick))
      ensures marker == if old(marker).None? then others(old(tick)) else old(marker)
      ensures Recorded() && old(runs) <= runs && Extends(old(log), log)
      ensures PhaseOf(Now(), me) == old(PhaseOf(Now(), me)) && (Now().marker == Some(me) <==> old(Now().marker) == Some(me))
    {
      if marker.None? && others(tick).Some? {
        RecordRival();
        marker := others(tick);
      }
      f := fate(tick);
      tick := tick + 1;
    }

    /** One act of a run of this process. */
    ghost method Act(m: Act)
      requires Recorded() && Allowed(Now(), m) && m.run < runs && (m.Link? ==> marker.Some?)
      modifies this`log
      ensures Recorded() && Extends(old(log), log)
      ensures PhaseOf(Now(), m.run) == Reached(m, marker.Some?) && Now().marker == old(Now()).marker
    {
      Record(m);
    }

    /** _publish_private: written aside in one write, then linked where nothing may be. */
    method Publish(m: Marker, ghost me: nat) returns (r: Outcome, ghost written: nat)
      requires Recorded() && me < runs && PhaseOf(Now(), me) == Ready && Now().marker != Some(me)
      modifies this`tick, this`marker, this`effects, this`log, this`runs
      ensures Recorded() && Extends(old(log), log) && old(runs) <= runs
      ensures r.Consumed? <==> PhaseOf(Now(), me) == Done
      ensures effects != old(effects) <==> Now().marker == Some(me)
      ensures old(tick) < tick && (r.Consumed? || r.Replay? || r.Failed?)
      ensures old(tick) <= written < tick || !r.Consumed?
      ensures effects == old(effects) || effects == old(effects) + [if short(written) then Torn else Whole(m)]
      ensures effects != old(effects) ==> old(marker) == None && marker == Some(if short(written) then Torn else Whole(m))
      ensures effects == old(effects) ==> marker == old(marker) || old(marker) == None
      ensures r.Consumed? ==> effects != old(effects) && r.document == m
      ensures r.Replay? ==> effects == old(effects) && marker.Some?
      ensures old(Calm(tick)) && old(marker) == None ==> r.Consumed?
      ensures old(marker).Some? ==> effects == old(effects)
    {
      written := 0;
      var f := Pass(me);
      if marker.Some? {
        Act(Link(me));
        return Replay, written;
      }
      if !f.Works? {
        Act(Stop(me));
        return Failed, written;
      }
      written := tick;
      var content := if short(tick) then Torn else Whole(m);
      f := Pass(me);
      if !f.Works? {
        Act(Stop(me));
        return Failed, written;
      }
      r := LinkMarker(m, content, me);
    }

    /** The link itself, then the temporary name is removed and the directory synced. */
    method LinkMarker(m: Marker, content: Content, ghost me: nat) returns (r: Outcome)
      requires Recorded() && me < runs && PhaseOf(Now(), me) == Ready && Now().marker != Some(me)
      modifies this`tick, this`marker, this`effects, this`log, this`runs
      ensures Recorded() && Extends(old(log), log) && old(runs) <= runs && old(tick) < tick
      ensures r.Consumed? <==> PhaseOf(Now(), me) == Done
      ensures effects == if Now().marker == Some(me) then old(effects) + [content] else old(effects)
      ensures Now().marker == Some(me) ==> old(marker) == None && marker == Some(content)
      ensures Now().marker != Some(me) ==> marker == old(marker) || old(marker) == None
      ensures r.Consumed? ==> Now().marker == Some(me) && r.document == m
      ensures r.Replay? ==> Now().marker != Some(me) && marker.Some?
      ensures r.Consumed? || r.Replay? || r.Failed?
      ensures old(Calm(tick)) && old(marker) == None ==> r.Consumed?
    {
      var f := Pass(me);
      if marker.Some? {
        Act(Link(me));
        return Replay;
      }
      if f.Fails? {
        Act(Stop(me));
        return Failed;
      }
      Record(Link(me));
      marker, effects := Some(content), effects + [content];
      if !f.Works? {
        Act(Stop(me));
        return Failed;
      }
      f := Pass(me);                                          // unlink the temporary name, sync
      Act(if f.Works? then Finish(me) else Stop(me));
      r := if f.Works? then Consumed(m) else Failed;
    }

    /** A run of this process takes the next number. */
    ghost method Enter()
      requires Recorded()
      modifies this`runs
      ensures Recorded() && runs == old(runs) + 1
      ensures PhaseOf(Now(), old(runs)) == Starting && Now().marker != Some(old(runs))
    {
      runs := runs + 1;
    }

    /** Every check before publication, and the marker to be published when all of them pass. */
    method Approve(a: Attestation, consumer: int, release: int, ghost me: nat)
      returns (document: Option<Marker>, taken: bool, ghost decided: nat)
      requires Recorded() && me < runs && PhaseOf(Now(), me) == Starting && Now().marker != Some(me)
      modifies this`tick, this`marker, this`log, this`runs
      ensures Recorded() && Extends(old(log), log) && old(runs) <= runs
      ensures PhaseOf(Now(), me) == (if document.Some? then Ready else Over) && Now().marker != Some(me)
      ensures old(tick) < tick && (document.Some? ==> old(tick) < decided < tick)
      ensures marker == old(marker) || old(marker) == None
      ensures old(marker).Some? ==> document.None?
      ensures taken ==> document.None? && marker.Some?
      ensures document.Some? ==>
                && document.value == Marker(a.digest, a.operation, consumer, release, Shown(clock(decided)))
                && a.release == release && Timely(a, clock(old(tick) + 1))
                && Validates(document.value, a, consumer, release, clock(decided))
      ensures old(Calm(tick) && marker == None) ==>
                && marker == None
                && (document.Some? <==> a.release == release && Timely(a, clock(old(tick) + 1))
                                        && Validates(Marker(a.digest, a.operation, consumer, release, Shown(clock(old(tick) + 3))),
                                                     a, consumer, release, clock(old(tick) + 3)))
                && (document.Some? ==> decided == old(tick) + 3)
    {
      document, decided := None, 0;
      var ok;
      ok, taken := Glance(a, release, me);
      if !ok { return; }
      ok := Check(a, me);
      if !ok { return; }
      decided := tick;
      document := Decide(a, consumer, release, me);
    }

    /** A first look at the marker's path, and the release. */
    method Glance(a: Attestation, release: int, ghost me: nat) returns (ok: bool, taken: bool)
      requires Recorded() && me < runs && PhaseOf(Now(), me) == Starting && Now().marker != Some(me)
      modifies this`tick, this`marker, this`log, this`runs
      ensures Recorded() && Extends(old(log), log) && old(runs) <= runs && tick == old(tick) + 1
      ensures PhaseOf(Now(), me) == (if ok then Verifying else Over) && Now().marker != Some(me)
      ensures marker == old(marker) || old(marker) == None
      ensures taken <==> marker.Some?
      ensures ok <==> !taken && fate(old(tick)).Works? && a.release == release
      ensures old(Calm(tick)) ==> marker == old(marker)
    {
      var f := Pass(me);
      Act(Look(me));
      taken := marker.Some?;
      ok := !taken && f.Works? && a.release == release;
      if !taken && !ok { Act(Stop(me)); }
    }

    /** The marker this run would publish, if it is valid. */
    method Decide(a: Attestation, consumer: int, release: int, ghost me: nat) returns (document: Option<Marker>)
      requires Recorded() && me < runs && PhaseOf(Now(), me) == Verifying && Now().marker != Some(me)
      modifies this`tick, this`marker, this`log, this`runs
      ensures Recorded() && Extends(old(log), log) && old(runs) <= runs && tick == old(tick) + 1
      ensures PhaseOf(Now(), me) == (if document.Some? then Ready else Over) && Now().marker != Some(me)
      ensures marker == old(marker) || old(marker) == None
      ensures var m := Marker(a.digest, a.operation, consumer, release, Shown(clock(old(tick))));
              document == if Validates(m, a, consumer, release, clock(old(tick))) then Some(m) else None
      ensures old(Calm(tick)) ==> marker == old(marker)
    {
      var consumed := clock(tick);
      var m := Marker(a.digest, a.operation, consumer, release, Shown(consumed));
      var f := Pass(me);
      document := if Validates(m, a, consumer, release, consumed) then Some(m) else None;
      Act(if document.Some? then Verify(me) else Stop(me));
    }

    /** The attestation is timely, and the live edge is healthy. */
    method Check(a: Attestation, ghost me: nat) returns (ok: bool)
      requires Recorded() && me < runs && PhaseOf(Now(), me) == Verifying && Now().marker != Some(me)
      modifies this`tick, this`marker, this`log, this`runs
      ensures Recorded() && Extends(old(log), log) && old(runs) <= runs && old(tick) < tick
      ensures PhaseOf(Now(), me) == (if ok then Verifying else Over) && Now().marker != Some(me)
      ensures marker == old(marker) || old(marker) == None
      ensures ok ==> Timely(a, clock(old(tick))) && tick == old(tick) + 2
      ensures old(Calm(tick)) ==> marker == old(marker) && (ok <==> Timely(a, clock(old(tick))))
    {
      var now := clock(tick);
      var f := Pass(me);
      ok := f.Works? && Timely(a, now);
      if ok {
        f := Pass(me);
        ok := f.Works?;
      }
      if !ok { Act(Stop(me)); }
    }

    /** consume_attestation: `consumer` claims the attestation for `release`.  The run takes the
        next number, and the log shows it done exactly when it says `Consumed`. */
    method Consume(a: Attestation, consumer: int, release: int) returns (r: Outcome, ghost written: nat, ghost decided: nat)
      requires Recorded()
      modifies this`tick, this`marker, this`effects, this`log, this`runs
      ensures Recorded() && Extends(old(log), log) && old(runs) < runs
      ensures r.Consumed? <==> PhaseOf(Now(), old(runs)) == Done
      ensures effects != old(effects) <==> Now().marker == Some(old(runs))
      ensures old(tick) < tick
      // At most one marker is ever written by a run, and only where none was.
      ensures effects == old(effects) || exists c :: effects == old(effects) + [c] && marker == Some(c)
      ensures old(marker).Some? ==> effects == old(effects) && marker == old(marker) && !r.Consumed?
      ensures r.Consumed? ==> effects != old(effects)
      ensures r.Replay? ==> effects == old(effects) && marker.Some?
      // What was consumed is valid until it expires, and it is what the path holds unless the write was short.
      ensures r.Consumed? ==> marker == Some(if short(written) then Torn else Whole(r.document))
      ensures r.Consumed? ==> old(tick) < decided < tick && a.issued <= Shown(clock(decided))
      ensures r.Consumed? ==> forall now :: clock(decided) <= now <= a.expires ==> Validates(r.document, a, consumer, release, now)
      ensures r.Consumed? ==> Timely(a, r.document.consumed)
      // Undisturbed, an unused attestation is consumed exactly when it was issued by now and has not expired.
      ensures old(Calm(tick) && marker == None) && old(Monotone(tick)) ==>
                (r.Consumed? <==> a.release == release && Timely(a, clock(old(tick) + 1))
                                  && a.issued <= Shown(clock(old(tick) + 3)) && clock(old(tick) + 3) <= a.expires)
    {
      written, decided := 0, 0;
      ghost var me := runs;
      Enter();
      var document, taken, at := Approve(a, consumer, release, me);
      if document.None? { return if taken then Replay else Refused, written, decided; }
      decided := at;
      r, written := Publish(document.value, me);
    }

    /** Of all the runs the log knows, those of this process included, at most one ever consumed. */
    lemma OneConsumer(i: nat, j: nat, r: nat, q: nat)
      requires Recorded() && i <= j < |log.states|
      requires PhaseOf(log.states[i], r) == Done && PhaseOf(log.states[j], q) == Done
      ensures r == q && Now().marker == Some(r)
    {
      AtMostOneConsumer(log.states, log.acts, i, j, r, q);
      DoneStays(log.states, log.acts, i, |log.states| - 1, r);
      SuccessOwnsTheMarker(log.states, log.acts, |log.states| - 1, r);
    }
  }
}
