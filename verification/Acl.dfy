/**
 The permission evidence of scripts/install_server_wide_coordinator.py: parsing getfacl
 output, the ACL and mode evaluators, and the three-valued verdict on whether an account
 can reach any of the observed sockets.

 `Granted` is the Access Check Algorithm section of acl(5) (POSIX.1e draft 17), written
 down independently of the program.
 */
module Acl {
  import opened Options
  import opened Posix

  datatype Perm = R | W | X
  type Perms = set<Perm>

  datatype Tag = User | Group | Mask | Other

  /** Qualifiers are numeric ids; `Named` is any text that is no number. */
  datatype Qualifier = Nobody | Id(id: nat) | Named(text: string)
  datatype Key = Key(tag: Tag, qualifier: Qualifier)

  type Entries = map<Key, Perms>

  const OWNER := Key(User, Nobody)
  const GROUP := Key(Group, Nobody)
  const MASK := Key(Mask, Nobody)
  const OTHERS := Key(Other, Nobody)

  datatype File = File(uid: nat, gid: nat, mode: Mode)

  // ---- Parsing ----

  /** One line of output after comments and blanks are gone, split at its colons. */
  datatype Line =
    | Skipped                                      // empty, a comment, or a default entry
    | Malformed                                    // not three fields, or an unknown tag
    | Fields(key: Key, permissions: string)

  predicate Triple(s: string) {
    |s| == 3 && s[0] in "r-" && s[1] in "w-" && s[2] in "x-"
  }

  function PermsOf(s: string): Perms {
    if !Triple(s) then {}
    else (if s[0] != '-' then {R} else {}) + (if s[1] != '-' then {W} else {}) + (if s[2] != '-' then {X} else {})
  }

  function Print(p: Perms): string {
    [if R in p then 'r' else '-', if W in p then 'w' else '-', if X in p then 'x' else '-']
  }

  predicate Required(entries: Entries) {
    OWNER in entries && GROUP in entries && OTHERS in entries
  }

  predicate LineOk(lines: seq<Line>, i: nat)
    requires i < |lines|
  {
    !lines[i].Malformed? && (lines[i].Fields? ==> Triple(lines[i].permissions))
  }

  ghost predicate NoDuplicates(lines: seq<Line>, n: nat)
    requires n <= |lines|
  {
    forall i, j :: 0 <= i < j < n && lines[i].Fields? && lines[j].Fields? ==> lines[i].key != lines[j].key
  }

  /** The map holds exactly what the first `n` lines say. */
  ghost predicate Says(lines: seq<Line>, n: nat, entries: Entries)
    requires n <= |lines|
  {
    && (forall i :: 0 <= i < n && lines[i].Fields? ==>
          lines[i].key in entries && entries[lines[i].key] == PermsOf(lines[i].permissions))
    && (forall k :: k in entries ==> exists i :: 0 <= i < n && lines[i].Fields? && lines[i].key == k)
  }

  /** _parse_posix_acl: accepted exactly when every line is well formed, no key is repeated
      and the three base entries are there. */
  method Parse(lines: seq<Line>) returns (r: Option<Entries>)
    ensures r.Some? ==> (forall i :: 0 <= i < |lines| ==> LineOk(lines, i)) && NoDuplicates(lines, |lines|)
                        && Says(lines, |lines|, r.value) && Required(r.value)
    ensures r.None? ==> (exists i :: 0 <= i < |lines| && !LineOk(lines, i)) || !NoDuplicates(lines, |lines|)
                        || exists entries :: Says(lines, |lines|, entries) && !Required(entries)
  {
    var entries: Entries := map[];
    for n := 0 to |lines|
      invariant forall i :: 0 <= i < n ==> LineOk(lines, i)
      invariant NoDuplicates(lines, n) && Says(lines, n, entries)
    {
      var line := lines[n];
      if line.Malformed? { assert !LineOk(lines, n); return None; }
      if line.Fields? {
        if !Triple(line.permissions) { assert !LineOk(lines, n); return None; }
        if line.key in entries {
          var i :| 0 <= i < n && lines[i].Fields? && lines[i].key == line.key;
          return None;
        }
        ghost var was := entries;
        entries := entries[line.key := PermsOf(line.permissions)];
        assert forall k :: k in entries ==> k == line.key || k in was;
      }
    }
    r := if Required(entries) then Some(entries) else None;
  }

  lemma PrintedTriple(p: Perms)
    ensures Triple(Print(p)) && PermsOf(Print(p)) == p
  {
    forall q: Perm ensures q in PermsOf(Print(p)) <==> q in p {
      match q case R => case W => case X =>
    }
  }

  /** Reading what was printed gives the entries back. */
  lemma PrintedIsRead(lines: seq<Line>, entries: Entries, printed: Entries)
    requires forall i :: 0 <= i < |lines| ==> lines[i].Fields? ==>
               lines[i].key in printed && lines[i].permissions == Print(printed[lines[i].key])
    requires forall k :: k in printed ==> exists i :: 0 <= i < |lines| && lines[i].Fields? && lines[i].key == k
    requires Says(lines, |lines|, entries)
    ensures entries == printed
    ensures forall i :: 0 <= i < |lines| && lines[i].Fields? ==> Triple(lines[i].permissions)
  {
    forall i | 0 <= i < |lines| && lines[i].Fields?
      ensures Triple(lines[i].permissions) && PermsOf(lines[i].permissions) == printed[lines[i].key]
    {
      PrintedTriple(printed[lines[i].key]);
    }
    assert forall k :: k in entries <==> k in printed;
  }

  // ---- The evaluators ----

  /** Owner, group and other bits of a mode. */
  function Class(mode: Mode, shift: nat): Perms {
    (if shift + 2 in mode then {R} else {}) + (if shift + 1 in mode then {W} else {}) + (if shift in mode then {X} else {})
  }

  /** _mode_permissions. */
  function ModePermissions(f: File, uid: nat, gids: set<nat>): Perms {
    if uid == f.uid then Class(f.mode, 6)
    else if f.gid in gids then Class(f.mode, 3)
    else Class(f.mode, 0)
  }

  function MaskOf(entries: Entries): Perms {
    if MASK in entries then entries[MASK] else {R, W, X}
  }

  /** The entries of the group class that apply to an account. */
  predicate Applies(k: Key, f: File, gids: set<nat>) {
    (k == GROUP && f.gid in gids) || (k.tag.Group? && k.qualifier.Id? && k.qualifier.id in gids)
  }

  /** Some entry of the group class that applies holds this permission. */
  ghost predicate GroupGives(entries: Entries, f: File, gids: set<nat>, p: Perm) {
    exists k :: k in entries && Applies(k, f, gids) && p in entries[k]
  }

  ghost function Permissions(entries: Entries, f: File, uid: nat, gids: set<nat>): Perms
    requires Required(entries)
  {
    if uid == f.uid then entries[OWNER]
    else if Key(User, Id(uid)) in entries then entries[Key(User, Id(uid))] * MaskOf(entries)
    else if exists k :: k in entries && Applies(k, f, gids) then
      (set p: Perm | GroupGives(entries, f, gids, p)) * MaskOf(entries)
    else entries[OTHERS]
  }

  /** _acl_permissions: the loop gathers the union of all matching group entries. */
  method AclPermissions(entries: Entries, f: File, uid: nat, gids: set<nat>) returns (r: Perms)
    requires Required(entries)
    ensures r == Permissions(entries, f, uid, gids)
  {
    if uid == f.uid { return entries[OWNER]; }
    var mask := MaskOf(entries);
    if Key(User, Id(uid)) in entries { return entries[Key(User, Id(uid))] * mask; }
    var gathered, matched := {}, false;
    if f.gid in gids { gathered, matched := entries[GROUP], true; }
    var rest := entries.Keys;
    while rest != {}
      invariant rest <= entries.Keys
      invariant matched <==> exists k :: k in entries && (k == GROUP || k !in rest) && Applies(k, f, gids)
      invariant forall p :: p in gathered <==>
                  exists k :: k in entries && (k == GROUP || k !in rest) && Applies(k, f, gids) && p in entries[k]
      decreases rest
    {
      var k :| k in rest;
      ghost var before, found := rest, matched;
      rest := rest - {k};
      if k.tag.Group? && k.qualifier.Id? && k.qualifier.id in gids {
        matched := true;
        gathered := gathered + entries[k];
      }
      assert forall l :: l in entries && (l == GROUP || l !in rest) <==> l in entries && (l == GROUP || l !in before || l == k);
    }
    assert forall p :: p in gathered <==> GroupGives(entries, f, gids, p);
    return if matched then gathered * mask else entries[OTHERS];
  }

  /** acl(5): an ACL with named entries has a mask. */
  ghost predicate Valid(entries: Entries) {
    Required(entries) && (MASK !in entries ==> forall k :: k in entries ==> k.qualifier.Nobody?)
  }

  /** acl(5), Access Check Algorithm, for a set of requested permissions. */
  ghost predicate Granted(entries: Entries, f: File, uid: nat, gids: set<nat>, wanted: Perms)
    requires Required(entries)
  {
    if uid == f.uid then wanted <= entries[OWNER]
    else if Key(User, Id(uid)) in entries then
      wanted <= entries[Key(User, Id(uid))] && (MASK in entries ==> wanted <= entries[MASK])
    else if exists k :: k in entries && Applies(k, f, gids) then
      if MASK in entries then wanted <= entries[MASK] && exists k :: k in entries && Applies(k, f, gids) && wanted <= entries[k]
      else wanted <= entries[GROUP]
    else wanted <= entries[OTHERS]
  }

  /** For one permission the evaluator decides exactly as acl(5) does. */
  lemma OnePermissionIsExact(entries: Entries, f: File, uid: nat, gids: set<nat>, p: Perm)
    requires Valid(entries)
    ensures p in Permissions(entries, f, uid, gids) <==> Granted(entries, f, uid, gids, {p})
  {
    if k :| k in entries && Applies(k, f, gids) && p in entries[k] {
      assert {p} <= entries[k];
    }
    if MASK !in entries {
      assert forall k :: k in entries && Applies(k, f, gids) ==> k == GROUP;
    }
  }

  /** For several permissions it never denies what acl(5) grants ... */
  lemma NeverTooStrict(entries: Entries, f: File, uid: nat, gids: set<nat>, wanted: Perms)
    requires Valid(entries) && Granted(entries, f, uid, gids, wanted)
    ensures wanted <= Permissions(entries, f, uid, gids)
  {
    forall p | p in wanted ensures p in Permissions(entries, f, uid, gids) {
      assert Granted(entries, f, uid, gids, {p});
      OnePermissionIsExact(entries, f, uid, gids, p);
    }
  }

  ghost predicate InGroupClass(entries: Entries, f: File, uid: nat, gids: set<nat>) {
    uid != f.uid && Key(User, Id(uid)) !in entries && exists k :: k in entries && Applies(k, f, gids)
  }

  /** One applicable entry holds, under the mask, all that the applicable entries hold together. */
  ghost predicate OneHoldsAll(entries: Entries, f: File, gids: set<nat>) {
    exists k :: k in entries && Applies(k, f, gids) && Covers(entries, f, gids, k)
  }

  ghost predicate Covers(entries: Entries, f: File, gids: set<nat>, k: Key)
    requires k in entries
  {
    forall l :: l in entries && Applies(l, f, gids) ==> entries[l] * MaskOf(entries) <= entries[k]
  }

  ghost predicate Exact(entries: Entries, f: File, uid: nat, gids: set<nat>)
    requires Required(entries)
  {
    forall wanted: Perms :: Granted(entries, f, uid, gids, wanted) <==> wanted <= Permissions(entries, f, uid, gids)
  }

  lemma CoveredIsExact(entries: Entries, f: File, uid: nat, gids: set<nat>, k: Key, wanted: Perms)
    requires Valid(entries) && InGroupClass(entries, f, uid, gids)
    requires k in entries && Applies(k, f, gids) && Covers(entries, f, gids, k)
    ensures Granted(entries, f, uid, gids, wanted) <==> wanted <= Permissions(entries, f, uid, gids)
  {
    if wanted <= Permissions(entries, f, uid, gids) {
      forall p | p in wanted ensures p in entries[k] && p in MaskOf(entries) {
        assert p in Permissions(entries, f, uid, gids);
        var l :| l in entries && Applies(l, f, gids) && p in entries[l];
        assert p in entries[l] * MaskOf(entries);
      }
      assert MASK !in entries ==> k == GROUP;
    } else if Granted(entries, f, uid, gids, wanted) {
      NeverTooStrict(entries, f, uid, gids, wanted);
    }
  }

  /** The evaluator agrees with acl(5) on every set of permissions exactly when the account is
      outside the group class, or one applicable entry holds all of them. */
  lemma ExactExactlyWhenOneHoldsAll(entries: Entries, f: File, uid: nat, gids: set<nat>)
    requires Valid(entries)
    ensures Exact(entries, f, uid, gids) <==> (InGroupClass(entries, f, uid, gids) ==> OneHoldsAll(entries, f, gids))
  {
    if InGroupClass(entries, f, uid, gids) {
      if OneHoldsAll(entries, f, gids) {
        var k :| k in entries && Applies(k, f, gids) && Covers(entries, f, gids, k);
        forall wanted: Perms
          ensures Granted(entries, f, uid, gids, wanted) <==> wanted <= Permissions(entries, f, uid, gids)
        {
          CoveredIsExact(entries, f, uid, gids, k, wanted);
        }
      }
      if Exact(entries, f, uid, gids) {
        AllTogetherFromOne(entries, f, uid, gids);
      }
    }
  }

  lemma AllTogetherFromOne(entries: Entries, f: File, uid: nat, gids: set<nat>)
    requires Valid(entries) && InGroupClass(entries, f, uid, gids) && Exact(entries, f, uid, gids)
    ensures OneHoldsAll(entries, f, gids)
  {
    var all := Permissions(entries, f, uid, gids);
    assert Granted(entries, f, uid, gids, all);
    var k: Key :| k in entries && Applies(k, f, gids) && all <= entries[k];
    forall l | l in entries && Applies(l, f, gids) ensures entries[l] * MaskOf(entries) <= entries[k] {
      forall p | p in entries[l] * MaskOf(entries) ensures p in all {
        assert GroupGives(entries, f, gids, p);
      }
    }
    assert Covers(entries, f, gids, k);
  }

  /** Two groups that each hold one of two permissions are added up, which acl(5) does not do. */
  lemma UnionGrantsTooMuch()
    ensures var entries := map[OWNER := {}, GROUP := {}, OTHERS := {}, MASK := {R, W},
                               Key(Group, Id(1)) := {R}, Key(Group, Id(2)) := {W}];
            var f := File(0, 0, {});
            && Valid(entries) && {R, W} <= Permissions(entries, f, 5, {1, 2})
            && !Granted(entries, f, 5, {1, 2}, {R, W})
  {
    var entries := map[OWNER := {}, GROUP := {}, OTHERS := {}, MASK := {R, W},
                       Key(Group, Id(1)) := {R}, Key(Group, Id(2)) := {W}];
    var f := File(0, 0, {});
    assert Key(Group, Id(1)) in entries && Applies(Key(Group, Id(1)), f, {1, 2}) && R in entries[Key(Group, Id(1))];
    assert Key(Group, Id(2)) in entries && Applies(Key(Group, Id(2)), f, {1, 2}) && W in entries[Key(Group, Id(2))];
  }

  /** acl(5), correspondence between ACL entries and file permission bits. */
  ghost predicate Corresponds(entries: Entries, f: File) {
    && Valid(entries)
    && entries[OWNER] == Class(f.mode, 6) && entries[OTHERS] == Class(f.mode, 0)
    && (if MASK in entries then entries[MASK] else entries[GROUP]) == Class(f.mode, 3)
  }

  ghost predicate Minimal(entries: Entries) {
    entries.Keys == {OWNER, GROUP, OTHERS}
  }

  /** On a minimal ACL both evaluators agree; for the owner they agree on every ACL. */
  lemma ModeAgrees(entries: Entries, f: File, uid: nat, gids: set<nat>)
    requires Corresponds(entries, f) && (Minimal(entries) || uid == f.uid)
    ensures Permissions(entries, f, uid, gids) == ModePermissions(f, uid, gids)
  {
    if uid != f.uid {
      assert forall k :: k in entries && Applies(k, f, gids) ==> k == GROUP;
      assert f.gid in gids ==> GROUP in entries && Applies(GROUP, f, gids);
    }
  }

  // ---- One path ----

  /** What was observed: metadata, the ACL, and whether an extended ACL exists. */
  datatype Observation = Observation(file: Option<File>, acl: Option<Entries>, extended: Option<bool>)

  /** A host that the observation allows. */
  ghost predicate Explains(entries: Entries, f: File, o: Observation) {
    && Corresponds(entries, f)
    && (o.file.Some? ==> o.file.value == f)
    && (o.acl.Some? ==> o.acl.value == entries)
    && (o.extended.Some? ==> (o.extended.value <==> !Minimal(entries)))
  }

  ghost predicate Truth(entries: Entries, f: File, uid: nat, gids: set<nat>, p: Perm)
    requires Required(entries)
  {
    uid == 0 || Granted(entries, f, uid, gids, {p})
  }

  /** What the program takes for not observable: no metadata; or no ACL, where one exists or,
      for a stranger, may exist. */
  predicate Unobservable(o: Observation, uid: nat) {
    || o.file.None?
    || (o.acl.None? && (o.extended == Some(true) || (o.extended.None? && uid != o.file.value.uid)))
  }

  /** _identity_path_permission: a verdict is the truth on every host that explains what was
      observed, whatever else is true of that host; and it decides a read ACL as acl(5) does. */
  method PathPermission(o: Observation, uid: nat, gids: set<nat>, p: Perm) returns (allowed: Option<bool>)
    requires o.acl.Some? ==> Required(o.acl.value)
    ensures allowed.None? <==> uid != 0 && Unobservable(o, uid)
    ensures allowed.Some? ==>
              forall entries, f :: Explains(entries, f, o) ==> (allowed.value <==> Truth(entries, f, uid, gids, p))
    ensures uid != 0 && o.file.Some? && o.acl.Some? && Valid(o.acl.value) ==>
              allowed == Some(Granted(o.acl.value, o.file.value, uid, gids, {p}))
  {
    if uid == 0 { return Some(true); }
    if o.file.None? { return None; }
    if o.acl.Some? {
      var permissions := AclPermissions(o.acl.value, o.file.value, uid, gids);
      if Valid(o.acl.value) { OnePermissionIsExact(o.acl.value, o.file.value, uid, gids, p); }
      return Some(p in permissions);
    }
    if o.extended == Some(true) { return None; }
    var permissions := ModePermissions(o.file.value, uid, gids);
    if o.extended.None? && uid != o.file.value.uid { return None; }
    forall entries, f | Explains(entries, f, o)
      ensures p in permissions <==> Truth(entries, f, uid, gids, p)
    {
      ModeIsTheTruth(o, entries, f, uid, gids, p);
    }
    return Some(p in permissions);
  }

  /** Where no ACL was read but the mode may be trusted, it tells the truth. */
  lemma ModeIsTheTruth(o: Observation, entries: Entries, f: File, uid: nat, gids: set<nat>, p: Perm)
    requires Explains(entries, f, o) && o.acl.None? && uid != 0 && !Unobservable(o, uid)
    ensures p in ModePermissions(f, uid, gids) <==> Truth(entries, f, uid, gids, p)
  {
    OnePermissionIsExact(entries, f, uid, gids, p);
    ModeAgrees(entries, f, uid, gids);
  }

  /** For a stranger whose ACL was not read, the mode alone still settles a denial: exactly
      when the group bits lack the permission and the other bits do not help.  The program
      answers "unknown" there, which is sound but not the sharpest answer. */
  lemma WhenModeSettles(f: File, uid: nat, gids: set<nat>, p: Perm)
    requires uid != 0 && uid != f.uid
    ensures (forall entries :: Explains(entries, f, Observation(Some(f), None, None)) ==> !Truth(entries, f, uid, gids, p))
            <==> (p !in Class(f.mode, 3) && (f.gid in gids || p !in Class(f.mode, 0)))
    ensures exists entries :: Explains(entries, f, Observation(Some(f), None, None)) && !Truth(entries, f, uid, gids, p)
  {
    var o := Observation(Some(f), None, None);
    var minimal: Entries := map[OWNER := Class(f.mode, 6), GROUP := Class(f.mode, 3), OTHERS := Class(f.mode, 0)];
    var granting: Entries := minimal[MASK := Class(f.mode, 3)][Key(User, Id(uid)) := {p}];
    var denying: Entries := minimal[MASK := Class(f.mode, 3)][Key(User, Id(uid)) := {}];
    assert minimal.Keys == {OWNER, GROUP, OTHERS};
    assert Explains(minimal, f, o) && Explains(granting, f, o) && Explains(denying, f, o);
    assert !Truth(denying, f, uid, gids, p);
    if p in Class(f.mode, 3) {
      assert Truth(granting, f, uid, gids, p);
    } else if f.gid !in gids && p in Class(f.mode, 0) {
      assert forall k :: k in minimal ==> !Applies(k, f, gids);
      assert Truth(minimal, f, uid, gids, p);
    } else {
      forall entries | Explains(entries, f, o) ensures !Truth(entries, f, uid, gids, p) {
        assert GROUP in entries && (f.gid in gids ==> Applies(GROUP, f, gids));
        if MASK !in entries {
          assert forall k :: k in entries && Applies(k, f, gids) ==> k == GROUP;
        }
      }
    }
  }

  // ---- All sockets ----

  /** Verdicts for one socket: the socket itself, then each of its parent directories. */
  type Row = seq<Option<bool>>

  /** One way the unknowns may turn out. */
  ghost predicate ResolvesRow(truth: seq<bool>, row: Row) {
    |truth| == |row| && forall i :: 0 <= i < |row| ==> row[i].Some? ==> truth[i] == row[i].value
  }

  ghost predicate Resolves(truth: seq<seq<bool>>, rows: seq<Row>) {
    |truth| == |rows| && forall i :: 0 <= i < |rows| ==> ResolvesRow(truth[i], rows[i])
  }

  ghost predicate AllTrue(truth: seq<bool>) {
    forall i :: 0 <= i < |truth| ==> truth[i]
  }

  /** The account reaches a socket: one row holds throughout, or an unobserved path is one. */
  ghost predicate Reaches(truth: seq<seq<bool>>, unseen: bool) {
    unseen || exists i :: 0 <= i < |truth| && AllTrue(truth[i])
  }

  /** can_connect for one socket. */
  function CanConnect(row: Row): Option<bool> {
    if Some(false) in row then Some(false) else if None in row then None else Some(true)
  }

  /** direct_socket_access of docker_socket_admission_evidence. */
  method DirectAccess(rows: seq<Row>, unobservable: bool) returns (verdict: Option<bool>)
    ensures verdict == Verdict(rows, unobservable)
  {
    var values := [];
    for i := 0 to |rows|
      invariant |values| == i && forall j :: 0 <= j < i ==> values[j] == CanConnect(rows[j])
    {
      values := values + [CanConnect(rows[i])];
    }
    assert forall b :: b in values ==> exists i :: 0 <= i < |rows| && CanConnect(rows[i]) == b;
    assert forall i :: 0 <= i < |rows| ==> CanConnect(rows[i]) == values[i];
    if Some(true) in values { return Some(true); }
    if None in values || unobservable { return None; }
    verdict := Some(false);
  }

  ghost function Verdict(rows: seq<Row>, unobservable: bool): Option<bool> {
    if exists i :: 0 <= i < |rows| && CanConnect(rows[i]) == Some(true) then Some(true)
    else if unobservable || exists i :: 0 <= i < |rows| && CanConnect(rows[i]) == None then None
    else Some(false)
  }

  /** Every unknown turns out the same way. */
  ghost function Guess(rows: seq<Row>, b: bool): (truth: seq<seq<bool>>)
    ensures |truth| == |rows| && forall i :: 0 <= i < |rows| ==> truth[i] == GuessRow(rows[i], b)
  {
    seq(|rows|, i requires 0 <= i < |rows| => GuessRow(rows[i], b))
  }

  ghost function GuessRow(row: Row, b: bool): (truth: seq<bool>)
    ensures |truth| == |row| && forall i :: 0 <= i < |row| ==> truth[i] == (if row[i].Some? then row[i].value else b)
  {
    seq(|row|, i requires 0 <= i < |row| => if row[i].Some? then row[i].value else b)
  }

  lemma GuessesResolve(rows: seq<Row>, b: bool)
    ensures Resolves(Guess(rows, b), rows)
  {
    forall i | 0 <= i < |rows| ensures ResolvesRow(Guess(rows, b)[i], rows[i]) {}
  }

  lemma RowIsKleene(row: Row, truth: seq<bool>)
    requires ResolvesRow(truth, row)
    ensures CanConnect(row) == Some(true) ==> AllTrue(truth)
    ensures CanConnect(row) == Some(false) ==> !AllTrue(truth)
    ensures CanConnect(row) == None ==> AllTrue(GuessRow(row, true)) && !AllTrue(GuessRow(row, false))
  {
    if CanConnect(row) == Some(false) {
      var i :| 0 <= i < |row| && row[i] == Some(false);
      assert !truth[i];
    } else if CanConnect(row) == None {
      var i :| 0 <= i < |row| && row[i] == None;
      assert !GuessRow(row, false)[i];
      assert forall j :: 0 <= j < |row| ==> row[j] != Some(false);
    } else {
      assert forall j :: 0 <= j < |row| ==> row[j] != Some(false) && row[j] != None;
    }
  }

  /** A known verdict holds however the unknowns turn out: sound for any number of sockets. */
  lemma VerdictIsSound(rows: seq<Row>, unobservable: bool, truth: seq<seq<bool>>, unseen: bool)
    requires Resolves(truth, rows) && (unseen ==> unobservable)
    requires Verdict(rows, unobservable).Some?
    ensures Verdict(rows, unobservable).value <==> Reaches(truth, unseen)
  {
    forall i | 0 <= i < |rows|
      ensures CanConnect(rows[i]) == Some(true) ==> AllTrue(truth[i])
      ensures CanConnect(rows[i]) == Some(false) ==> !AllTrue(truth[i])
    {
      assert ResolvesRow(truth[i], rows[i]);
      RowIsKleene(rows[i], truth[i]);
    }
  }

  /** An unknown verdict is unavoidable: the unknowns can still turn out either way, even
      when several sockets share a directory. */
  lemma VerdictIsExact(rows: seq<Row>, unobservable: bool)
    requires Verdict(rows, unobservable).None?
    ensures Resolves(Guess(rows, true), rows) && Reaches(Guess(rows, true), unobservable)
    ensures Resolves(Guess(rows, false), rows) && !Reaches(Guess(rows, false), false)
  {
    GuessesResolve(rows, true);
    GuessesResolve(rows, false);
    forall i | 0 <= i < |rows|
      ensures CanConnect(rows[i]) == None ==> AllTrue(Guess(rows, true)[i])
      ensures CanConnect(rows[i]) != Some(true) ==> !AllTrue(Guess(rows, false)[i])
    {
      assert ResolvesRow(Guess(rows, false)[i], rows[i]);
      RowIsKleene(rows[i], Guess(rows, false)[i]);
    }
  }
}
