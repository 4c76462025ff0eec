/**
 Reading the start time out of /proc/<pid>/stat, scripts/linux_proc_identity.py:
 parse_start_ticks.  The command name may contain anything, parentheses and blanks too.
 */
module ProcStat {
  import opened Options

  predicate IsSpace(c: char) {
    c == ' ' || c == '\n' || c == '\t' || c == '\r'
  }

  predicate IsDigits(s: string) {
    s != "" && forall i :: 0 <= i < |s| ==> '0' <= s[i] <= '9'
  }

  /** str.find and str.rfind of one character; the length when it does not occur. */
  function First(s: string, c: char): (k: nat)
    ensures k <= |s| && (k < |s| ==> s[k] == c) && forall i :: 0 <= i < k ==> s[i] != c
  {
    if s == "" || s[0] == c then 0 else 1 + First(s[1..], c)
  }

  function Last(s: string, c: char): (k: nat)
    ensures k <= |s| && (k < |s| ==> s[k] == c && forall i :: k < i < |s| ==> s[i] != c)
    ensures k == |s| ==> forall i :: 0 <= i < |s| ==> s[i] != c
  {
    if s == "" then 0
    else if s[|s| - 1] == c then |s| - 1
    else var k := Last(s[..|s| - 1], c); if k == |s| - 1 then |s| else k
  }

  /** The first word of the text, and str.split() without arguments. */
  function Word(s: string): (n: nat)
    ensures n <= |s| && (forall i :: 0 <= i < n ==> !IsSpace(s[i])) && (n < |s| ==> IsSpace(s[n]))
  {
    if s == "" || IsSpace(s[0]) then 0 else 1 + Word(s[1..])
  }

  function Split(s: string): seq<string>
    decreases |s|
  {
    if s == "" then []
    else if IsSpace(s[0]) then Split(s[1..])
    else [s[..Word(s)]] + Split(s[Word(s)..])
  }

  /** parse_start_ticks: field 22, counted from the last closing parenthesis. */
  function ParseStartTicks(s: string): Option<string> {
    var opening, closing := First(s, '('), Last(s, ')');
    if opening == |s| || opening == 0 || closing == |s| || closing <= opening then None
    else
      var fields := Split(s[closing + 1..]);
      if |fields| < 20 || !IsDigits(fields[19]) then None else Some(fields[19])
  }

  // ---- What the kernel prints ----

  predicate Field(f: string) {
    f != "" && forall i :: 0 <= i < |f| ==> !IsSpace(f[i])
  }

  function Joined(fields: seq<string>): string {
    if fields == [] then "\n" else " " + fields[0] + Joined(fields[1..])
  }

  function Print(pid: string, comm: string, fields: seq<string>): string {
    pid + " (" + comm + ")" + Joined(fields)
  }

  lemma WordOf(f: string, s: string)
    requires Field(f) && s != "" && IsSpace(s[0])
    ensures Word(f + s) == |f|
  {
    var t := f + s;
    assert forall i :: 0 <= i < |f| ==> t[i] == f[i];
    assert t[|f|] == s[0];
  }

  predicate AllFields(fields: seq<string>) {
    forall i :: 0 <= i < |fields| ==> Field(fields[i])
  }

  lemma SplitStep(f: string, s: string)
    requires Field(f) && s != "" && IsSpace(s[0])
    ensures Split(" " + f + s) == [f] + Split(s)
  {
    var u := f + s;
    WordOf(f, s);
    assert (" " + f + s)[1..] == u;
    assert u[0] == f[0] && u[..|f|] == f && u[|f|..] == s;
  }

  lemma {:induction false} SplitOfJoined(fields: seq<string>)
    requires AllFields(fields)
    ensures Joined(fields) != "" && IsSpace(Joined(fields)[0]) && Split(Joined(fields)) == fields
  {
    if fields == [] {
      assert "\n"[1..] == "";
    } else {
      SplitOfJoined(fields[1..]);
      SplitStep(fields[0], Joined(fields[1..]));
    }
  }

  predicate NoClosing(fields: seq<string>) {
    forall i :: 0 <= i < |fields| ==> ')' !in fields[i]
  }

  lemma {:induction false} JoinedHasNoClosing(fields: seq<string>)
    requires NoClosing(fields)
    ensures ')' !in Joined(fields)
  {
    if fields != [] {
      JoinedHasNoClosing(fields[1..]);
      assert ')' !in fields[0];
    }
  }

  /** The answer is read from what follows the last closing parenthesis, whatever precedes it. */
  lemma ReadAfterTheLastClosing(pid: string, comm: string, tail: string)
    requires pid != "" && '(' !in pid && ')' !in tail
    ensures ParseStartTicks(pid + " (" + comm + ")" + tail) == Counted(Split(tail))
  {
    var s := pid + " (" + comm + ")" + tail;
    var open, close := |pid| + 1, |pid| + 2 + |comm|;
    assert s[open] == '(' && s[close] == ')' && s[close + 1..] == tail;
    assert forall i :: 0 <= i < |pid| ==> s[i] == pid[i];
    assert First(s, '(') == open;
    assert forall i :: close < i < |s| ==> s[i] == tail[i - close - 1];
    assert Last(s, ')') == close;
  }

  /** The start time among the fields counted from the state. */
  function Counted(fields: seq<string>): Option<string> {
    if |fields| >= 20 && IsDigits(fields[19]) then Some(fields[19]) else None
  }

  /** The start time survives printing for every command name, exactly when there are enough
      fields and the 22nd is a number. */
  lemma StartTicksSurvive(pid: string, comm: string, fields: seq<string>)
    requires pid != "" && '(' !in pid
    requires AllFields(fields) && NoClosing(fields)
    ensures ParseStartTicks(Print(pid, comm, fields)) ==
            if |fields| >= 20 && IsDigits(fields[19]) then Some(fields[19]) else None
  {
    JoinedHasNoClosing(fields);
    SplitOfJoined(fields);
    ReadAfterTheLastClosing(pid, comm, Joined(fields));
  }

  /** What is printed of some fields before the end of the line. */
  function Lead(fields: seq<string>): string {
    if fields == [] then "" else " " + fields[0] + Lead(fields[1..])
  }

  lemma {:induction false} JoinedAround(before: seq<string>, f: string, after: seq<string>)
    ensures Joined(before + [f] + after) == Lead(before) + " " + f + Joined(after)
  {
    var fields := before + [f] + after;
    if before == [] {
      assert fields[0] == f && fields[1..] == after;
    } else {
      assert fields[0] == before[0] && fields[1..] == before[1..] + [f] + after;
      JoinedAround(before[1..], f, after);
    }
  }

  lemma SplitOfRest(z: string, fields: seq<string>)
    requires AllFields(fields) && forall i :: 0 <= i < |z| ==> !IsSpace(z[i])
    ensures Split(z + Joined(fields)) == if z == "" then fields else [z] + fields
  {
    SplitOfJoined(fields);
    var tail := Joined(fields);
    if z == "" {
      assert z + tail == tail;
    } else {
      WordOf(z, tail);
      assert (z + tail)[0] == z[0] && (z + tail)[..|z|] == z && (z + tail)[|z|..] == tail;
    }
  }

  lemma Regrouped(pid: string, comm: string, lead: string, y: string, z: string, tail: string)
    ensures pid + " (" + comm + ")" + (lead + " " + (y + ")" + z) + tail)
         == pid + " (" + (comm + ")" + lead + " " + y) + ")" + (z + tail)
  {
  }

  lemma FieldAt(before: seq<string>, f: string, after: seq<string>)
    requires AllFields(before + [f] + after)
    ensures Field(f) && AllFields(after)
  {
    var fields := before + [f] + after;
    assert fields[|before|] == f;
    assert forall i :: 0 <= i < |after| ==> after[i] == fields[|before| + 1 + i];
  }

  lemma EndOfField(y: string, z: string)
    requires Field(y + ")" + z)
    ensures forall i :: 0 <= i < |z| ==> !IsSpace(z[i])
  {
    assert forall i :: 0 <= i < |z| ==> z[i] == (y + ")" + z)[|y| + 1 + i];
  }

  /** A closing parenthesis in any later field is taken for the end of the command name: the
      fields are then counted from what follows the last one, however far along that is. */
  lemma LaterClosingShifts(pid: string, comm: string, before: seq<string>, y: string, z: string, after: seq<string>)
    requires pid != "" && '(' !in pid
    requires AllFields(before + [y + ")" + z] + after) && ')' !in z && NoClosing(after)
    ensures var rest := if z == "" then after else [z] + after;
            ParseStartTicks(Print(pid, comm, before + [y + ")" + z] + after)) ==
            if |rest| >= 20 && IsDigits(rest[19]) then Some(rest[19]) else None
  {
    var f := y + ")" + z;
    FieldAt(before, f, after);
    EndOfField(y, z);
    JoinedAround(before, f, after);
    JoinedHasNoClosing(after);
    SplitOfRest(z, after);
    Regrouped(pid, comm, Lead(before), y, z, Joined(after));
    ReadAfterTheLastClosing(pid, comm + ")" + Lead(before) + " " + y, z + Joined(after));
  }
}
