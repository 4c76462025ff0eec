/**
 Reachability in scripts/check_cleanup_contract.py: _reachable_methods walks a stack,
 _owner_gated and _depends_on_parameter recurse and copy the set of names seen on the
 way.  All three run on graphs that may be cyclic.

 Reachability is defined by paths, independently of how the functions search.
 */
module CallGraph {
  type Name = string
  type Graph = map<Name, set<Name>>

  /** Every node but the last has an outgoing edge to the next. */
  ghost predicate IsPath(g: Graph, p: seq<Name>) {
    |p| > 0 && forall i :: 0 <= i < |p| - 1 ==> Edge(g, p[i], p[i + 1])
  }

  ghost predicate Edge(g: Graph, a: Name, b: Name) {
    a in g && b in g[a]
  }

  ghost predicate Avoids(p: seq<Name>, avoid: set<Name>) {
    forall i :: 0 <= i < |p| ==> p[i] !in avoid
  }

  ghost predicate Route(g: Graph, a: Name, goal: set<Name>, avoid: set<Name>, p: seq<Name>) {
    IsPath(g, p) && p[0] == a && p[|p| - 1] in goal && Avoids(p, avoid)
  }

  ghost predicate Reaches(g: Graph, a: Name, goal: set<Name>, avoid: set<Name>) {
    exists p :: Route(g, a, goal, avoid, p)
  }

  /** The last visit to a node of a path. */
  ghost function LastVisit(p: seq<Name>, x: Name): (k: nat)
    requires |p| > 0 && p[0] == x
    ensures k < |p| && p[k] == x && forall i :: k < i < |p| ==> p[i] != x
  {
    if p[|p| - 1] == x then |p| - 1 else LastVisit(p[..|p| - 1], x)
  }

  /** A goal further on is reached exactly through a successor, never coming back here. */
  lemma OneStep(g: Graph, a: Name, goal: set<Name>, avoid: set<Name>)
    requires a !in goal && a !in avoid
    ensures Reaches(g, a, goal, avoid) <==> a in g && exists b :: b in g[a] && Reaches(g, b, goal, avoid + {a})
  {
    if Reaches(g, a, goal, avoid) {
      var p :| Route(g, a, goal, avoid, p);
      var k := LastVisit(p, a);
      assert k < |p| - 1;
      assert Edge(g, p[k], p[k + 1]);
      var q := p[k + 1..];
      forall i | 0 <= i < |q| - 1 ensures Edge(g, q[i], q[i + 1]) {
        var j := k + 1 + i;
        assert Edge(g, p[j], p[j + 1]);
      }
      assert Route(g, p[k + 1], goal, avoid + {a}, q);
    }
    if a in g {
      forall b | b in g[a] && Reaches(g, b, goal, avoid + {a}) ensures Reaches(g, a, goal, avoid) {
        var q :| Route(g, b, goal, avoid + {a}, q);
        var p := [a] + q;
        forall i | 0 <= i < |p| - 1 ensures Edge(g, p[i], p[i + 1]) {
          if i > 0 { assert Edge(g, q[i - 1], q[i]); }
        }
        assert Route(g, a, goal, avoid, p);
      }
    }
  }

  lemma AtGoal(g: Graph, a: Name, goal: set<Name>, avoid: set<Name>)
    requires a in goal && a !in avoid
    ensures Reaches(g, a, goal, avoid)
  {
    assert Route(g, a, goal, avoid, [a]);
  }

  lemma NotFromHere(g: Graph, a: Name, goal: set<Name>, avoid: set<Name>)
    requires a in avoid
    ensures !Reaches(g, a, goal, avoid)
  {
    forall p ensures !Route(g, a, goal, avoid, p) {
      if |p| > 0 && p[0] == a { assert !Avoids(p, avoid); }
    }
  }

  // ---- _owner_gated ----

  /** A function: does its body call the gate, and to which functions does it pass the session. */
  datatype Function = Function(gate: bool, passes: set<Name>)

  /** Session-passing calls between different known functions. */
  ghost function Passing(functions: map<Name, Function>): Graph {
    map n | n in functions :: set c | c in functions[n].passes && c in functions && c != n
  }

  ghost function Gates(functions: map<Name, Function>): set<Name> {
    set n | n in functions && functions[n].gate
  }

  /** True exactly when a gated function is reachable along calls that pass the session. */
  method OwnerGated(name: Name, functions: map<Name, Function>, seen: set<Name>) returns (r: bool)
    ensures r <==> name in functions && Reaches(Passing(functions), name, Gates(functions), seen)
    decreases functions.Keys - seen
  {
    if name in seen {
      NotFromHere(Passing(functions), name, Gates(functions), seen);
      return false;
    }
    if name !in functions { return false; }
    if functions[name].gate {
      AtGoal(Passing(functions), name, Gates(functions), seen);
      return true;
    }
    OneStep(Passing(functions), name, Gates(functions), seen);
    var rest := functions.Keys;
    while rest != {}
      invariant rest <= functions.Keys
      invariant forall c :: c in Passing(functions)[name] && c !in rest ==>
                  !Reaches(Passing(functions), c, Gates(functions), seen + {name})
      decreases rest
    {
      var candidate :| candidate in rest;
      rest := rest - {candidate};
      if candidate != name && candidate in functions[name].passes {
        assert name in functions.Keys - seen;
        var gated := OwnerGated(candidate, functions, seen + {name});
        if gated { return true; }
      }
    }
    r := false;
  }

  // ---- _reachable_methods ----

  /** Calls between the methods of one class. */
  ghost function Calls(methods: map<Name, seq<Name>>): Graph {
    map n | n in methods :: set c | c in methods[n] && c in methods
  }

  /** Exactly the methods reachable from `start`, which is one of them if it exists. */
  method ReachableMethods(methods: map<Name, seq<Name>>, start: Name) returns (reachable: set<Name>)
    ensures forall n :: n in reachable <==> start in methods && Reaches(Calls(methods), start, {n}, {}) && n in methods
  {
    reachable := {};
    var pending := [start];
    AtGoal(Calls(methods), start, {start}, {});
    while pending != []
      invariant reachable <= methods.Keys
      invariant forall n :: n in reachable || (n in pending && n in methods) ==> start in methods && Reaches(Calls(methods), start, {n}, {})
      invariant start in methods ==> start in reachable || start in pending
      invariant forall n, c :: n in reachable && Edge(Calls(methods), n, c) ==> c in reachable || c in pending
      decreases methods.Keys - reachable, |pending|
    {
      var name := pending[|pending| - 1];
      ghost var before := pending;
      pending := pending[..|pending| - 1];
      assert forall c :: c in before ==> c in pending || c == name;
      if name !in reachable && name in methods {
        var called := Known(methods[name], methods.Keys);
        ghost var was := reachable;
        reachable := reachable + {name};
        pending := pending + called;
        forall c | c in called ensures Reaches(Calls(methods), start, {c}, {}) {
          Further(Calls(methods), start, name, c);
        }
        assert forall c :: Edge(Calls(methods), name, c) ==> c in called;
        assert name in methods.Keys - was;
      }
    }
    if start in methods {
      forall n | Reaches(Calls(methods), start, {n}, {}) ensures n in reachable {
        var p :| Route(Calls(methods), start, {n}, {}, p);
        StaysInside(Calls(methods), p, reachable);
      }
    }
  }

  function Known(calls: seq<Name>, methods: set<Name>): (r: seq<Name>)
    ensures forall c :: c in r <==> c in calls && c in methods
  {
    if calls == [] then []
    else if calls[0] in methods then [calls[0]] + Known(calls[1..], methods) else Known(calls[1..], methods)
  }

  lemma Further(g: Graph, a: Name, b: Name, c: Name)
    requires Reaches(g, a, {b}, {}) && Edge(g, b, c)
    ensures Reaches(g, a, {c}, {})
  {
    var p :| Route(g, a, {b}, {}, p);
    var q := p + [c];
    forall i | 0 <= i < |q| - 1 ensures Edge(g, q[i], q[i + 1]) {
      if i < |p| - 1 { assert Edge(g, p[i], p[i + 1]); }
    }
    assert Route(g, a, {c}, {}, q);
  }

  lemma {:induction false} StaysInside(g: Graph, p: seq<Name>, inside: set<Name>)
    requires IsPath(g, p) && p[0] in inside
    requires forall n, c :: n in inside && Edge(g, n, c) ==> c in inside
    ensures p[|p| - 1] in inside
  {
    if |p| > 1 {
      assert Edge(g, p[0], p[1]);
      var q := p[1..];
      forall i | 0 <= i < |q| - 1 ensures Edge(g, q[i], q[i + 1]) {
        assert Edge(g, p[i + 1], p[i + 2]);
      }
      StaysInside(g, q, inside);
    }
  }

  // ---- _depends_on_parameter ----

  /** An expression: a name, or anything else with its children. */
  datatype Node = Id(name: Name) | Inner(children: seq<Node>)

  function Names(n: Node): set<Name> {
    match n
    case Id(name) => {name}
    case Inner(children) => set c, x | c in children && x in Names(c) :: x
  }

  /** From an assigned name to the names in the last value assigned to it. */
  ghost function Uses(assignments: map<Name, Node>): Graph {
    map x | x in assignments :: Names(assignments[x])
  }

  predicate Depends(n: Node, parameter: Name, assignments: map<Name, Node>, seen: set<Name>)
    decreases assignments.Keys - seen, n
  {
    match n
    case Id(name) =>
      name == parameter
      || (name in assignments && name !in seen
          && assert name in assignments.Keys - seen;
             Depends(assignments[name], parameter, assignments, seen + {name}))
    case Inner(children) => exists i :: 0 <= i < |children| && Depends(children[i], parameter, assignments, seen)
  }

  /** The expression depends on the parameter exactly when one of its names reaches it
      through assignments, whatever cycles there are. */
  lemma {:induction false} DependsIsReachability(n: Node, parameter: Name, assignments: map<Name, Node>, seen: set<Name>)
    requires parameter !in seen
    ensures Depends(n, parameter, assignments, seen) <==>
            exists x :: x in Names(n) && Reaches(Uses(assignments), x, {parameter}, seen)
    decreases assignments.Keys - seen, n
  {
    var g := Uses(assignments);
    match n
    case Id(x) =>
      if x == parameter {
        AtGoal(g, x, {parameter}, seen);
      } else if x in seen {
        NotFromHere(g, x, {parameter}, seen);
      } else {
        OneStep(g, x, {parameter}, seen);
        if x in assignments {
          assert x in assignments.Keys - seen;
          DependsIsReachability(assignments[x], parameter, assignments, seen + {x});
        }
      }
      assert forall y :: y in Names(n) <==> y == x;
    case Inner(children) =>
      forall i | 0 <= i < |children|
        ensures Depends(children[i], parameter, assignments, seen) <==>
                exists x :: x in Names(children[i]) && Reaches(g, x, {parameter}, seen)
      {
        DependsIsReachability(children[i], parameter, assignments, seen);
      }
      assert forall i :: 0 <= i < |children| ==> Names(children[i]) <= Names(n);
  }
}
