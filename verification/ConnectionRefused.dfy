// Does an exception, or anything it was caused by, say that a connection was refused? The
// exceptions form a finite graph that may contain cycles.
module ConnectionRefused {
  import opened Options

  /** An exception object; `text` is its lower-cased message and `args` marks the arguments that
      are exceptions themselves. */
  datatype Exc = Exc(errno: Option<int>, text: string, args: seq<Option<nat>>, cause: Option<nat>, context: Option<nat>)

  type Graph = map<nat, Exc>

  predicate Contains(s: string, t: string)
  {
    exists i :: 0 <= i <= |s| && t <= s[i..]
  }

  predicate Refused(e: Exc)
  {
    || (e.errno.Some? && e.errno.value in {61, 111})
    || Contains(e.text, "connection refused") || Contains(e.text, "connect call failed")
  }

  /** Arguments first, then cause, then context. */
  function Nested(e: Exc): seq<Option<nat>>
  {
    e.args + [e.cause, e.context]
  }

  predicate Links(g: Graph, a: nat, b: nat)
  {
    a in g && Some(b) in Nested(g[a])
  }

  predicate LeadsTo(e: Exc, b: nat)
  {
    Some(b) in e.args || e.cause == Some(b) || e.context == Some(b)
  }

  /** One exception leads to another through an argument, its cause or its context. */
  lemma LinksAre(g: Graph, a: nat, b: nat)
    ensures Links(g, a, b) <==>
            a in g && LeadsTo(g[a], b)
  {
  }

  /** A refused exception has one of the two error numbers or one of the two phrases in its text. */
  lemma RefusedIs(e: Exc)
    ensures Refused(e) <==>
            || e.errno == Some(61) || e.errno == Some(111)
            || (exists a, b :: e.text == a + "connection refused" + b)
            || (exists a, b :: e.text == a + "connect call failed" + b)
  {
    ContainsIs(e.text, "connection refused");
    ContainsIs(e.text, "connect call failed");
  }

  lemma ContainsIs(s: string, t: string)
    ensures Contains(s, t) <==> exists a, b :: s == a + t + b
  {
    if i :| 0 <= i <= |s| && t <= s[i..] {
      assert s == s[..i] + t + s[i..][|t|..];
    }
    if a, b :| s == a + t + b {
      assert s[|a|..] == t + b;
    }
  }

  ghost predicate Closed(g: Graph)
  {
    forall a, b :: Links(g, a, b) ==> b in g
  }

  ghost predicate Chain(g: Graph, p: seq<nat>, a: nat, b: nat)
  {
    && p != [] && p[0] == a && p[|p| - 1] == b
    && forall i, j :: 0 <= i && j == i + 1 && j < |p| ==> Links(g, p[i], p[j])
  }

  ghost predicate Reaches(g: Graph, a: nat, b: nat)
  {
    exists p :: Chain(g, p, a, b)
  }

  lemma ReachesSelf(g: Graph, a: nat)
    ensures Reaches(g, a, a)
  {
    assert Chain(g, [a], a, a);
  }

  lemma ReachesNext(g: Graph, a: nat, b: nat, c: nat)
    requires Reaches(g, a, b) && Links(g, b, c)
    ensures Reaches(g, a, c)
  {
    var p :| Chain(g, p, a, b);
    var q := p + [c];
    forall i, j | 0 <= i && j == i + 1 && j < |q|
      ensures Links(g, q[i], q[j])
    {
      if j < |p| { assert Links(g, p[i], p[j]); }
    }
    assert Chain(g, q, a, c);
  }

  lemma DirectlyReached(g: Graph, a: nat, b: nat)
    requires a in g && LeadsTo(g[a], b)
    ensures Reaches(g, a, b)
  {
    ReachesSelf(g, a);
    LinksAre(g, a, b);
    ReachesNext(g, a, a, b);
  }

  /** A set closed under links holds everything reachable from its members. */
  lemma {:induction false} ClosedSetHoldsReach(g: Graph, seen: set<nat>, p: seq<nat>, a: nat, b: nat)
    requires a in seen && Chain(g, p, a, b)
    requires forall x, y :: x in seen && Links(g, x, y) ==> y in seen
    ensures b in seen
    decreases |p|
  {
    if |p| > 1 {
      assert Links(g, p[0], p[1]);
      var q := p[1..];
      forall i, j | 0 <= i && j == i + 1 && j < |q|
        ensures Links(g, q[i], q[j])
      {
        assert Links(g, p[i + 1], p[j + 1]);
      }
      ClosedSetHoldsReach(g, seen, q, p[1], b);
    }
  }

  /** The exceptions pushed for one visited node. */
  function Present(xs: seq<Option<nat>>): seq<nat>
  {
    if xs == [] then [] else (if xs[0].Some? then [xs[0].value] else []) + Present(xs[1..])
  }

  lemma {:induction false} PresentIs(xs: seq<Option<nat>>, x: nat)
    ensures x in Present(xs) <==> Some(x) in xs
  {
    if xs != [] {
      PresentIs(xs[1..], x);
      assert xs == [xs[0]] + xs[1..];
    }
  }

  /** True exactly when a refused exception can be reached through arguments, causes and
      contexts; the search ends on every finite graph, cyclic or not. */
  method IsConnectionRefused(g: Graph, exc: nat) returns (r: bool)
    requires Closed(g) && exc in g
    ensures r <==> exists b :: b in g && Reaches(g, exc, b) && Refused(g[b])
    ensures forall b :: b in g && Refused(g[b]) && LeadsTo(g[exc], b) ==> r
    ensures Refused(g[exc]) ==> r
  {
    forall b | LeadsTo(g[exc], b) ensures Reaches(g, exc, b) { DirectlyReached(g, exc, b); }
    var seen: set<nat>, stack: seq<nat> := {}, [exc];
    ReachesSelf(g, exc);
    while stack != []
      invariant seen <= g.Keys
      invariant forall x :: x in seen ==> !Refused(g[x])
      invariant forall x :: x in stack ==> x in g && Reaches(g, exc, x)
      invariant forall x, y :: x in seen && Links(g, x, y) ==> y in seen || y in stack
      invariant exc in seen || exc in stack
      decreases |g.Keys - seen|, |stack|
    {
      var current := stack[|stack| - 1];
      assert forall x :: x in stack ==> x == current || x in stack[..|stack| - 1];
      stack := stack[..|stack| - 1];
      if current in seen {
        continue;
      }
      assert g.Keys - seen == (g.Keys - (seen + {current})) + {current};
      seen := seen + {current};
      if Refused(g[current]) {
        return true;
      }
      var nested := Present(Nested(g[current]));
      forall y
        ensures y in nested <==> Links(g, current, y)
        ensures y in nested ==> Reaches(g, exc, y)
      {
        PresentIs(Nested(g[current]), y);
        if y in nested { ReachesNext(g, exc, current, y); }
      }
      stack := stack + nested;
    }
    forall b | b in g && Reaches(g, exc, b)
      ensures !Refused(g[b])
    {
      var p :| Chain(g, p, exc, b);
      ClosedSetHoldsReach(g, seen, p, exc, b);
    }
    return false;
  }
}
