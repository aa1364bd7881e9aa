/**
 * The graph of category parent links. Links are never checked for cycles when a category is
 * re-parented, so which categories a tree can show is a property of this graph.
 */
module CategoryGraph {
  import opened Prelude

  /** Each active category with the parent it is linked under, None for a root. */
  type Links = map<string, Option<string>>

  ghost predicate Closed(up: Links) {
    forall c :: c in up && up[c].Some? ==> up[c].value in up
  }

  /** Climbing `n` parents from `c` arrives at `a`. */
  ghost predicate ClimbsIn(up: Links, c: string, a: string, n: nat)
    decreases n
  {
    c in up && if n == 0 then c == a else up[c].Some? && ClimbsIn(up, up[c].value, a, n - 1)
  }

  ghost predicate Climbs(up: Links, c: string, a: string) {
    exists n: nat :: ClimbsIn(up, c, a, n)
  }

  ghost predicate OnCycle(up: Links, c: string) {
    exists n: nat :: n > 0 && ClimbsIn(up, c, c, n)
  }

  /** The parent chain of `c` ends at a root. */
  ghost predicate Grounded(up: Links, c: string) {
    exists r :: r in up && Climbs(up, c, r) && up[r].None?
  }

  lemma {:induction false} ClimbsEnd(up: Links, c: string, a: string, n: nat)
    requires Closed(up) && ClimbsIn(up, c, a, n)
    ensures a in up
    decreases n
  {
    if n > 0 {
      ClimbsEnd(up, up[c].value, a, n - 1);
    }
  }

  lemma {:induction false} ClimbsTogether(up: Links, c: string, a: string, b: string, m: nat, n: nat)
    requires ClimbsIn(up, c, a, m) && ClimbsIn(up, a, b, n)
    ensures ClimbsIn(up, c, b, m + n)
    decreases m
  {
    if m > 0 {
      ClimbsTogether(up, up[c].value, a, b, m - 1, n);
    }
  }

  /** A chain is determined by its start: of two points on it, one is above the other. */
  lemma {:induction false} ClimbsAgree(up: Links, c: string, a: string, b: string, m: nat, n: nat)
    requires ClimbsIn(up, c, a, m) && ClimbsIn(up, c, b, n) && m <= n
    ensures ClimbsIn(up, a, b, n - m)
    decreases m
  {
    if m > 0 {
      ClimbsAgree(up, up[c].value, a, b, m - 1, n - 1);
    }
  }

  /** Going round a cycle any number of times. */
  lemma {:induction false} CycleClimbs(up: Links, a: string, n: nat, k: nat)
    requires ClimbsIn(up, a, a, n)
    ensures ClimbsIn(up, a, a, k * n)
    decreases k
  {
    if k > 0 {
      CycleClimbs(up, a, n, k - 1);
      ClimbsTogether(up, a, a, a, n, (k - 1) * n);
      assert n + (k - 1) * n == k * n;
    }
  }

  lemma AtLeast(m: nat, k: nat)
    requires k > 0
    ensures m * k >= m
  {
  }

  /** A category is missing from every chain that ends exactly when it is on or below a cycle. */
  lemma GroundedIffNoCycleAbove(up: Links, c: string)
    requires Closed(up) && c in up
    ensures Grounded(up, c) <==> !exists a :: Climbs(up, c, a) && OnCycle(up, a)
  {
    if Grounded(up, c) {
      var r :| r in up && Climbs(up, c, r) && up[r].None?;
      var n: nat :| ClimbsIn(up, c, r, n);
      forall a | Climbs(up, c, a)
        ensures !OnCycle(up, a)
      {
        var m: nat :| ClimbsIn(up, c, a, m);
        if OnCycle(up, a) {
          var k: nat :| k > 0 && ClimbsIn(up, a, a, k);
          CycleClimbs(up, a, k, n + 1);
          AtLeast(n + 1, k);
          ClimbsTogether(up, c, a, a, m, (n + 1) * k);
          ClimbsAgree(up, c, r, a, n, m + (n + 1) * k);
          ClimbsEnd(up, c, r, n);
        }
      }
    } else {
      assert ClimbsIn(up, c, c, 0);
      var a := CycleAbove(up, c, c, []);
    }
  }

  /** Climbing from an ungrounded category must repeat itself, since there are finitely many. */
  lemma CycleAbove(up: Links, c: string, at: string, seen: seq<string>) returns (a: string)
    requires Closed(up) && c in up && !Grounded(up, c)
    requires ClimbsIn(up, c, at, |seen|)
    requires forall i :: 0 <= i < |seen| ==> ClimbsIn(up, c, seen[i], i)
    requires forall i, j :: 0 <= i < j < |seen| ==> seen[i] != seen[j]
    ensures Climbs(up, c, a) && OnCycle(up, a)
    decreases |up| + 1 - |seen|
  {
    ClimbsEnd(up, c, at, |seen|);
    if at in seen {
      var i :| 0 <= i < |seen| && seen[i] == at;
      ClimbsAgree(up, c, at, at, i, |seen|);
      a := at;
    } else {
      assert Climbs(up, c, at);
      var next := up[at].value;
      assert ClimbsIn(up, at, next, 1);
      ClimbsTogether(up, c, at, next, |seen|, 1);
      var more := seen + [at];
      forall i | 0 <= i < |more|
        ensures more[i] in up.Keys
      {
        ClimbsEnd(up, c, more[i], i);
      }
      DistinctFits(more, up.Keys);
      a := CycleAbove(up, c, next, more);
    }
  }

  lemma {:induction false} DistinctFits(s: seq<string>, keys: set<string>)
    requires forall i :: 0 <= i < |s| ==> s[i] in keys
    requires forall i, j :: 0 <= i < j < |s| ==> s[i] != s[j]
    ensures |s| <= |keys|
  {
    if |s| > 0 {
      DistinctFits(s[..|s| - 1], keys - {s[|s| - 1]});
    }
  }

  // ---------------------------------------------------------------------------------------------
  // Where a category appears in the returned forest
  // ---------------------------------------------------------------------------------------------

  /** A way down from a root, each category under its own parent. */
  ghost predicate Way(up: Links, p: seq<string>) {
    && |p| > 0 && (forall i :: 0 <= i < |p| ==> p[i] in up)
    && up[p[0]].None?
    && (forall i :: 0 < i < |p| ==> up[p[i]] == Some(p[i - 1]))
  }

  /** A category has a way down to it exactly when its parent chain ends. */
  lemma WayIffGrounded(up: Links, c: string)
    requires Closed(up) && c in up
    ensures Grounded(up, c) <==> exists p :: Way(up, p) && p[|p| - 1] == c
  {
    if Grounded(up, c) {
      var r :| r in up && Climbs(up, c, r) && up[r].None?;
      var n: nat :| ClimbsIn(up, c, r, n);
      var p := WayDown(up, c, r, n);
    }
    if exists p :: Way(up, p) && p[|p| - 1] == c {
      var p :| Way(up, p) && p[|p| - 1] == c;
      WayUp(up, p);
    }
  }

  lemma {:induction false} WayDown(up: Links, c: string, r: string, n: nat) returns (p: seq<string>)
    requires Closed(up) && ClimbsIn(up, c, r, n) && r in up && up[r].None?
    ensures Way(up, p) && p[|p| - 1] == c
    decreases n
  {
    if n == 0 {
      p := [c];
    } else {
      var q := WayDown(up, up[c].value, r, n - 1);
      p := q + [c];
    }
  }

  lemma {:induction false} WayUp(up: Links, p: seq<string>)
    requires Way(up, p)
    ensures ClimbsIn(up, p[|p| - 1], p[0], |p| - 1) && Grounded(up, p[|p| - 1])
    decreases |p|
  {
    if |p| > 1 {
      var q := p[..|p| - 1];
      WayUp(up, q);
      assert up[p[|p| - 1]] == Some(q[|q| - 1]);
    }
    assert ClimbsIn(up, p[|p| - 1], p[0], |p| - 1);
    assert Climbs(up, p[|p| - 1], p[0]);
  }

  /** There is never a second way down to the same category: it appears once. */
  lemma {:induction false} WayIsUnique(up: Links, p: seq<string>, q: seq<string>)
    requires Way(up, p) && Way(up, q) && p[|p| - 1] == q[|q| - 1]
    ensures p == q
  {
    assert |p| > 1 ==> up[p[|p| - 1]] == Some(p[|p| - 2]);
    assert |q| > 1 ==> up[q[|q| - 1]] == Some(q[|q| - 2]);
    if |p| > 1 && |q| > 1 {
      WayIsUnique(up, p[..|p| - 1], q[..|q| - 1]);
      assert p == p[..|p| - 1] + [p[|p| - 1]] && q == q[..|q| - 1] + [q[|q| - 1]];
    }
  }

  /** No category is `n` or more levels below `a`. */
  ghost predicate LowerThan(up: Links, a: string, n: nat) {
    forall d: string, k: nat :: ClimbsIn(up, d, a, k) ==> k < n
  }

  /** Nothing is as many levels below a root as there are categories. */
  lemma RootsAreShallow(up: Links, r: string)
    requires Closed(up) && r in up && up[r].None?
    ensures LowerThan(up, r, |up|)
  {
    forall d: string, k: nat | ClimbsIn(up, d, r, k)
      ensures k < |up|
    {
      var p := WayDown(up, d, r, k);
      LongWay(up, p);
      WayUp(up, p);
      var m := |p| - 1;
      if m < k {
        ClimbsAgree(up, d, p[0], r, m, k);
      }
    }
  }

  /** A way down visits distinct categories. */
  lemma LongWay(up: Links, p: seq<string>)
    requires Closed(up) && Way(up, p)
    ensures |p| <= |up|
  {
    forall i, j | 0 <= i < j < |p|
      ensures p[i] != p[j]
    {
      if p[i] == p[j] {
        WayIsUnique(up, p[..i + 1], p[..j + 1]);
      }
    }
    DistinctFits(p, up.Keys);
  }

  /** Climbing to `a` from elsewhere passes through one of its children. */
  lemma {:induction false} ClimbsThroughKid(up: Links, d: string, a: string, n: nat) returns (c: string)
    requires Closed(up) && n > 0 && ClimbsIn(up, d, a, n)
    ensures c in up && up[c] == Some(a) && ClimbsIn(up, d, c, n - 1)
    decreases n
  {
    if n == 1 {
      c := d;
    } else {
      c := ClimbsThroughKid(up, up[d].value, a, n - 1);
    }
  }
}
