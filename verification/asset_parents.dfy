/**
 The parent-child relationships between assets and the walk that guards new ones. The walk
 follows one parent row per asset, whichever the store returns first.
 */
module AssetParents {
  import opened Wrappers

  type Id = nat

  /** A row (p, c) makes p a parent of c. */
  type Edges = set<(Id, Id)>

  /** path goes from an asset to a parent at each step. */
  ghost predicate Climbs(edges: Edges, path: seq<Id>) {
    |path| > 0 && forall k :: 0 <= k < |path| - 1 ==> (path[k + 1], path[k]) in edges
  }

  ghost predicate ClimbsFromTo(edges: Edges, path: seq<Id>, a: Id, b: Id) {
    Climbs(edges, path) && path[0] == a && path[|path| - 1] == b
  }

  /** b is a or an ancestor of a. */
  ghost predicate Reaches(edges: Edges, a: Id, b: Id) {
    exists path :: ClimbsFromTo(edges, path, a, b)
  }

  ghost predicate Acyclic(edges: Edges) {
    forall path :: Climbs(edges, path) && |path| > 1 ==> path[0] != path[|path| - 1]
  }

  predicate HasParent(edges: Edges, c: Id) {
    exists e :: e in edges && e.1 == c
  }

  ghost predicate OneParent(edges: Edges, c: Id) {
    forall p, q :: (p, c) in edges && (q, c) in edges ==> p == q
  }

  lemma JoinClimbs(edges: Edges, first: seq<Id>, second: seq<Id>)
    requires Climbs(edges, first) && Climbs(edges, second) && first[|first| - 1] == second[0]
    ensures Climbs(edges, first + second[1..])
    ensures (first + second[1..])[|first + second[1..]| - 1] == second[|second| - 1]
  {
    var path := first + second[1..];
    forall k | 0 <= k < |path| - 1 ensures (path[k + 1], path[k]) in edges {
      if k < |first| - 1 {
        assert (first[k + 1], first[k]) in edges;
      } else {
        assert (second[k - |first| + 2], second[k - |first| + 1]) in edges;
      }
    }
  }

  lemma ReachesTransitive(edges: Edges, a: Id, b: Id, c: Id)
    requires Reaches(edges, a, b) && Reaches(edges, b, c)
    ensures Reaches(edges, a, c)
  {
    var first :| ClimbsFromTo(edges, first, a, b);
    var second :| ClimbsFromTo(edges, second, b, c);
    JoinClimbs(edges, first, second);
    assert ClimbsFromTo(edges, first + second[1..], a, c);
  }

  /** A climb after a row (p, c) is added either avoids the row or splits at its first and last use. */
  lemma {:induction false} ClimbSplits(edges: Edges, p: Id, c: Id, path: seq<Id>)
    requires Climbs(edges + {(p, c)}, path)
    ensures Climbs(edges, path) || (Reaches(edges, path[0], c) && Reaches(edges, p, path[|path| - 1]))
    decreases |path|
  {
    if |path| > 1 {
      var rest := path[1..];
      forall k | 0 <= k < |rest| - 1 ensures (rest[k + 1], rest[k]) in edges + {(p, c)} {
        assert (path[k + 2], path[k + 1]) in edges + {(p, c)};
      }
      ClimbSplits(edges, p, c, rest);
      assert (path[1], path[0]) in edges + {(p, c)};
      if (path[1], path[0]) in edges {
        if Climbs(edges, rest) {
          forall k | 0 <= k < |path| - 1 ensures (path[k + 1], path[k]) in edges {
            if k > 0 { assert (rest[k], rest[k - 1]) in edges; }
          }
        } else {
          assert ClimbsFromTo(edges, path[..2], path[0], rest[0]);
          ReachesTransitive(edges, path[0], rest[0], c);
        }
      } else {
        assert ClimbsFromTo(edges, [c], c, c);
        if Climbs(edges, rest) {
          assert ClimbsFromTo(edges, rest, p, path[|path| - 1]);
        }
      }
    }
  }

  /** A new row keeps the hierarchy acyclic exactly when the child is not the parent or one of its ancestors. */
  lemma NewRowKeepsAcyclicIff(edges: Edges, p: Id, c: Id)
    requires Acyclic(edges)
    ensures Acyclic(edges + {(p, c)}) <==> !Reaches(edges, p, c)
  {
    var more := edges + {(p, c)};
    if Reaches(edges, p, c) {
      var path :| ClimbsFromTo(edges, path, p, c);
      var loop := [c] + path;
      forall k | 0 <= k < |loop| - 1 ensures (loop[k + 1], loop[k]) in more {
        if k > 0 { assert (path[k], path[k - 1]) in edges; }
      }
      assert Climbs(more, loop) && |loop| > 1 && loop[0] == loop[|loop| - 1];
    } else {
      forall path | Climbs(more, path) && |path| > 1 ensures path[0] != path[|path| - 1] {
        ClimbSplits(edges, p, c, path);
        if path[0] == path[|path| - 1] && Reaches(edges, path[0], c) && Reaches(edges, p, path[0]) {
          ReachesTransitive(edges, p, path[0], c);
        }
      }
    }
  }

  lemma NoRowsNoCycles(edges: Edges)
    ensures Acyclic(edges) || edges != {}
  {
    forall path | Climbs(edges, path) && |path| > 1 ensures edges != {} {
      assert (path[0 + 1], path[0]) in edges;
    }
  }

  lemma FewerRowsKeepAcyclic(edges: Edges, fewer: Edges)
    requires Acyclic(edges) && fewer <= edges
    ensures Acyclic(fewer)
  {
    forall path | Climbs(fewer, path) ensures Climbs(edges, path) {}
  }

  // ------------------------------------------------------------------
  // The walk
  // ------------------------------------------------------------------

  ghost predicate Distinct(path: seq<Id>) {
    forall i, j :: 0 <= i < j < |path| ==> path[i] != path[j]
  }

  /** The assets the walk has seen, in order: a climb from the parent that has not met the child. */
  ghost predicate Walked(edges: Edges, parent: Id, child: Id, path: seq<Id>) {
    && Climbs(edges, path) && path[0] == parent && Distinct(path)
    && forall k :: 1 <= k < |path| ==> path[k] != child
  }

  /** The walk may end quietly at an asset without a parent. */
  ghost predicate EndsQuietly(edges: Edges, parent: Id, child: Id, path: seq<Id>) {
    Walked(edges, parent, child, path) && !HasParent(edges, path[|path| - 1])
  }

  /** The walk may end at a row whose parent is the child or was seen before. */
  ghost predicate EndsInAlarm(edges: Edges, parent: Id, child: Id, path: seq<Id>, next: Id) {
    Walked(edges, parent, child, path) && (next, path[|path| - 1]) in edges && (next == child || next in path)
  }

  datatype Created = SelfReference | CycleDetected | Existing | Added

  class AssetRelationships {
    var edges: Edges

    constructor ()
      ensures edges == {}
    {
      edges := {};
    }

    method AssertNoParentCycle(parent: Id, child: Id) returns (cycle: bool)
      ensures !cycle ==> exists path :: EndsQuietly(edges, parent, child, path)
      ensures cycle ==> exists path, next :: EndsInAlarm(edges, parent, child, path, next)
    {
      var seen, cursor := {parent}, parent;
      ghost var path := [parent];
      ghost var sources := set e | e in edges :: e.0;
      while true
        invariant Walked(edges, parent, child, path) && path[|path| - 1] == cursor
        invariant forall id :: id in seen <==> id in path
        decreases sources - seen
      {
        if !exists e :: e in edges && e.1 == cursor {
          assert EndsQuietly(edges, parent, child, path);
          return false;
        }
        var row :| row in edges && row.1 == cursor;
        if row.0 == child || row.0 in seen {
          assert EndsInAlarm(edges, parent, child, path, row.0);
          return true;
        }
        assert row.0 in sources;
        seen, cursor, path := seen + {row.0}, row.0, path + [row.0];
      }
    }

    method CreateRelationship(parent: Id, child: Id) returns (r: Created)
      modifies this
      ensures r == SelfReference <==> parent == child
      ensures r == Existing <==> parent != child && (parent, child) in old(edges)
      ensures edges == if r == Added then old(edges) + {(parent, child)} else old(edges)
      ensures r == Added ==> exists path :: EndsQuietly(old(edges), parent, child, path)
      ensures r == CycleDetected ==> exists path, next :: EndsInAlarm(old(edges), parent, child, path, next)
    {
      if parent == child {
        return SelfReference;
      }
      if (parent, child) in edges {
        return Existing;
      }
      var cycle := AssertNoParentCycle(parent, child);
      if cycle {
        return CycleDetected;
      }
      edges := edges + {(parent, child)};
      return Added;
    }

    method DeleteRelationship(parent: Id, child: Id) returns (found: bool)
      modifies this
      ensures found <==> (parent, child) in old(edges)
      ensures edges == old(edges) - {(parent, child)}
    {
      found := (parent, child) in edges;
      edges := edges - {(parent, child)};
    }
  }

  // ------------------------------------------------------------------
  // What the walk decides
  // ------------------------------------------------------------------

  lemma ClimbsAreDistinct(edges: Edges, path: seq<Id>)
    requires Acyclic(edges) && Climbs(edges, path)
    ensures Distinct(path)
  {
    forall i, j | 0 <= i < j < |path| ensures path[i] != path[j] {
      var part := path[i..j + 1];
      forall k | 0 <= k < |part| - 1 ensures (part[k + 1], part[k]) in edges {
        assert (path[i + k + 1], path[i + k]) in edges;
      }
      assert Climbs(edges, part) && part[0] == path[i] && part[|part| - 1] == path[j];
    }
  }

  /** In an acyclic hierarchy an alarm is never false, however many parents an asset has. */
  lemma AlarmsAreTrue(edges: Edges, parent: Id, child: Id, path: seq<Id>, next: Id)
    requires Acyclic(edges) && EndsInAlarm(edges, parent, child, path, next)
    ensures Reaches(edges, parent, child)
  {
    var longer := path + [next];
    ClimbsAreDistinct(edges, longer);
    forall i | 0 <= i < |path| ensures path[i] != next {
      assert longer[i] != longer[|path|];
    }
    assert ClimbsFromTo(edges, longer, parent, child);
  }

  /** A quiet walk has passed every ancestor, if each asset it passed has one parent row. */
  lemma {:induction false} QuietWalkPassedAll(edges: Edges, parent: Id, child: Id, path: seq<Id>, climb: seq<Id>)
    requires EndsQuietly(edges, parent, child, path) && (forall k :: 0 <= k < |path| ==> OneParent(edges, path[k]))
    requires Climbs(edges, climb) && climb[0] == parent
    ensures |climb| <= |path| && climb == path[..|climb|]
    decreases |climb|
  {
    var n := |climb| - 1;
    if n > 0 {
      var shorter := climb[..n];
      assert Climbs(edges, shorter);
      QuietWalkPassedAll(edges, parent, child, path, shorter);
      assert (climb[n], climb[n - 1]) in edges && climb[n - 1] == shorter[n - 1] == path[n - 1];
      assert n < |path|;
      assert (path[n], path[n - 1]) in edges && OneParent(edges, path[n - 1]);
      assert climb == shorter + [climb[n]];
    }
  }

  lemma QuietWalkAvoids(edges: Edges, parent: Id, child: Id, path: seq<Id>)
    requires EndsQuietly(edges, parent, child, path) && (forall k :: 0 <= k < |path| ==> OneParent(edges, path[k]))
    requires parent != child
    ensures !Reaches(edges, parent, child)
  {
    forall climb ensures !ClimbsFromTo(edges, climb, parent, child) {
      if Climbs(edges, climb) && climb[0] == parent {
        QuietWalkPassedAll(edges, parent, child, path, climb);
        assert climb[|climb| - 1] == path[|climb| - 1];
      }
    }
  }

  /**
   On an acyclic hierarchy where each ancestor of the parent has at most one parent row, the walk
   raises the alarm exactly when the child is an ancestor of the parent, that is, exactly when the
   new row would close a cycle.
   */
  lemma WalkIsExact(edges: Edges, parent: Id, child: Id)
    requires Acyclic(edges) && parent != child
    requires forall a :: Reaches(edges, parent, a) ==> OneParent(edges, a)
    ensures (exists path, next :: EndsInAlarm(edges, parent, child, path, next)) ==> !Acyclic(edges + {(parent, child)})
    ensures (exists path :: EndsQuietly(edges, parent, child, path)) ==> Acyclic(edges + {(parent, child)})
  {
    NewRowKeepsAcyclicIff(edges, parent, child);
    if path, next :| EndsInAlarm(edges, parent, child, path, next) {
      AlarmsAreTrue(edges, parent, child, path, next);
    }
    if path :| EndsQuietly(edges, parent, child, path) {
      forall k | 0 <= k < |path| ensures OneParent(edges, path[k]) {
        assert ClimbsFromTo(edges, path[..k + 1], parent, path[k]);
      }
      QuietWalkAvoids(edges, parent, child, path);
    }
  }

  /** A way up from the parent to an asset without parents that avoids the child. */
  ghost predicate ClimbsPast(edges: Edges, parent: Id, child: Id, path: seq<Id>) {
    Climbs(edges, path) && path[0] == parent && !HasParent(edges, path[|path| - 1]) && child !in path
  }

  /**
   On any acyclic hierarchy the walk may accept a row that closes a cycle exactly when the child is
   an ancestor of the parent and some way up from the parent to a topmost asset avoids it.
   */
  lemma WalkMayMissIff(edges: Edges, parent: Id, child: Id)
    requires Acyclic(edges) && parent != child
    ensures (exists path :: EndsQuietly(edges, parent, child, path)) && !Acyclic(edges + {(parent, child)})
      <==> Reaches(edges, parent, child) && exists path :: ClimbsPast(edges, parent, child, path)
  {
    NewRowKeepsAcyclicIff(edges, parent, child);
    if path :| EndsQuietly(edges, parent, child, path) {
      assert ClimbsPast(edges, parent, child, path);
    }
    if path :| ClimbsPast(edges, parent, child, path) {
      ClimbsAreDistinct(edges, path);
      assert EndsQuietly(edges, parent, child, path);
    }
  }

  /** Asset 2 has parents 1 and 3; following 3, the walk lets 1 become a child of 2. */
  lemma SecondParentHidesACycle()
    ensures var edges := {(1, 2), (3, 2)};
      Acyclic(edges) && EndsQuietly(edges, 2, 1, [2, 3]) && !Acyclic(edges + {(2, 1)})
  {
    var edges := {(1, 2), (3, 2)};
    forall path | Climbs(edges, path) && |path| > 1 ensures path[0] != path[|path| - 1] {
      assert (path[1], path[0]) in edges;
      assert (path[|path| - 2 + 1], path[|path| - 2]) in edges;
    }
    assert ClimbsFromTo(edges, [2, 1], 2, 1);
    NewRowKeepsAcyclicIff(edges, 2, 1);
  }

  // ------------------------------------------------------------------
  // Runs
  // ------------------------------------------------------------------

  datatype Op = Create(parent: Id, child: Id) | Delete(parent: Id, child: Id)

  /** What an operation may leave, given any choice of parent rows by the walk. */
  ghost predicate MayLead(before: Edges, op: Op, after: Edges) {
    match op
    case Delete(p, c) => after == before - {(p, c)}
    case Create(p, c) =>
      after == before
      || (after == before + {(p, c)} && p != c && exists path :: EndsQuietly(before, p, c, path))
  }

  ghost predicate IsRun(states: seq<Edges>, ops: seq<Op>) {
    && |states| == |ops| + 1 && states[0] == {}
    && forall k :: 0 <= k < |ops| ==> MayLead(states[k], ops[k], states[k + 1])
  }

  /** While no asset is given a second parent row, every run keeps the hierarchy an acyclic forest. */
  lemma {:induction false} RunsStayAcyclic(states: seq<Edges>, ops: seq<Op>, n: nat)
    requires IsRun(states, ops) && n <= |ops|
    requires forall k :: 0 <= k < |ops| && ops[k].Create? && states[k + 1] != states[k] ==> !HasParent(states[k], ops[k].child)
    ensures Acyclic(states[n]) && forall c :: OneParent(states[n], c)
  {
    if n == 0 {
      NoRowsNoCycles(states[0]);
    } else {
      RunsStayAcyclic(states, ops, n - 1);
      assert MayLead(states[n - 1], ops[n - 1], states[n]);
      if ops[n - 1].Delete? || states[n] == states[n - 1] {
        FewerRowsKeepAcyclic(states[n - 1], states[n]);
        forall c ensures OneParent(states[n], c) {
          assert OneParent(states[n - 1], c);
        }
      } else {
        WalkIsExact(states[n - 1], ops[n - 1].parent, ops[n - 1].child);
        var p, c := ops[n - 1].parent, ops[n - 1].child;
        forall x ensures OneParent(states[n], x) {
          assert OneParent(states[n - 1], x);
          if x == c { assert forall q :: (q, c) in states[n - 1] ==> HasParent(states[n - 1], c); }
        }
      }
    }
  }
}
