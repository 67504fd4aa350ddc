/**
 The service-category tree of one tenant: rows that point at a parent row and are only
 ever soft-deleted, the checks on creating, moving and deleting them, and the recursive
 query those checks rest on.
 */
module CategoryTree {
  import opened Wrappers

  type Id = nat

  datatype Category = Category(parent: Option<Id>, deleted: bool)

  type Categories = map<Id, Category>

  datatype Refusal = NotFound | ParentNotFound | OwnParent | UnderDescendant | HasChildren | HasServices

  /** A request to leave a parent alone, to clear it, or to set it. */
  datatype ParentChange = Keep | Clear | MoveTo(parent: Id)

  predicate IsLive(cats: Categories, id: Id) {
    id in cats && !cats[id].deleted
  }

  /** A live category whose parent is p. */
  predicate ChildOf(cats: Categories, id: Id, p: Id) {
    IsLive(cats, id) && cats[id].parent == Some(p)
  }

  function Children(cats: Categories, p: Id): set<Id> {
    set id | id in cats && ChildOf(cats, id, p)
  }

  // ------------------------------------------------------------------
  // The invariant
  // ------------------------------------------------------------------

  ghost predicate ParentsLive(cats: Categories) {
    forall id, p :: ChildOf(cats, id, p) ==> IsLive(cats, p)
  }

  /** Ranks below a bound that grow from parent to child. */
  ghost predicate Ranked(cats: Categories, rank: map<Id, nat>, bound: nat) {
    && (forall id :: id in cats ==> id in rank && rank[id] < bound)
    && (forall id, p :: ChildOf(cats, id, p) && p in cats ==> rank[p] < rank[id])
  }

  ghost predicate Valid(cats: Categories) {
    ParentsLive(cats) && exists rank: map<Id, nat>, bound: nat :: Ranked(cats, rank, bound)
  }

  /** path climbs from its first category to its last, each step from a live category to its parent. */
  ghost predicate Climbs(cats: Categories, path: seq<Id>) {
    |path| > 0 && forall k :: 0 <= k < |path| - 1 ==> ChildOf(cats, path[k], path[k + 1])
  }

  /** The parent chain of id passes through a. */
  ghost predicate Under(cats: Categories, id: Id, a: Id) {
    exists path :: Climbs(cats, path) && path[0] == id && path[|path| - 1] == a
  }

  lemma SuffixClimbs(cats: Categories, path: seq<Id>, n: nat)
    requires Climbs(cats, path) && n < |path|
    ensures Climbs(cats, path[n..]) && path[n..][0] == path[n] && path[n..][|path[n..]| - 1] == path[|path| - 1]
  {
    forall k | 0 <= k < |path[n..]| - 1 ensures ChildOf(cats, path[n..][k], path[n..][k + 1]) {
      assert ChildOf(cats, path[n + k], path[n + k + 1]);
    }
  }

  lemma {:induction false} ClimbsDescend(cats: Categories, path: seq<Id>, rank: map<Id, nat>, bound: nat)
    requires Ranked(cats, rank, bound) && ParentsLive(cats) && Climbs(cats, path) && |path| > 1
    ensures path[0] in cats && path[|path| - 1] in cats && rank[path[|path| - 1]] < rank[path[0]]
    decreases |path|
  {
    assert ChildOf(cats, path[0], path[1]);
    if |path| > 2 {
      SuffixClimbs(cats, path, 1);
      ClimbsDescend(cats, path[1..], rank, bound);
    }
  }

  /** No category is its own ancestor. */
  lemma NoCycles(cats: Categories, path: seq<Id>)
    requires Valid(cats) && Climbs(cats, path) && |path| > 1
    ensures path[0] != path[|path| - 1]
  {
    var rank: map<Id, nat>, bound: nat :| Ranked(cats, rank, bound);
    ClimbsDescend(cats, path, rank, bound);
  }

  lemma UnderStep(cats: Categories, id: Id, p: Id, a: Id)
    requires ChildOf(cats, id, p) && Under(cats, p, a)
    ensures Under(cats, id, a)
  {
    var path :| Climbs(cats, path) && path[0] == p && path[|path| - 1] == a;
    assert Climbs(cats, [id] + path);
  }

  lemma UnderSelf(cats: Categories, a: Id)
    ensures Under(cats, a, a)
  {
    assert Climbs(cats, [a]);
  }

  lemma UnderUp(cats: Categories, id: Id, a: Id)
    requires Under(cats, id, a) && id != a
    ensures IsLive(cats, id) && cats[id].parent.Some? && Under(cats, cats[id].parent.value, a)
  {
    var path :| Climbs(cats, path) && path[0] == id && path[|path| - 1] == a;
    assert ChildOf(cats, path[0], path[1]);
    SuffixClimbs(cats, path, 1);
  }

  // ------------------------------------------------------------------
  // Creating, moving, deleting
  // ------------------------------------------------------------------

  function Created(cats: Categories, id: Id, parent: Option<Id>): Result<Categories, Refusal> {
    if parent.Some? && !IsLive(cats, parent.value) then Err(ParentNotFound)
    else Ok(cats[id := Category(parent, false)])
  }

  ghost function Updated(cats: Categories, id: Id, change: ParentChange): Result<Categories, Refusal> {
    if !IsLive(cats, id) then Err(NotFound)
    else
      match change
      case Keep => Ok(cats)
      case Clear => Ok(cats[id := Category(None, false)])
      case MoveTo(p) =>
        if p == id then Err(OwnParent)
        else if !IsLive(cats, p) then Err(ParentNotFound)
        else if Under(cats, p, id) then Err(UnderDescendant)
        else Ok(cats[id := Category(Some(p), false)])
  }

  function Deleted(cats: Categories, id: Id, services: nat): Result<Categories, Refusal> {
    if !IsLive(cats, id) then Err(NotFound)
    else if Children(cats, id) != {} then Err(HasChildren)
    else if services > 0 then Err(HasServices)
    else Ok(cats[id := Category(cats[id].parent, true)])
  }

  lemma CreateKeeps(cats: Categories, id: Id, parent: Option<Id>)
    requires Valid(cats) && id !in cats && Created(cats, id, parent).Ok?
    ensures Valid(Created(cats, id, parent).value)
  {
    var cats' := Created(cats, id, parent).value;
    var rank: map<Id, nat>, bound: nat :| Ranked(cats, rank, bound);
    forall x, p | ChildOf(cats', x, p) ensures IsLive(cats', p) {
      if x != id { assert ChildOf(cats, x, p); }
    }
    var rank' := rank[id := bound];
    assert Ranked(cats', rank', bound + 1) by {
      forall x, p | ChildOf(cats', x, p) && p in cats' ensures rank'[p] < rank'[x] {
        if x != id { assert ChildOf(cats, x, p); }
      }
    }
  }

  /** Lifting everything under the moved category above the rest gives ranks for the new tree. */
  lemma MoveKeeps(cats: Categories, id: Id, p: Id)
    requires Valid(cats) && Updated(cats, id, MoveTo(p)).Ok?
    ensures Valid(Updated(cats, id, MoveTo(p)).value)
  {
    var cats' := cats[id := Category(Some(p), false)];
    var rank: map<Id, nat>, bound: nat :| Ranked(cats, rank, bound);
    var rank': map<Id, nat> := map x | x in cats :: rank[x] + (if Under(cats, x, id) then bound else 0);
    UnderSelf(cats, id);
    forall x, q | ChildOf(cats', x, q)
      ensures IsLive(cats', q) && rank'[q] < rank'[x]
    {
      if x != id {
        assert ChildOf(cats, x, q);
        if Under(cats, x, id) {
          UnderUp(cats, x, id);
        } else if Under(cats, q, id) {
          UnderStep(cats, x, q, id);
        }
      }
    }
    assert Ranked(cats', rank', 2 * bound);
  }

  lemma ClearKeeps(cats: Categories, id: Id)
    requires Valid(cats) && IsLive(cats, id)
    ensures Valid(cats[id := Category(None, false)])
  {
    var cats' := cats[id := Category(None, false)];
    var rank: map<Id, nat>, bound: nat :| Ranked(cats, rank, bound);
    forall x, p | ChildOf(cats', x, p) ensures ChildOf(cats, x, p) {}
    assert Ranked(cats', rank, bound);
  }

  lemma DeleteKeeps(cats: Categories, id: Id, services: nat)
    requires Valid(cats) && Deleted(cats, id, services).Ok?
    ensures Valid(Deleted(cats, id, services).value)
  {
    var cats' := Deleted(cats, id, services).value;
    var rank: map<Id, nat>, bound: nat :| Ranked(cats, rank, bound);
    forall x, p | ChildOf(cats', x, p) ensures ChildOf(cats, x, p) && p != id {
      assert ChildOf(cats, x, p);
      assert x in Children(cats, p);
    }
    assert Ranked(cats', rank, bound);
  }

  /** The check on moves refuses exactly those that would close a cycle. */
  lemma MoveClosesCycleIff(cats: Categories, id: Id, p: Id)
    requires Valid(cats) && IsLive(cats, id) && IsLive(cats, p) && id != p
    ensures Valid(cats[id := Category(Some(p), false)]) <==> !Under(cats, p, id)
  {
    var cats' := cats[id := Category(Some(p), false)];
    if Under(cats, p, id) {
      var path :| Climbs(cats, path) && path[0] == p && path[|path| - 1] == id;
      var loop := [id] + path;
      forall k | 0 <= k < |loop| - 1 ensures ChildOf(cats', loop[k], loop[k + 1]) {
        if k > 0 {
          SuffixClimbs(cats, path, k - 1);
          NoCycles(cats, path[k - 1..]);
          assert ChildOf(cats, path[k - 1], path[k]);
        }
      }
      if Valid(cats') {
        NoCycles(cats', loop);
      }
    } else {
      MoveKeeps(cats, id, p);
    }
  }

  // ------------------------------------------------------------------
  // What each request does
  // ------------------------------------------------------------------

  /** Only the category id may differ. */
  ghost predicate OnlyAt(before: Categories, after: Categories, id: Id) {
    after.Keys == before.Keys + {id} && forall x :: x in before && x != id ==> after[x] == before[x]
  }

  /** A new category is live under its parent, which must be live; it is refused for nothing else. */
  lemma CreatesUnderLiveParent(cats: Categories, id: Id, parent: Option<Id>)
    requires id !in cats
    ensures
      match Created(cats, id, parent)
      case Err(e) => e == ParentNotFound && parent.Some? && !IsLive(cats, parent.value)
      case Ok(after) =>
        && (parent.Some? ==> IsLive(cats, parent.value))
        && OnlyAt(cats, after, id) && IsLive(after, id) && after[id].parent == parent
  {}

  /**
   An accepted update of a live category leaves its parent alone, clears it or sets it as asked. It is refused for
   a category that is not live, and for a move under itself, a category that is not live, or a descendant.
   */
  lemma UpdatesSetParent(cats: Categories, id: Id, change: ParentChange)
    ensures
      match Updated(cats, id, change)
      case Err(NotFound) => !IsLive(cats, id)
      case Err(OwnParent) => IsLive(cats, id) && change == MoveTo(id)
      case Err(ParentNotFound) => IsLive(cats, id) && change.MoveTo? && change.parent != id && !IsLive(cats, change.parent)
      case Err(UnderDescendant) =>
        IsLive(cats, id) && change.MoveTo? && change.parent != id && IsLive(cats, change.parent) && Under(cats, change.parent, id)
      case Err(_) => false
      case Ok(after) =>
        && IsLive(cats, id) && IsLive(after, id) && OnlyAt(cats, after, id)
        && (change.Keep? ==> after[id].parent == cats[id].parent)
        && (change.Clear? ==> after[id].parent == None)
        && (change.MoveTo? ==>
              && after[id].parent == Some(change.parent)
              && change.parent != id && IsLive(cats, change.parent) && !Under(cats, change.parent, id))
  {}

  /** A deletion keeps the row and its parent, and is accepted exactly for a live category without live children or services. */
  lemma DeletesLeavesOnly(cats: Categories, id: Id, services: nat)
    ensures
      match Deleted(cats, id, services)
      case Err(NotFound) => !IsLive(cats, id)
      case Err(HasChildren) => IsLive(cats, id) && exists c :: ChildOf(cats, c, id)
      case Err(HasServices) => IsLive(cats, id) && (forall c :: !ChildOf(cats, c, id)) && services > 0
      case Err(_) => false
      case Ok(after) =>
        && IsLive(cats, id) && (forall c :: !ChildOf(cats, c, id)) && services == 0
        && OnlyAt(cats, after, id) && after[id].deleted && after[id].parent == cats[id].parent
  {
    if Children(cats, id) != {} {
      var c :| c in Children(cats, id);
    } else {
      forall c ensures !ChildOf(cats, c, id) {
        assert c !in Children(cats, id);
      }
    }
  }

  // ------------------------------------------------------------------
  // Runs
  // ------------------------------------------------------------------

  datatype Op =
    | Create(id: Id, parent: Option<Id>)
    | Update(id: Id, change: ParentChange)
    | Delete(id: Id, services: nat)

  /** A refused request changes nothing; a new category gets an unused id. */
  ghost function Step(cats: Categories, op: Op): Categories {
    var r :=
      match op
      case Create(id, parent) => if id in cats then Err(NotFound) else Created(cats, id, parent)
      case Update(id, change) => Updated(cats, id, change)
      case Delete(id, services) => Deleted(cats, id, services);
    if r.Ok? then r.value else cats
  }

  ghost function Run(cats: Categories, ops: seq<Op>): Categories
    decreases |ops|
  {
    if ops == [] then cats else Run(Step(cats, ops[0]), ops[1..])
  }

  lemma StepKeeps(cats: Categories, op: Op)
    requires Valid(cats)
    ensures Valid(Step(cats, op))
  {
    match op
    case Create(id, parent) =>
      if id !in cats && Created(cats, id, parent).Ok? { CreateKeeps(cats, id, parent); }
    case Update(id, change) =>
      if Updated(cats, id, change).Ok? {
        match change
        case Keep =>
        case Clear => ClearKeeps(cats, id);
        case MoveTo(p) => MoveKeeps(cats, id, p);
      }
    case Delete(id, services) =>
      if Deleted(cats, id, services).Ok? { DeleteKeeps(cats, id, services); }
  }

  lemma {:induction false} RunKeeps(cats: Categories, ops: seq<Op>)
    requires Valid(cats)
    ensures Valid(Run(cats, ops))
    decreases |ops|
  {
    if ops != [] {
      StepKeeps(cats, ops[0]);
      RunKeeps(Step(cats, ops[0]), ops[1..]);
    }
  }

  /** In every reachable tree the parent of a live category is live and no category is above itself. */
  lemma ReachableTreesAreSound(ops: seq<Op>, path: seq<Id>)
    ensures var cats := Run(map[], ops);
      ParentsLive(cats) && (Climbs(cats, path) && |path| > 1 ==> path[0] != path[|path| - 1])
  {
    assert Ranked(map[], map[], 0);
    RunKeeps(map[], ops);
    if Climbs(Run(map[], ops), path) && |path| > 1 {
      NoCycles(Run(map[], ops), path);
    }
  }

  /** Rows are never removed, and a deleted category never changes again. */
  lemma {:induction false} DeletedStayAsTheyAre(cats: Categories, ops: seq<Op>, id: Id)
    requires id in cats
    ensures id in Run(cats, ops)
    ensures cats[id].deleted ==> Run(cats, ops)[id] == cats[id]
    decreases |ops|
  {
    if ops != [] {
      DeletedStayAsTheyAre(Step(cats, ops[0]), ops[1..], id);
    }
  }

  function ValueOr(r: Result<Categories, Refusal>, cats: Categories): Categories {
    if r.Ok? then r.value else cats
  }

  /** A run takes its requests one by one; a new category gets an unused id, and a refused request changes nothing. */
  lemma RunsStepByStep(cats: Categories, id: Id, parent: Option<Id>, change: ParentChange, services: nat, ops: seq<Op>)
    ensures Run(cats, []) == cats
    ensures Run(cats, [Create(id, parent)] + ops) ==
      Run(if id in cats then cats else ValueOr(Created(cats, id, parent), cats), ops)
    ensures Run(cats, [Update(id, change)] + ops) == Run(ValueOr(Updated(cats, id, change), cats), ops)
    ensures Run(cats, [Delete(id, services)] + ops) == Run(ValueOr(Deleted(cats, id, services), cats), ops)
  {
    assert ([Create(id, parent)] + ops)[1..] == ops;
    assert ([Update(id, change)] + ops)[1..] == ops;
    assert ([Delete(id, services)] + ops)[1..] == ops;
  }

  // ------------------------------------------------------------------
  // The store and its recursive query
  // ------------------------------------------------------------------

  predicate Distinct(s: seq<Id>) {
    forall i, j :: 0 <= i < j < |s| ==> s[i] != s[j]
  }

  function Elements(s: seq<Id>): set<Id> {
    set x | x in s
  }

  lemma DistinctConcat(a: seq<Id>, b: seq<Id>)
    requires Distinct(a) && Distinct(b) && Elements(a) !! Elements(b)
    ensures Distinct(a + b) && Elements(a + b) == Elements(a) + Elements(b)
  {
    forall i, j | 0 <= i < j < |a + b| ensures (a + b)[i] != (a + b)[j] {
      assert i < |a| ==> a[i] in Elements(a);
      assert j >= |a| ==> b[j - |a|] in Elements(b);
    }
  }

  /** Rows collected so far and the level about to be collected. */
  ghost predicate Collecting(cats: Categories, a: Id, rows: seq<Id>, level: seq<Id>) {
    && Distinct(rows) && Distinct(level) && Elements(rows) !! Elements(level)
    && (forall id :: id in rows || id in level ==> id in cats && Under(cats, id, a))
    && (if a in cats then a in rows || (rows == [] && level == [a]) else rows == level == [])
    && (forall id, p :: ChildOf(cats, id, p) && p in rows ==> id in rows || id in level)
    && (forall id :: (id in rows || id in level) && id != a ==>
          cats[id].parent.Some? && cats[id].parent.value in rows)
  }

  /** A child of the current level was never seen before. */
  lemma ChildIsNew(cats: Categories, a: Id, rows: seq<Id>, level: seq<Id>, id: Id, p: Id)
    requires Valid(cats) && Collecting(cats, a, rows, level) && ChildOf(cats, id, p) && p in level
    ensures id !in rows && id !in level && Under(cats, id, a)
  {
    UnderStep(cats, id, p, a);
    if id == a {
      var path :| Climbs(cats, path) && path[0] == p && path[|path| - 1] == a;
      assert Climbs(cats, [a] + path);
      NoCycles(cats, [a] + path);
    }
    assert p !in rows by {
      assert p in Elements(level);
    }
  }

  /** One round of the recursion: the level is collected and its children become the next level. */
  lemma CollectingStep(cats: Categories, a: Id, rows: seq<Id>, level: seq<Id>, next: seq<Id>)
    requires Valid(cats) && Collecting(cats, a, rows, level) && level != []
    requires Distinct(next) && forall id :: id in next <==> exists p :: p in level && ChildOf(cats, id, p)
    ensures Collecting(cats, a, rows + level, next)
    ensures Elements(rows) < Elements(rows + level) <= cats.Keys
  {
    forall id | id in next
      ensures id !in rows && id !in level && Under(cats, id, a)
      ensures id in cats && cats[id].parent.Some? && cats[id].parent.value in level
    {
      var p :| p in level && ChildOf(cats, id, p);
      ChildIsNew(cats, a, rows, level, id, p);
    }
    DistinctConcat(rows, level);
    assert level[0] in Elements(level);
  }

  lemma {:induction false} ClosedHoldsUnder(cats: Categories, rows: seq<Id>, path: seq<Id>)
    requires Climbs(cats, path) && path[|path| - 1] in rows
    requires forall id, p :: ChildOf(cats, id, p) && p in rows ==> id in rows
    ensures path[0] in rows
    decreases |path|
  {
    if |path| > 1 {
      SuffixClimbs(cats, path, 1);
      ClosedHoldsUnder(cats, rows, path[1..]);
      assert ChildOf(cats, path[0], path[1]);
    }
  }

  lemma CollectedAll(cats: Categories, a: Id, rows: seq<Id>)
    requires Collecting(cats, a, rows, [])
    ensures forall id :: id in rows <==> a in cats && Under(cats, id, a)
  {
    forall id ensures id in rows <==> a in cats && Under(cats, id, a) {
      if a in cats && Under(cats, id, a) {
        var path :| Climbs(cats, path) && path[0] == id && path[|path| - 1] == a;
        ClosedHoldsUnder(cats, rows, path);
      }
    }
  }

  class CategoryStore {
    var cats: Categories

    constructor ()
      ensures cats == map[]
    {
      cats := map[];
    }

    method FindById(id: Id) returns (found: bool, children: set<Id>)
      ensures found <==> IsLive(cats, id)
      ensures children == Children(cats, id)
    {
      found := id in cats && !cats[id].deleted;
      children := set c | c in cats && !cats[c].deleted && cats[c].parent == Some(id);
    }

    /** The rows that join one level of the recursion. */
    method Join(level: seq<Id>) returns (next: seq<Id>)
      requires Distinct(level)
      ensures Distinct(next)
      ensures forall id :: id in next <==> exists p :: p in level && ChildOf(cats, id, p)
    {
      next := [];
      for i := 0 to |level|
        invariant Distinct(next)
        invariant forall id :: id in next <==> exists k :: 0 <= k < i && ChildOf(cats, id, level[k])
      {
        var children := Children(cats, level[i]);
        ghost var before := next;
        while children != {}
          invariant Distinct(next)
          invariant children <= Children(cats, level[i]) && Elements(next) !! children
          invariant forall id :: id in next <==> id in before || id in Children(cats, level[i]) - children
        {
          var c :| c in children;
          next := next + [c];
          children := children - {c};
        }
      }
    }

    /** Exactly the category and every live category whose parent chain passes through it, each once. */
    method ListDescendantIds(a: Id) returns (rows: seq<Id>)
      requires Valid(cats)
      ensures Distinct(rows)
      ensures forall id :: id in rows <==> a in cats && Under(cats, id, a)
    {
      rows := [];
      var level := if a in cats then [a] else [];
      UnderSelf(cats, a);
      assert Collecting(cats, a, rows, level);
      while level != []
        invariant Collecting(cats, a, rows, level)
        decreases cats.Keys - Elements(rows)
      {
        var next := Join(level);
        CollectingStep(cats, a, rows, level, next);
        rows, level := rows + level, next;
      }
      CollectedAll(cats, a, rows);
    }

    method CreateCategory(id: Id, parent: Option<Id>) returns (r: Result<(), Refusal>)
      requires id !in cats
      modifies this
      ensures match Created(old(cats), id, parent)
        case Ok(created) => r == Ok(()) && cats == created
        case Err(e) => r == Err(e) && cats == old(cats)
    {
      if parent.Some? {
        var found, _ := FindById(parent.value);
        if !found {
          return Err(ParentNotFound);
        }
      }
      cats := cats[id := Category(parent, false)];
      return Ok(());
    }

    method UpdateCategory(id: Id, change: ParentChange) returns (r: Result<(), Refusal>)
      requires Valid(cats)
      modifies this
      ensures match Updated(old(cats), id, change)
        case Ok(updated) => r == Ok(()) && cats == updated
        case Err(e) => r == Err(e) && cats == old(cats)
    {
      var existing, _ := FindById(id);
      if !existing {
        return Err(NotFound);
      }
      if change.MoveTo? {
        if change.parent == id {
          return Err(OwnParent);
        }
        var found, _ := FindById(change.parent);
        if !found {
          return Err(ParentNotFound);
        }
        var descendants := ListDescendantIds(id);
        if change.parent in descendants {
          return Err(UnderDescendant);
        }
      }
      match change {
        case Keep =>
        case Clear => cats := cats[id := Category(None, cats[id].deleted)];
        case MoveTo(p) => cats := cats[id := Category(Some(p), cats[id].deleted)];
      }
      return Ok(());
    }

    method DeleteCategory(id: Id, services: nat) returns (r: Result<(), Refusal>)
      modifies this
      ensures match Deleted(old(cats), id, services)
        case Ok(deleted) => r == Ok(()) && cats == deleted
        case Err(e) => r == Err(e) && cats == old(cats)
    {
      var existing, children := FindById(id);
      if !existing {
        return Err(NotFound);
      }
      if children != {} {
        return Err(HasChildren);
      }
      if services > 0 {
        return Err(HasServices);
      }
      cats := cats[id := cats[id].(deleted := true)];
      return Ok(());
    }
  }
}
