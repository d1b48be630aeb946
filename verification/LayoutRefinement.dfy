/** What a plan guarantees: every reachable block is laid out once, every jump lands, and the
    nested code visits the blocks the graph visits. */
module LayoutRefinement {
  import opened Cfg
  import opened Flow
  import opened Dominators
  import opened Layout
  import opened Planner

  // ---------------------------------------------------------------- laid out exactly once

  /** How many times a region lays a block out. */
  function Count(r: Region, x: BlockId): nat
    decreases r
  {
    (if r.block == x then 1 else 0) + CountArms(r.edges, x) + CountRegions(r.joins, x)
  }

  function CountArms(arms: seq<Arm>, x: BlockId): nat
    decreases arms
  {
    if arms == [] then 0 else CountArms(arms[..|arms| - 1], x) + CountArm(arms[|arms| - 1], x)
  }

  function CountArm(arm: Arm, x: BlockId): nat
    decreases arm
  {
    if arm.Inline? then Count(arm.region, x) else 0
  }

  function CountRegions(regions: seq<Region>, x: BlockId): nat
    decreases regions
  {
    if regions == [] then 0 else CountRegions(regions[..|regions| - 1], x) + Count(regions[|regions| - 1], x)
  }

  /** The block at `j` dominates `x`. */
  ghost predicate Under(t: Tree, j: nat, x: BlockId)
    requires t.Valid()
  {
    x in t.rpo && Chain(t.idom, j, Index(t.rpo, x))
  }

  ghost predicate StrictlyUnder(t: Tree, j: nat, x: BlockId)
    requires t.Valid() && j < |t.rpo|
  {
    Under(t, j, x) && t.rpo[j] != x
  }

  /** `c` is the child of `j` in the dominator tree on the way to `x`. */
  ghost predicate Toward(t: Tree, j: nat, x: BlockId, c: nat)
    requires t.Valid()
  {
    1 <= c < |t.rpo| && t.idom[c] == j && Under(t, c, x)
  }

  lemma {:induction false} FindChild(t: Tree, j: nat, i: nat) returns (c: nat)
    requires t.Valid() && j < i < |t.rpo| && Chain(t.idom, j, i)
    ensures 1 <= c < |t.rpo| && t.idom[c] == j && Chain(t.idom, c, i)
    decreases i
  {
    if t.idom[i] == j {
      c := i;
    } else {
      ChainBound(t.idom, j, t.idom[i]);
      c := FindChild(t, j, t.idom[i]);
    }
  }

  lemma OneChild(t: Tree, j: nat, x: BlockId, c: nat, c': nat)
    requires t.Valid() && Toward(t, j, x, c) && Toward(t, j, x, c')
    ensures c == c'
  {
    var i := Index(t.rpo, x);
    if c < c' {
      ChainLinear(t.idom, c, c', i);
      ChainBound(t.idom, c, j);
    } else if c' < c {
      ChainLinear(t.idom, c', c, i);
      ChainBound(t.idom, c', j);
    }
  }

  lemma ChildIsUnder(t: Tree, j: nat, x: BlockId, c: nat)
    requires t.Valid() && j < |t.rpo| && Toward(t, j, x, c)
    ensures StrictlyUnder(t, j, x)
  {
    var i := Index(t.rpo, x);
    assert Chain(t.idom, j, j);
    assert Chain(t.idom, j, c);
    ChainTransitive(t.idom, j, c, i);
    ChainBound(t.idom, c, i);
    if t.rpo[j] == x { IndexUnique(t.rpo, j); }
  }

  /** A child with one incoming edge is reached by exactly one edge of its dominator. */
  lemma SingleChild(t: Tree, j: nat, c: nat)
    requires t.Valid() && 1 <= c < |t.rpo| && t.idom[c] == j && |t.preds[c]| == 1
    ensures j < c && Nests(t, j, t.rpo[c])
    ensures Occurrences(t.g.Successors(t.rpo[j]), t.rpo[c]) == 1
  {
    OrderedPredecessors(t.g, t.rpo);
    assert FromBelow(t.preds, c);
    var p := t.preds[c][0];
    assert p in t.preds[c];
    SolePredecessor(t, p, c);
    EdgesIntoMembers(t.g, t.rpo, |t.rpo|, t.rpo[c], p);
    IndexUnique(t.rpo, c);
    IndexUnique(t.rpo, 0);
    OnlyEdge(t, j, t.rpo[c]);
  }

  lemma CountOneArm(t: Tree, j: nat, target: BlockId, after: Option<BlockId>, x: BlockId)
    requires t.Valid() && j < |t.rpo| && target in t.g.Successors(t.rpo[j])
    ensures CountArm(ArmOf(t, j, target, after), x) ==
      if Nests(t, j, target) && Toward(t, j, x, Index(t.rpo, target)) then 1 else 0
    decreases |t.rpo| - j, 1
  {
    if Nests(t, j, target) {
      var c := Index(t.rpo, target);
      IndexUnique(t.rpo, 0);
      OnlyEdge(t, j, target);
      CountRegion(t, c, after, x);
    }
  }

  lemma CountManyArms(t: Tree, j: nat, targets: seq<BlockId>, after: Option<BlockId>, x: BlockId, c: nat)
    requires t.Valid() && j < |t.rpo| && forall s :: s in targets ==> s in t.g.Successors(t.rpo[j])
    requires 1 <= c < |t.rpo| && t.idom[c] == j
    requires forall d :: Toward(t, j, x, d) ==> d == c
    ensures CountArms(ArmsOf(t, j, targets, after), x) ==
      if Toward(t, j, x, c) && |t.preds[c]| == 1 then Occurrences(targets, t.rpo[c]) else 0
    decreases |t.rpo| - j, 2, |targets|
  {
    if targets != [] {
      var last := |targets| - 1;
      CountManyArms(t, j, targets[..last], after, x, c);
      assert ArmsOf(t, j, targets, after)[..last] == ArmsOf(t, j, targets[..last], after);
      CountOneArm(t, j, targets[last], after, x);
      IndexUnique(t.rpo, c);
      if |t.preds[c]| == 1 { SingleChild(t, j, c); }
    }
  }

  lemma CountNoArms(t: Tree, j: nat, targets: seq<BlockId>, after: Option<BlockId>, x: BlockId)
    requires t.Valid() && j < |t.rpo| && forall s :: s in targets ==> s in t.g.Successors(t.rpo[j])
    requires forall d :: !Toward(t, j, x, d)
    ensures CountArms(ArmsOf(t, j, targets, after), x) == 0
    decreases |t.rpo| - j, 2, |targets|
  {
    if targets != [] {
      var last := |targets| - 1;
      CountNoArms(t, j, targets[..last], after, x);
      assert ArmsOf(t, j, targets, after)[..last] == ArmsOf(t, j, targets[..last], after);
      CountOneArm(t, j, targets[last], after, x);
    }
  }

  lemma CountJoins(t: Tree, j: nat, joins: seq<nat>, after: Option<BlockId>, n: nat, x: BlockId)
    requires t.Valid() && j < |t.rpo| && n <= |joins|
    requires forall k :: 0 <= k < |joins| ==> j < joins[k] < |t.rpo| && t.idom[joins[k]] == j
    requires forall i, k :: 0 <= i < k < |joins| ==> joins[i] < joins[k]
    ensures CountRegions(RegionsOf(t, j, joins, after, n), x) ==
      if exists k :: 0 <= k < n && Toward(t, j, x, joins[k]) then 1 else 0
    decreases |t.rpo| - j, 2, n
  {
    if n > 0 {
      CountJoins(t, j, joins, after, n - 1, x);
      CountRegion(t, joins[n - 1], NextJoin(t, joins, n - 1, after), x);
      var regions := RegionsOf(t, j, joins, after, n);
      assert regions[..n - 1] == RegionsOf(t, j, joins, after, n - 1);
      if k :| 0 <= k < n - 1 && Toward(t, j, x, joins[k]) {
        if Toward(t, j, x, joins[n - 1]) { OneChild(t, j, x, joins[k], joins[n - 1]); }
      }
    }
  }

  /** The region of a block lays out, once each, the blocks it dominates and nothing else. */
  lemma {:induction false} CountRegion(t: Tree, j: nat, after: Option<BlockId>, x: BlockId)
    requires t.Valid() && j < |t.rpo|
    ensures Count(RegionOf(t, j, after), x) == if Under(t, j, x) then 1 else 0
    decreases |t.rpo| - j, 3
  {
    var joins := t.Joins(j, |t.rpo|);
    JoinsOwned(t, j, joins);
    var armTarget := ArmTarget(t, j, joins, after);
    var successors := t.g.Successors(t.rpo[j]);
    CountJoins(t, j, joins, after, |joins|, x);
    IndexUnique(t.rpo, j);
    if StrictlyUnder(t, j, x) {
      var c := ChildToward(t, j, x);
      CountManyArms(t, j, successors, armTarget, x, c);
      ChildLaidOnce(t, j, c, x, joins);
    } else {
      forall d | Toward(t, j, x, d) ensures false { ChildIsUnder(t, j, x, d); }
      CountNoArms(t, j, successors, armTarget, x);
      if t.rpo[j] == x { assert Chain(t.idom, j, j); }
    }
  }

  lemma JoinsOwned(t: Tree, j: nat, joins: seq<nat>)
    requires t.Valid() && j < |t.rpo| && joins == t.Joins(j, |t.rpo|)
    ensures forall k :: 0 <= k < |joins| ==> j < joins[k] < |t.rpo| && t.idom[joins[k]] == j && |t.preds[joins[k]]| > 1
    ensures forall i, k :: 0 <= i < k < |joins| ==> joins[i] < joins[k]
  {
    t.JoinsAbove(j, |t.rpo|);
    t.JoinsMember(j, |t.rpo|, 0);
    forall k | 0 <= k < |joins| ensures t.idom[joins[k]] == j && |t.preds[joins[k]]| > 1 {
      t.JoinsMember(j, |t.rpo|, joins[k]);
    }
  }

  /** The child towards `x` is nested at its one edge, or laid out as a join, and not both. */
  lemma ChildLaidOnce(t: Tree, j: nat, c: nat, x: BlockId, joins: seq<nat>)
    requires t.Valid() && j < |t.rpo| && Toward(t, j, x, c) && forall d :: Toward(t, j, x, d) ==> d == c
    requires joins == t.Joins(j, |t.rpo|)
    ensures |t.preds[c]| == 1 ==> Occurrences(t.g.Successors(t.rpo[j]), t.rpo[c]) == 1
    ensures (|t.preds[c]| != 1) == exists k :: 0 <= k < |joins| && Toward(t, j, x, joins[k])
  {
    JoinsOwned(t, j, joins);
    if |t.preds[c]| == 1 {
      SingleChild(t, j, c);
    } else {
      SomePredecessor(t, c);
      t.JoinsMember(j, |t.rpo|, c);
      var k :| 0 <= k < |joins| && joins[k] == c;
      assert Toward(t, j, x, joins[k]);
    }
  }

  /** The one child of `j` that `x` is under. */
  lemma ChildToward(t: Tree, j: nat, x: BlockId) returns (c: nat)
    requires t.Valid() && j < |t.rpo| && StrictlyUnder(t, j, x)
    ensures Toward(t, j, x, c) && forall d :: Toward(t, j, x, d) ==> d == c
  {
    ChainBound(t.idom, j, Index(t.rpo, x));
    c := FindChild(t, j, Index(t.rpo, x));
    forall d | Toward(t, j, x, d) ensures d == c { OneChild(t, j, x, d, c); }
  }

  lemma SomePredecessor(t: Tree, c: nat)
    requires t.Valid() && 1 <= c < |t.rpo|
    ensures |t.preds[c]| >= 1
  {
    OrderedPredecessors(t.g, t.rpo);
    assert FromBelow(t.preds, c);
  }

  /** The whole plan lays out each reachable block exactly once, and no other block. */
  lemma LaidOutOnce(t: Tree, x: BlockId)
    requires t.Valid()
    ensures Count(RegionOf(t, 0, None), x) == if t.g.Reachable(x) then 1 else 0
  {
    CountRegion(t, 0, None, x);
    OrderIsReachable(t.g, t.rpo, x);
    if x in t.rpo { ChainRoot(t.idom, Index(t.rpo, x)); }
  }

  // ---------------------------------------------------------------- running the plan

  /** Where control goes when it runs off the end of a piece of emitted code: on to a block that
      starts there, out of the function, or into the next case of an enclosing dispatch. */
  datatype Place = At(block: BlockId) | Off | NextCase

  function AfterBranch(r: Region, after: Place): Place {
    if r.joins != [] then At(r.joins[0].block) else after
  }

  function AfterArm(g: Graph, r: Region, after: Place): Place {
    if r.block in g.switches then NextCase else AfterBranch(r, after)
  }

  function AfterJoin(r: Region, k: nat, after: Place): Place
    requires k < |r.joins|
  {
    if k + 1 < |r.joins| then At(r.joins[k + 1].block) else after
  }

  /** Where the emitted code of the `i`-th edge leads. */
  function ArmPlace(g: Graph, r: Region, i: nat, after: Place): Place
    requires i < |r.edges|
  {
    match r.edges[i]
    case Inline(region) => At(region.block)
    case Jump(target) => At(target)
    case Fallthrough => AfterArm(g, r, after)
  }

  datatype Site = Site(region: Region, after: Place)

  /** The site a block is laid out at, searching a region and what surrounds it. */
  function Locate(g: Graph, r: Region, after: Place, x: BlockId): Option<Site>
    decreases r, 0
  {
    if r.block == x then Some(Site(r, after))
    else
      match LocateInArms(g, r.edges, AfterArm(g, r, after), x)
      case Some(site) => Some(site)
      case None => LocateInJoins(g, r, r.joins, after, x)
  }

  function LocateInArms(g: Graph, arms: seq<Arm>, after: Place, x: BlockId): Option<Site>
    decreases arms
  {
    if arms == [] then None
    else
      match LocateInArm(g, arms[|arms| - 1], after, x)
      case Some(site) => Some(site)
      case None => LocateInArms(g, arms[..|arms| - 1], after, x)
  }

  function LocateInArm(g: Graph, arm: Arm, after: Place, x: BlockId): Option<Site>
    decreases arm
  {
    if arm.Inline? then Locate(g, arm.region, after, x) else None
  }

  function LocateInJoins(g: Graph, r: Region, joins: seq<Region>, after: Place, x: BlockId): Option<Site>
    requires joins <= r.joins
    decreases joins
  {
    if joins == [] then None
    else
      match Locate(g, joins[|joins| - 1], AfterJoin(r, |joins| - 1, after), x)
      case Some(site) => Some(site)
      case None => LocateInJoins(g, r, joins[..|joins| - 1], after, x)
  }

  /** The blocks the emitted code visits from `block` when its branches take `choices`. */
  function RunPlan(g: Graph, plan: Region, block: BlockId, choices: seq<nat>): seq<BlockId>
    decreases choices
  {
    if choices == [] then [block]
    else
      match Locate(g, plan, Off, block)
      case None => [block]
      case Some(site) =>
        if choices[0] >= |site.region.edges| then [block]
        else
          match ArmPlace(g, site.region, choices[0], site.after)
          case At(next) => [block] + RunPlan(g, plan, next, choices[1..])
          case _ => [block]
  }

  /** The blocks the graph visits on the same choices. */
  function RunGraph(g: Graph, block: BlockId, choices: seq<nat>): seq<BlockId>
    decreases choices
  {
    if choices == [] || choices[0] >= |g.Successors(block)| then [block]
    else [block] + RunGraph(g, g.Successors(block)[choices[0]], choices[1..])
  }

  /** Every edge of the region at a site leads to the successor it stands for, and jumps only if what is
      laid out next is something else. */
  ghost predicate Faithful(g: Graph, site: Site) {
    && |site.region.edges| == |g.Successors(site.region.block)|
    && (forall i :: 0 <= i < |site.region.edges| ==>
         ArmPlace(g, site.region, i, site.after) == At(g.Successors(site.region.block)[i]))
    && forall i :: 0 <= i < |site.region.edges| && site.region.edges[i].Jump? ==>
         AfterArm(g, site.region, site.after) != At(site.region.edges[i].target)
  }

  ghost predicate FaithfulAt(g: Graph, site: Option<Site>, x: BlockId) {
    site.Some? && site.value.region.block == x && Faithful(g, site.value)
  }

  ghost predicate Agrees(after: Option<BlockId>, place: Place) {
    if after.Some? then place == At(after.value) else !place.At?
  }

  /** A region laid out with a promise about what follows it is faithful where that holds, and
      so are the regions inside it. */
  lemma {:induction false} LocateIsFaithful(t: Tree, j: nat, after: Option<BlockId>, place: Place, x: BlockId)
    requires t.Valid() && j < |t.rpo| && Agrees(after, place)
    ensures var site := Locate(t.g, RegionOf(t, j, after), place, x);
            site.Some? ==> site.value.region.block == x && Faithful(t.g, site.value)
    decreases |t.rpo| - j, 3
  {
    var r := RegionOf(t, j, after);
    t.JoinsAbove(j, |t.rpo|);
    var joins := t.Joins(j, |t.rpo|);
    RegionIsFaithful(t, j, after, place);
    if r.block != x {
      ArmsAreFaithful(t, j, t.g.Successors(t.rpo[j]), ArmTarget(t, j, joins, after), AfterArm(t.g, r, place), x);
      JoinsAreFaithful(t, j, r, joins, after, place, |joins|, x);
      assert r.joins[..|joins|] == r.joins;
    }
  }

  lemma RegionIsFaithful(t: Tree, j: nat, after: Option<BlockId>, place: Place)
    requires t.Down() && j < |t.rpo| && Agrees(after, place)
    requires forall k :: 0 <= k < |t.Joins(j, |t.rpo|)| ==> j < t.Joins(j, |t.rpo|)[k]
    ensures Faithful(t.g, Site(RegionOf(t, j, after), place))
    ensures Agrees(ArmTarget(t, j, t.Joins(j, |t.rpo|), after), AfterArm(t.g, RegionOf(t, j, after), place))
  {
    var r := RegionOf(t, j, after);
    var joins := t.Joins(j, |t.rpo|);
    if joins != [] { FirstJoin(t, j, joins, after, |joins|); }
    var armTarget := ArmTarget(t, j, joins, after);
    var successors := t.g.Successors(t.rpo[j]);
    forall i | 0 <= i < |r.edges|
      ensures ArmPlace(t.g, r, i, place) == At(successors[i])
      ensures r.edges[i].Jump? ==> AfterArm(t.g, r, place) != At(r.edges[i].target)
    {
      assert r.edges[i] == ArmOf(t, j, successors[i], armTarget);
      ArmLeadsToTarget(t, j, successors[i], armTarget);
    }
  }

  lemma ArmLeadsToTarget(t: Tree, j: nat, target: BlockId, after: Option<BlockId>)
    requires t.Down() && j < |t.rpo|
    ensures match ArmOf(t, j, target, after)
            case Inline(region) => region.block == target
            case Jump(to) => to == target && after != Some(target)
            case Fallthrough => after == Some(target)
  {}

  lemma {:induction false} FirstJoin(t: Tree, j: nat, joins: seq<nat>, after: Option<BlockId>, n: nat)
    requires t.Down() && j < |t.rpo| && 0 < n <= |joins|
    requires forall k :: 0 <= k < |joins| ==> j < joins[k] < |t.rpo|
    ensures RegionsOf(t, j, joins, after, n)[0].block == t.rpo[joins[0]]
  {
    if n > 1 { FirstJoin(t, j, joins, after, n - 1); }
  }

  lemma RegionBlock(t: Tree, j: nat, after: Option<BlockId>)
    requires t.Down() && j < |t.rpo|
    ensures RegionOf(t, j, after).block == t.rpo[j]
  {}

  lemma {:induction false} RegionAt(t: Tree, j: nat, joins: seq<nat>, after: Option<BlockId>, n: nat, k: nat)
    requires t.Down() && j < |t.rpo| && k < n <= |joins|
    requires forall k :: 0 <= k < |joins| ==> j < joins[k] < |t.rpo|
    ensures RegionsOf(t, j, joins, after, n)[k] == RegionOf(t, joins[k], NextJoin(t, joins, k, after))
    decreases n
  {
    if k < n - 1 { RegionAt(t, j, joins, after, n - 1, k); }
  }

  lemma RegionBlocks(t: Tree, j: nat, joins: seq<nat>, after: Option<BlockId>, n: nat)
    requires t.Down() && j < |t.rpo| && n <= |joins|
    requires forall k :: 0 <= k < |joins| ==> j < joins[k] < |t.rpo|
    ensures forall k :: 0 <= k < n ==>
      RegionsOf(t, j, joins, after, n)[k] == RegionOf(t, joins[k], NextJoin(t, joins, k, after))
    ensures forall k :: 0 <= k < n ==> RegionsOf(t, j, joins, after, n)[k].block == t.rpo[joins[k]]
  {
    forall k | 0 <= k < n
      ensures RegionsOf(t, j, joins, after, n)[k] == RegionOf(t, joins[k], NextJoin(t, joins, k, after))
      ensures RegionsOf(t, j, joins, after, n)[k].block == t.rpo[joins[k]]
    {
      RegionAt(t, j, joins, after, n, k);
      RegionBlock(t, joins[k], NextJoin(t, joins, k, after));
    }
  }

  lemma {:induction false} ArmsAreFaithful(t: Tree, j: nat, targets: seq<BlockId>, after: Option<BlockId>,
      place: Place, x: BlockId)
    requires t.Valid() && j < |t.rpo| && Agrees(after, place)
    ensures var site := LocateInArms(t.g, ArmsOf(t, j, targets, after), place, x);
            site.Some? ==> site.value.region.block == x && Faithful(t.g, site.value)
    decreases |t.rpo| - j, 2, |targets|
  {
    if targets != [] {
      var last := |targets| - 1;
      var arms := ArmsOf(t, j, targets, after);
      assert arms[..last] == ArmsOf(t, j, targets[..last], after);
      if Nests(t, j, targets[last]) {
        LocateIsFaithful(t, Index(t.rpo, targets[last]), after, place, x);
      }
      ArmsAreFaithful(t, j, targets[..last], after, place, x);
    }
  }

  lemma {:induction false} JoinsAreFaithful(t: Tree, j: nat, r: Region, joins: seq<nat>, after: Option<BlockId>,
      place: Place, n: nat, x: BlockId)
    requires t.Valid() && j < |t.rpo| && Agrees(after, place) && n <= |joins|
    requires forall k :: 0 <= k < |joins| ==> j < joins[k] < |t.rpo|
    requires r.joins == RegionsOf(t, j, joins, after, |joins|)
    ensures var site := LocateInJoins(t.g, r, r.joins[..n], place, x);
            site.Some? ==> site.value.region.block == x && Faithful(t.g, site.value)
    decreases |t.rpo| - j, 2, n
  {
    if n > 0 {
      RegionAt(t, j, joins, after, |joins|, n - 1);
      NextAgrees(t, j, r, joins, after, place, n);
      LocateInLast(t.g, r, n, place, x);
      LocateIsFaithful(t, joins[n - 1], NextJoin(t, joins, n - 1, after), AfterJoin(r, n - 1, place), x);
      JoinsAreFaithful(t, j, r, joins, after, place, n - 1, x);
    }
  }

  /** What follows a join in the text is the next join. */
  lemma NextAgrees(t: Tree, j: nat, r: Region, joins: seq<nat>, after: Option<BlockId>, place: Place, n: nat)
    requires t.Valid() && j < |t.rpo| && Agrees(after, place) && 0 < n <= |joins|
    requires forall k :: 0 <= k < |joins| ==> j < joins[k] < |t.rpo|
    requires r.joins == RegionsOf(t, j, joins, after, |joins|)
    ensures Agrees(NextJoin(t, joins, n - 1, after), AfterJoin(r, n - 1, place))
  {
    RegionBlocks(t, j, joins, after, |joins|);
  }

  /** The last join is looked through first. */
  lemma LocateInLast(g: Graph, r: Region, n: nat, place: Place, x: BlockId)
    requires 0 < n <= |r.joins|
    ensures LocateInJoins(g, r, r.joins[..n], place, x) ==
      var last := Locate(g, r.joins[n - 1], AfterJoin(r, n - 1, place), x);
      if last.Some? then last else LocateInJoins(g, r, r.joins[..n - 1], place, x)
  {
    assert r.joins[..n][..n - 1] == r.joins[..n - 1];
  }

  /** A block that is laid out is found. */
  lemma {:induction false} LaidOutIsLocated(g: Graph, r: Region, after: Place, x: BlockId)
    requires Count(r, x) > 0
    ensures Locate(g, r, after, x).Some?
    decreases r, 1
  {
    if r.block != x {
      if CountArms(r.edges, x) > 0 {
        LaidOutInArms(g, r.edges, AfterArm(g, r, after), x);
      } else {
        LaidOutInJoins(g, r, r.joins, after, x);
      }
    }
  }

  lemma {:induction false} LaidOutInArms(g: Graph, arms: seq<Arm>, after: Place, x: BlockId)
    requires CountArms(arms, x) > 0
    ensures LocateInArms(g, arms, after, x).Some?
    decreases arms
  {
    var last := |arms| - 1;
    if CountArm(arms[last], x) > 0 {
      LaidOutInArm(g, arms[last], after, x);
    } else {
      LaidOutInArms(g, arms[..last], after, x);
    }
  }

  lemma {:induction false} LaidOutInArm(g: Graph, arm: Arm, after: Place, x: BlockId)
    requires CountArm(arm, x) > 0
    ensures LocateInArm(g, arm, after, x).Some?
    decreases arm
  {
    LaidOutIsLocated(g, arm.region, after, x);
  }

  lemma {:induction false} LaidOutInJoins(g: Graph, r: Region, joins: seq<Region>, after: Place, x: BlockId)
    requires joins <= r.joins && CountRegions(joins, x) > 0
    ensures LocateInJoins(g, r, joins, after, x).Some?
    decreases joins
  {
    var last := |joins| - 1;
    if Count(joins[last], x) > 0 {
      LaidOutIsLocated(g, joins[last], AfterJoin(r, last, after), x);
    } else {
      LaidOutInJoins(g, r, joins[..last], after, x);
    }
  }

  /** Running the plan visits the same blocks as the graph, whichever way the branches go. */
  lemma {:induction false} PlanRunsLikeGraph(t: Tree, block: BlockId, choices: seq<nat>)
    requires t.Valid() && block in t.rpo
    requires forall b, s :: b in t.rpo && s in t.g.Successors(b) ==> t.g.Exists(s)
    ensures RunPlan(t.g, RegionOf(t, 0, None), block, choices) == RunGraph(t.g, block, choices)
    decreases choices
  {
    if choices != [] {
      CountRegion(t, 0, None, block);
      ChainRoot(t.idom, Index(t.rpo, block));
      LaidOutIsLocated(t.g, RegionOf(t, 0, None), Off, block);
      LocateIsFaithful(t, 0, None, Off, block);
      if choices[0] < |t.g.Successors(block)| {
        var next := t.g.Successors(block)[choices[0]];
        assert t.g.Edge(block, next);
        PlanRunsLikeGraph(t, next, choices[1..]);
      }
    }
  }

  // ---------------------------------------------------------------- every jump lands

  ghost predicate Closed(t: Tree)
    requires t.Valid()
  {
    forall b, s :: b in t.rpo && s in t.g.Successors(b) ==> s in t.rpo
  }

  lemma {:induction false} JumpsLand(t: Tree, j: nat, after: Option<BlockId>)
    requires t.Valid() && j < |t.rpo| && Closed(t)
    ensures forall x :: x in Jumps(RegionOf(t, j, after)) ==> x in t.rpo
    decreases |t.rpo| - j, 3
  {
    t.JoinsAbove(j, |t.rpo|);
    var joins := t.Joins(j, |t.rpo|);
    ArmJumpsLand(t, j, t.g.Successors(t.rpo[j]), ArmTarget(t, j, joins, after));
    JoinJumpsLand(t, j, joins, after, |joins|);
  }

  lemma {:induction false} ArmJumpsLand(t: Tree, j: nat, targets: seq<BlockId>, after: Option<BlockId>)
    requires t.Valid() && j < |t.rpo| && Closed(t) && forall s :: s in targets ==> s in t.rpo
    ensures forall x :: x in ArmJumps(ArmsOf(t, j, targets, after)) ==> x in t.rpo
    decreases |t.rpo| - j, 2, |targets|
  {
    if targets != [] {
      var last := |targets| - 1;
      assert ArmsOf(t, j, targets, after)[..last] == ArmsOf(t, j, targets[..last], after);
      ArmJumpsLand(t, j, targets[..last], after);
      if Nests(t, j, targets[last]) { JumpsLand(t, Index(t.rpo, targets[last]), after); }
    }
  }

  lemma {:induction false} JoinJumpsLand(t: Tree, j: nat, joins: seq<nat>, after: Option<BlockId>, n: nat)
    requires t.Valid() && j < |t.rpo| && Closed(t) && n <= |joins|
    requires forall k :: 0 <= k < |joins| ==> j < joins[k] < |t.rpo|
    ensures forall x :: x in RegionJumps(RegionsOf(t, j, joins, after, n)) ==> x in t.rpo
    decreases |t.rpo| - j, 2, n
  {
    if n > 0 {
      JoinJumpsLand(t, j, joins, after, n - 1);
      JumpsLand(t, joins[n - 1], NextJoin(t, joins, n - 1, after));
      assert RegionsOf(t, j, joins, after, n)[..n - 1] == RegionsOf(t, j, joins, after, n - 1);
    }
  }

  // ---------------------------------------------------------------- the whole pass

  /** Plans a function whose successors all exist: the labels are exactly the jump targets, each
      reachable block is laid out once, every label is on a laid-out block, and on any sequence
      of branch choices the emitted code visits the blocks the graph visits. */
  method Plan(program: Program, entry: BlockId, tails: set<BlockId>) returns (root: Region, labels: set<BlockId>)
    requires entry < |program.blocks| < UNSET
    requires forall b, s :: 0 <= b < |program.blocks| && s in View(program, entry, tails).Successors(b) ==>
      s < |program.blocks|
    ensures labels == Jumps(root)
    ensures forall x :: Count(root, x) == if View(program, entry, tails).Reachable(x) then 1 else 0
    ensures forall x :: x in labels ==> Count(root, x) == 1
    ensures forall choices ::
      RunPlan(View(program, entry, tails), root, entry, choices)
        == RunGraph(View(program, entry, tails), entry, choices)
    ensures forall x :: View(program, entry, tails).Reachable(x) ==>
      FaithfulAt(View(program, entry, tails), Locate(View(program, entry, tails), root, Off, x), x)
  {
    var g := View(program, entry, tails);
    var doms, t := ComputeDoms(g);
    var planner := new Planner(g, doms, t);
    AllOnlyEdges(t);
    root := planner.LayRegion(entry, None, 0);
    labels := planner.labels;
    PlanIsSound(t, g, entry);
  }

  /** All that is promised of the plan read off a function's dominator tree. */
  lemma PlanIsSound(t: Tree, g: Graph, entry: BlockId)
    requires t.Valid() && t.g == g && g.entry == entry
    requires forall b, s :: g.Exists(b) && s in g.Successors(b) ==> g.Exists(s)
    ensures var root := RegionOf(t, 0, None);
      && (forall x :: Count(root, x) == if g.Reachable(x) then 1 else 0)
      && (forall x :: x in Jumps(root) ==> Count(root, x) == 1)
      && (forall choices :: RunPlan(g, root, entry, choices) == RunGraph(g, entry, choices))
      && (forall x :: g.Reachable(x) ==> FaithfulAt(g, Locate(g, root, Off, x), x))
  {
    var root, labels := RegionOf(t, 0, None), Jumps(RegionOf(t, 0, None));
    forall x ensures Count(root, x) == if g.Reachable(x) then 1 else 0 { LaidOutOnce(t, x); }
    forall b, s | b in t.rpo && s in g.Successors(b) ensures s in t.rpo { assert g.Edge(b, s); }
    JumpsLand(t, 0, None);
    forall x | x in labels ensures Count(root, x) == 1 { OrderIsReachable(g, t.rpo, x); }
    forall choices ensures RunPlan(g, root, entry, choices) == RunGraph(g, entry, choices) {
      PlanRunsLikeGraph(t, entry, choices);
    }
    forall x | g.Reachable(x) ensures FaithfulAt(g, Locate(g, root, Off, x), x) {
      LaidOutIsLocated(g, root, Off, x);
      LocateIsFaithful(t, 0, None, Off, x);
    }
  }
}
