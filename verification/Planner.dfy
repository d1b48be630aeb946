/** Plans a function's layout from its dominator tree, and shows that running the plan visits
    the blocks the graph would visit. */
module Planner {
  import opened Cfg
  import opened Flow
  import opened Dominators
  import opened Layout

  datatype Region = Region(block: BlockId, edges: seq<Arm>, joins: seq<Region>)

  /** What an edge becomes: the target's region nested in place, a jump, or nothing because the
      target is laid out next. */
  datatype Arm = Inline(region: Region) | Jump(target: BlockId) | Fallthrough

  // ---------------------------------------------------------------- the plan as a function

  /** What an arm of the block may fall into. A dispatch's case runs into the next case. */
  function ArmTarget(t: Tree, j: nat, joins: seq<nat>, after: Option<BlockId>): Option<BlockId>
    requires j < |t.rpo| && forall k :: 0 <= k < |joins| ==> joins[k] < |t.rpo|
  {
    if t.rpo[j] in t.g.switches then None
    else if joins != [] then Some(t.rpo[joins[0]])
    else after
  }

  ghost function RegionOf(t: Tree, j: nat, after: Option<BlockId>): Region
    requires t.Down() && j < |t.rpo|
    decreases |t.rpo| - j, 3
  {
    var joins := t.Joins(j, |t.rpo|);
    t.JoinsAbove(j, |t.rpo|);
    Region(t.rpo[j],
           ArmsOf(t, j, t.g.Successors(t.rpo[j]), ArmTarget(t, j, joins, after)),
           RegionsOf(t, j, joins, after, |joins|))
  }

  /** The joins of the block at `j`, all of them further down. */
  ghost function JoinsAt(t: Tree, j: nat): (joins: seq<nat>)
    requires t.Down() && j < |t.rpo|
    ensures forall k :: 0 <= k < |joins| ==> j < joins[k] < |t.rpo|
  {
    t.JoinsAbove(j, |t.rpo|);
    t.Joins(j, |t.rpo|)
  }

  lemma RegionParts(t: Tree, j: nat, after: Option<BlockId>)
    requires t.Down() && j < |t.rpo|
    ensures RegionOf(t, j, after) == Region(t.rpo[j],
      ArmsOf(t, j, t.g.Successors(t.rpo[j]), ArmTarget(t, j, JoinsAt(t, j), after)),
      RegionsOf(t, j, JoinsAt(t, j), after, |JoinsAt(t, j)|))
  {}

  /** The target nests when the edge is its only one and does not lead back. */
  ghost predicate Nests(t: Tree, j: nat, target: BlockId)
    requires t.Sized()
  {
    target in t.rpo && |t.preds[Index(t.rpo, target)]| == 1 && j < Index(t.rpo, target)
  }

  ghost function ArmOf(t: Tree, j: nat, target: BlockId, after: Option<BlockId>): Arm
    requires t.Down() && j < |t.rpo|
    decreases |t.rpo| - j, 1
  {
    if Nests(t, j, target) then Inline(RegionOf(t, Index(t.rpo, target), after))
    else if after == Some(target) then Fallthrough
    else Jump(target)
  }

  ghost function ArmsOf(t: Tree, j: nat, targets: seq<BlockId>, after: Option<BlockId>): (arms: seq<Arm>)
    requires t.Down() && j < |t.rpo|
    ensures |arms| == |targets| && forall i :: 0 <= i < |arms| ==> arms[i] == ArmOf(t, j, targets[i], after)
    decreases |t.rpo| - j, 2, |targets|
  {
    if targets == [] then []
    else ArmsOf(t, j, targets[..|targets| - 1], after) + [ArmOf(t, j, targets[|targets| - 1], after)]
  }

  /** The first `n` joins. */
  ghost function RegionsOf(t: Tree, j: nat, joins: seq<nat>, after: Option<BlockId>, n: nat): (regions: seq<Region>)
    requires t.Down() && j < |t.rpo| && n <= |joins|
    requires forall k :: 0 <= k < |joins| ==> j < joins[k] < |t.rpo|
    ensures |regions| == n
    decreases |t.rpo| - j, 2, n
  {
    if n == 0 then []
    else RegionsOf(t, j, joins, after, n - 1) + [RegionOf(t, joins[n - 1], NextJoin(t, joins, n - 1, after))]
  }

  lemma RegionsMore(t: Tree, j: nat, joins: seq<nat>, after: Option<BlockId>, n: nat)
    requires t.Down() && j < |t.rpo| && n < |joins|
    requires forall k :: 0 <= k < |joins| ==> j < joins[k] < |t.rpo|
    ensures RegionsOf(t, j, joins, after, n + 1)
         == RegionsOf(t, j, joins, after, n) + [RegionOf(t, joins[n], NextJoin(t, joins, n, after))]
  {}

  lemma ArmsMore(t: Tree, j: nat, targets: seq<BlockId>, after: Option<BlockId>, n: nat)
    requires t.Down() && j < |t.rpo| && n < |targets|
    ensures ArmsOf(t, j, targets[..n + 1], after)
      == ArmsOf(t, j, targets[..n], after) + [ArmOf(t, j, targets[n], after)]
  {}

  /** What is laid out right after the `k`-th join. */
  function NextJoin(t: Tree, joins: seq<nat>, k: nat, after: Option<BlockId>): Option<BlockId>
    requires k < |joins| && forall i :: 0 <= i < |joins| ==> joins[i] < |t.rpo|
  {
    if k + 1 < |joins| then Some(t.rpo[joins[k + 1]]) else after
  }

  /** The blocks some arm jumps to. */
  function Jumps(r: Region): set<BlockId>
    decreases r
  {
    ArmJumps(r.edges) + RegionJumps(r.joins)
  }

  lemma JumpsSplit(r: Region, before: set<BlockId>, after: set<BlockId>)
    requires after == before + ArmJumps(r.edges) + RegionJumps(r.joins)
    ensures after == before + Jumps(r)
  {}

  function ArmJumps(arms: seq<Arm>): set<BlockId>
    decreases arms
  {
    if arms == [] then {} else ArmJumps(arms[..|arms| - 1]) + JumpsOfArm(arms[|arms| - 1])
  }

  function JumpsOfArm(arm: Arm): set<BlockId>
    decreases arm
  {
    match arm
    case Inline(region) => Jumps(region)
    case Jump(target) => {target}
    case Fallthrough => {}
  }

  function RegionJumps(regions: seq<Region>): set<BlockId>
    decreases regions
  {
    if regions == [] then {}
    else RegionJumps(regions[..|regions| - 1]) + Jumps(regions[|regions| - 1])
  }

  lemma RegionJumpsAppend(regions: seq<Region>, region: Region)
    ensures RegionJumps(regions + [region]) == RegionJumps(regions) + Jumps(region)
  {
    assert (regions + [region])[..|regions|] == regions;
  }

  lemma ArmJumpsAppend(arms: seq<Arm>, arm: Arm)
    ensures ArmJumps(arms + [arm]) == ArmJumps(arms) + JumpsOfArm(arm)
  {
    assert (arms + [arm])[..|arms|] == arms;
  }

  // ---------------------------------------------------------------- the planner itself

  /** An edge that is its target's only one, unless it leads back to the entry, comes from the
      target's immediate dominator and goes down the order. */
  lemma OnlyEdge(t: Tree, j: nat, target: BlockId)
    requires t.Valid() && j < |t.rpo| && target in t.g.Successors(t.rpo[j]) && target in t.rpo
    requires |t.preds[Index(t.rpo, target)]| == 1 && target != t.g.entry
    ensures j < Index(t.rpo, target) && t.idom[Index(t.rpo, target)] == j
    ensures t.preds[Index(t.rpo, target)] == [j]
    ensures Occurrences(t.g.Successors(t.rpo[j]), target) == 1
  {
    var c := Index(t.rpo, target);
    OnlyPredecessor(t, j, target);
    OrderedPredecessors(t.g, t.rpo);
    assert FromBelow(t.preds, c);
    SolePredecessor(t, j, c);
  }

  lemma SoleEdge(g: Graph, rpo: seq<BlockId>, j: nat, target: BlockId)
    requires j < |rpo| && target in g.Successors(rpo[j]) && |EdgesInto(g, rpo, |rpo|, target)| == 1
    ensures EdgesInto(g, rpo, |rpo|, target) == [j] && Occurrences(g.Successors(rpo[j]), target) == 1
  {
    EdgesIntoMembers(g, rpo, |rpo|, target, j);
    EdgesIntoCount(g, rpo, |rpo|, target, j);
    EdgesFromMembers(j, g.Successors(rpo[j]), target);
    OnlyMember(EdgesInto(g, rpo, |rpo|, target), j);
  }

  lemma OnlyMember(edges: seq<nat>, j: nat)
    requires |edges| == 1 && j in edges
    ensures edges == [j]
  {}

  lemma OnlyPredecessor(t: Tree, j: nat, target: BlockId)
    requires t.Valid() && j < |t.rpo| && target in t.g.Successors(t.rpo[j]) && target in t.rpo
    requires |t.preds[Index(t.rpo, target)]| == 1
    ensures t.preds[Index(t.rpo, target)] == [j] && Occurrences(t.g.Successors(t.rpo[j]), target) == 1
  {
    PredecessorsAt(t.g, t.rpo, Index(t.rpo, target));
    SoleEdge(t.g, t.rpo, j, target);
  }

  lemma PredecessorsAt(g: Graph, rpo: seq<BlockId>, c: nat)
    requires c < |rpo|
    ensures Predecessors(g, rpo)[c] == EdgesInto(g, rpo, |rpo|, rpo[c])
  {}

  lemma SolePredecessor(t: Tree, j: nat, c: nat)
    requires t.Valid() && 1 <= c < |t.rpo| && t.preds[c] == [j] && j < c
    ensures t.idom[c] == j
  {
    var d := t.idom[c];
    forall path | PathTo(t.preds, path, c) ensures j in path {
      ShortenPath(t.preds, path, c);
      assert path[|path| - 2] == j;
    }
    assert ImmediatelyDominates(t.preds, t.idom[c], c);
    assert Dominates(t.preds, j, c);
    assert Dominates(t.preds, j, d);
    assert j in t.preds[c];
    DominatesPredecessor(t.preds, d, j, c);
    ChainBound(t.idom, j, d);
    ChainBound(t.idom, d, j);
  }

  ghost predicate OnlyEdgesGoDown(t: Tree)
    requires t.Sized()
  {
    forall j, target {:trigger Nests(t, j, target)} :: 0 <= j < |t.rpo| && target in t.g.Successors(t.rpo[j])
      && target in t.rpo && |t.preds[Index(t.rpo, target)]| == 1 && target != t.g.entry
      ==> Nests(t, j, target)
  }

  lemma AllOnlyEdges(t: Tree)
    requires t.Valid()
    ensures OnlyEdgesGoDown(t)
  {
    forall j: nat, target | j < |t.rpo| && target in t.g.Successors(t.rpo[j])
      && target in t.rpo && |t.preds[Index(t.rpo, target)]| == 1 && target != t.g.entry
      ensures Nests(t, j, target)
    {
      OnlyEdge(t, j, target);
    }
  }

  class Planner {
    const g: Graph
    const doms: Doms
    const t: Tree
    var labels: set<BlockId>
    var open: set<BlockId>

    constructor (g: Graph, doms: Doms, t: Tree)
      ensures this.g == g && this.doms == doms && this.t == t && labels == {} && open == {}
    {
      this.g, this.doms, this.t := g, doms, t;
      labels, open := {}, {};
    }

    ghost predicate Ready() {
      t.Down() && t.rpo != [] && t.rpo[0] == g.entry && Distinct(t.rpo) && doms.Describes(t) && g == t.g
        && OnlyEdgesGoDown(t)
    }

    /** Only blocks before `j` in the order are open, the entry among them. */
    ghost predicate OpenBelow(j: nat)
      reads this
    {
      && (forall b :: b in open ==> b in t.rpo && Index(t.rpo, b) < j)
      && (j > 0 ==> g.entry in open)
    }

    method LayRegion(block: BlockId, after: Option<BlockId>, ghost j: nat) returns (r: Region)
      requires Ready() && j < |t.rpo| && t.rpo[j] == block && OpenBelow(j)
      modifies this
      ensures r == RegionOf(t, j, after)
      ensures labels == old(labels) + Jumps(r) && open == old(open)
      decreases |t.rpo| - j, 3
    {
      IndexUnique(t.rpo, j);
      assert block !in open;
      open := open + {block};
      assert OpenBelow(j + 1);
      var edges, nested := LayInside(block, after, j);
      open := open - {block};
      assert open == old(open);
      r := Region(block, edges, nested);
      JumpsSplit(r, old(labels), labels);
      RegionParts(t, j, after);
    }

    /** The arms of a block, and the joins that follow it. */
    method LayInside(block: BlockId, after: Option<BlockId>, ghost j: nat)
      returns (edges: seq<Arm>, nested: seq<Region>)
      requires Ready() && j < |t.rpo| && t.rpo[j] == block && OpenBelow(j + 1)
      modifies this
      ensures edges == ArmsOf(t, j, t.g.Successors(block), ArmTarget(t, j, JoinsAt(t, j), after))
      ensures nested == RegionsOf(t, j, JoinsAt(t, j), after, |JoinsAt(t, j)|)
      ensures labels == old(labels) + ArmJumps(edges) + RegionJumps(nested) && open == old(open)
      decreases |t.rpo| - j, 2, 0
    {
      IndexUnique(t.rpo, j);
      var joins := doms.JoinsOf(block);
      var armTarget := if block in g.switches then None else if joins != [] then Some(joins[0]) else after;
      edges := LayArms(g.Successors(block), armTarget, j);
      nested := LayJoins(joins, after, j, JoinsAt(t, j));
    }

    method LayArms(successors: seq<BlockId>, after: Option<BlockId>, ghost j: nat) returns (arms: seq<Arm>)
      requires Ready() && j < |t.rpo| && successors == g.Successors(t.rpo[j]) && OpenBelow(j + 1)
      modifies this
      ensures arms == ArmsOf(t, j, successors, after)
      ensures labels == old(labels) + ArmJumps(arms) && open == old(open)
      decreases |t.rpo| - j, 1, 1
    {
      arms := [];
      for i := 0 to |successors|
        invariant arms == ArmsOf(t, j, successors[..i], after)
        invariant labels == old(labels) + ArmJumps(arms) && open == old(open)
      {
        var arm := LayArm(successors[i], after, j);
        ArmJumpsAppend(arms, arm);
        ArmsMore(t, j, successors, after, i);
        arms := arms + [arm];
      }
      assert successors[..|successors|] == successors;
    }

    method LayJoins(joins: seq<BlockId>, after: Option<BlockId>, ghost j: nat, ghost indices: seq<nat>)
      returns (regions: seq<Region>)
      requires Ready() && j < |t.rpo| && OpenBelow(j + 1) && |indices| == |joins|
      requires forall k :: 0 <= k < |joins| ==> j < indices[k] < |t.rpo| && joins[k] == t.rpo[indices[k]]
      modifies this
      ensures regions == RegionsOf(t, j, indices, after, |joins|)
      ensures labels == old(labels) + RegionJumps(regions) && open == old(open)
      decreases |t.rpo| - j, 1, 1
    {
      regions := [];
      for i := 0 to |joins|
        invariant regions == RegionsOf(t, j, indices, after, i)
        invariant labels == old(labels) + RegionJumps(regions) && open == old(open)
      {
        var region := LayJoin(joins, after, j, indices, i);
        RegionsMore(t, j, indices, after, i);
        RegionJumpsAppend(regions, region);
        regions := regions + [region];
      }
    }

    method LayJoin(joins: seq<BlockId>, after: Option<BlockId>, ghost j: nat, ghost indices: seq<nat>, i: nat)
      returns (region: Region)
      requires Ready() && j < |t.rpo| && OpenBelow(j + 1) && |indices| == |joins| && i < |joins|
      requires forall k :: 0 <= k < |joins| ==> j < indices[k] < |t.rpo| && joins[k] == t.rpo[indices[k]]
      modifies this
      ensures region == RegionOf(t, indices[i], NextJoin(t, indices, i, after))
      ensures labels == old(labels) + Jumps(region) && open == old(open)
      decreases |t.rpo| - j, 1, 0
    {
      var next := if i + 1 < |joins| then Some(joins[i + 1]) else after;
      region := LayRegion(joins[i], next, indices[i]);
    }

    method LayArm(target: BlockId, after: Option<BlockId>, ghost j: nat) returns (arm: Arm)
      requires Ready() && j < |t.rpo| && target in g.Successors(t.rpo[j]) && OpenBelow(j + 1)
      modifies this
      ensures arm == ArmOf(t, j, target, after)
      ensures labels == old(labels) + JumpsOfArm(arm) && open == old(open)
      decreases |t.rpo| - j, 1, 0
    {
      if target in t.rpo { IndexUnique(t.rpo, Index(t.rpo, target)); }
      assert doms.EdgeCount(target) == 1 ==> target in t.rpo && |t.preds[Index(t.rpo, target)]| == 1;
      assert Nests(t, j, target) <==> doms.EdgeCount(target) == 1 && target !in open by {
        IndexUnique(t.rpo, 0);
      }
      // The open blocks all come before the target, unless the edge leads back to the entry.
      if doms.EdgeCount(target) == 1 && target !in open {
        var region := LayRegion(target, after, Index(t.rpo, target));
        arm := Inline(region);
        return;
      }
      if after == Some(target) {
        arm := Fallthrough;
        return;
      }
      labels := labels + {target};
      arm := Jump(target);
    }
  }
}
