/** Turns a control-flow graph into nested regions, gotos and fallthroughs. The plan is the
    dominator tree: a block with one incoming edge nests into that edge, a join is laid out
    after the branch of the block that immediately dominates it. */
module Layout {
  import opened Cfg
  import opened Flow
  import opened Dominators

  // ---------------------------------------------------------------- predecessor lists

  function Occurrences(blocks: seq<BlockId>, target: BlockId): nat {
    if blocks == [] then 0
    else Occurrences(blocks[..|blocks| - 1], target) + if blocks[|blocks| - 1] == target then 1 else 0
  }

  /** `index` once for each edge of `blocks` into `target`. */
  function EdgesFrom(index: nat, blocks: seq<BlockId>, target: BlockId): seq<nat> {
    if blocks == [] then []
    else EdgesFrom(index, blocks[..|blocks| - 1], target) + if blocks[|blocks| - 1] == target then [index] else []
  }

  function EdgesInto(g: Graph, rpo: seq<BlockId>, n: nat, target: BlockId): seq<nat>
    requires n <= |rpo|
  {
    if n == 0 then []
    else EdgesInto(g, rpo, n - 1, target) + EdgesFrom(n - 1, g.Successors(rpo[n - 1]), target)
  }

  lemma {:induction false} EdgesFromMembers(index: nat, blocks: seq<BlockId>, target: BlockId)
    ensures |EdgesFrom(index, blocks, target)| == Occurrences(blocks, target)
    ensures forall p :: p in EdgesFrom(index, blocks, target) ==> p == index
    ensures target in blocks <==> Occurrences(blocks, target) > 0
  {
    if blocks != [] {
      EdgesFromMembers(index, blocks[..|blocks| - 1], target);
      assert blocks == blocks[..|blocks| - 1] + [blocks[|blocks| - 1]];
    }
  }

  lemma EdgesFromIs(index: nat, blocks: seq<BlockId>, target: BlockId, p: nat)
    ensures p in EdgesFrom(index, blocks, target) <==> p == index && target in blocks
  {
    EdgesFromMembers(index, blocks, target);
    var from := EdgesFrom(index, blocks, target);
    if target in blocks { assert from[0] in from; }
  }

  lemma {:induction false} EdgesIntoMembers(g: Graph, rpo: seq<BlockId>, n: nat, target: BlockId, p: nat)
    requires n <= |rpo|
    ensures p in EdgesInto(g, rpo, n, target) <==> p < n && target in g.Successors(rpo[p])
  {
    if n > 0 {
      var into, from := EdgesInto(g, rpo, n - 1, target), EdgesFrom(n - 1, g.Successors(rpo[n - 1]), target);
      EdgesIntoMembers(g, rpo, n - 1, target, p);
      EdgesFromIs(n - 1, g.Successors(rpo[n - 1]), target, p);
      assert p in into + from <==> p in into || p in from;
    }
  }

  lemma {:induction false} EdgesIntoCount(g: Graph, rpo: seq<BlockId>, n: nat, target: BlockId, p: nat)
    requires p < n <= |rpo|
    ensures |EdgesInto(g, rpo, n, target)| >= Occurrences(g.Successors(rpo[p]), target)
  {
    EdgesFromMembers(n - 1, g.Successors(rpo[n - 1]), target);
    if p < n - 1 { EdgesIntoCount(g, rpo, n - 1, target, p); }
  }

  function Predecessors(g: Graph, rpo: seq<BlockId>): (preds: seq<seq<nat>>)
    ensures |preds| == |rpo|
  {
    seq(|rpo|, j requires 0 <= j < |rpo| => EdgesInto(g, rpo, |rpo|, rpo[j]))
  }

  /** The incoming edges of every block of the order, by the position of their source. */
  method CollectPredecessors(g: Graph, rpo: seq<BlockId>) returns (preds: seq<seq<nat>>)
    requires IsOrder(g, rpo)
    ensures preds == Predecessors(g, rpo)
  {
    var order := map j | 0 <= j < |rpo| :: rpo[j] := j;
    preds := seq(|rpo|, _ => []);
    for index := 0 to |rpo|
      invariant |preds| == |rpo|
      invariant forall j :: 0 <= j < |rpo| ==> preds[j] == EdgesInto(g, rpo, index, rpo[j])
    {
      preds := AddEdges(g, rpo, order, index, preds);
    }
  }

  method AddEdges(g: Graph, rpo: seq<BlockId>, order: map<BlockId, nat>, index: nat, before: seq<seq<nat>>)
    returns (preds: seq<seq<nat>>)
    requires Distinct(rpo) && index < |rpo| && |before| == |rpo|
    requires forall b :: b in order <==> b in rpo
    requires forall j :: 0 <= j < |rpo| ==> order[rpo[j]] == j
    ensures |preds| == |rpo|
    ensures forall j :: 0 <= j < |rpo| ==> preds[j] == before[j] + EdgesFrom(index, g.Successors(rpo[index]), rpo[j])
  {
    var successors := g.Successors(rpo[index]);
    preds := before;
    for q := 0 to |successors|
      invariant |preds| == |rpo|
      invariant forall j :: 0 <= j < |rpo| ==> preds[j] == before[j] + EdgesFrom(index, successors[..q], rpo[j])
    {
      ghost var old_ := preds;
      assert successors[..q + 1][..q] == successors[..q];
      if successors[q] in order {
        var target := order[successors[q]];
        preds := preds[target := preds[target] + [index]];
      }
      forall j: nat | 0 <= j < |rpo| ensures preds[j] == before[j] + EdgesFrom(index, successors[..q + 1], rpo[j]) {
        if successors[q] == rpo[j] { IndexUnique(rpo, j); }
        assert old_[j] == before[j] + EdgesFrom(index, successors[..q], rpo[j]);
      }
    }
    assert successors[..|successors|] == successors;
  }

  // ---------------------------------------------------------------- the dominator tree

  /** The order, the predecessor lists and the immediate dominators of one graph. */
  datatype Tree = Tree(g: Graph, rpo: seq<BlockId>, preds: seq<seq<nat>>, idom: seq<nat>) {
    predicate Sized() {
      |preds| == |rpo| && |idom| == |rpo|
    }

    /** A block's immediate dominator comes before it in the order. */
    ghost predicate Down() {
      Sized() && forall j :: 1 <= j < |idom| ==> idom[j] < j
    }

    ghost predicate Valid() {
      && IsOrder(g, rpo) && |rpo| < UNSET && Sized()
      && preds == Predecessors(g, rpo) && Forest(idom)
      && (forall j :: 0 <= j < |idom| ==> idom[j] != UNSET)
      && (forall j {:trigger ImmediatelyDominates(preds, idom[j], j)} ::
           1 <= j < |idom| ==> ImmediatelyDominates(preds, idom[j], j))
      && (forall a: nat, j {:trigger Dominates(preds, a, j)} ::
           0 <= j < |idom| ==> (Chain(idom, a, j) <==> Dominates(preds, a, j)))
    }

    /** Joins that `owner` immediately dominates, in the order, among positions below `n`. */
    function Joins(owner: nat, n: nat): (joins: seq<nat>)
      requires Sized() && n <= |rpo|
      ensures forall k :: 0 <= k < |joins| ==> joins[k] < n
    {
      if n <= 1 then []
      else
        var shorter := Joins(owner, n - 1);
        if |preds[n - 1]| > 1 && idom[n - 1] == owner then shorter + [n - 1] else shorter
    }

    lemma {:induction false} JoinsMember(owner: nat, n: nat, c: nat)
      requires Sized() && n <= |rpo|
      ensures c in Joins(owner, n) <==> 1 <= c < n && |preds[c]| > 1 && idom[c] == owner
      ensures forall i, k :: 0 <= i < k < |Joins(owner, n)| ==> Joins(owner, n)[i] < Joins(owner, n)[k]
    {
      if n > 1 {
        JoinsMember(owner, n - 1, c);
        var shorter := Joins(owner, n - 1);
        assert forall k :: 0 <= k < |shorter| ==> shorter[k] < n - 1;
      }
    }

    lemma {:induction false} JoinsAbove(owner: nat, n: nat)
      requires Down() && n <= |rpo|
      ensures forall k :: 0 <= k < |Joins(owner, n)| ==> owner < Joins(owner, n)[k]
    {
      if n > 1 { JoinsAbove(owner, n - 1); }
    }

    function JoinBlocks(owner: nat, n: nat): (joins: seq<BlockId>)
      requires Sized() && n <= |rpo|
      ensures |joins| == |Joins(owner, n)|
      ensures forall k :: 0 <= k < |joins| ==> joins[k] == rpo[Joins(owner, n)[k]]
    {
      if n <= 1 then []
      else if |preds[n - 1]| > 1 && idom[n - 1] == owner then JoinBlocks(owner, n - 1) + [rpo[n - 1]]
      else JoinBlocks(owner, n - 1)
    }
  }

  lemma OrderedPredecessors(g: Graph, rpo: seq<BlockId>)
    requires IsOrder(g, rpo)
    ensures Ordered(Predecessors(g, rpo))
  {
    var preds := Predecessors(g, rpo);
    forall j, p: nat | 0 <= j < |preds| && p in preds[j] ensures p < |preds| {
      EdgesIntoMembers(g, rpo, |rpo|, rpo[j], p);
    }
    forall j | 1 <= j < |preds| ensures FromBelow(preds, j) {
      assert FromEarlier(g, rpo, j);
      var i: nat :| 0 <= i < j && g.Edge(rpo[i], rpo[j]);
      EdgesIntoMembers(g, rpo, |rpo|, rpo[j], i);
      assert i in preds[j];
    }
  }

  /** On the control-flow graph itself: a dominator is a block no run can avoid. */
  lemma DominatesRuns(t: Tree, a: nat, j: nat)
    requires t.Valid() && a < |t.rpo| && j < |t.rpo|
    ensures Dominates(t.preds, a, j) <==>
      forall run :: t.g.IsRun(run) && run[|run| - 1] == t.rpo[j] ==> t.rpo[a] in run
  {
    if Dominates(t.preds, a, j) {
      forall run | t.g.IsRun(run) && run[|run| - 1] == t.rpo[j] ensures t.rpo[a] in run {
        var path := RunToPath(t, run);
        IndexUnique(t.rpo, j);
        var k :| 0 <= k < |path| && path[k] == a;
        assert run[k] == t.rpo[a];
      }
    }
    if forall run :: t.g.IsRun(run) && run[|run| - 1] == t.rpo[j] ==> t.rpo[a] in run {
      forall path | PathTo(t.preds, path, j) ensures a in path {
        var run := PathToRun(t, path);
        var k :| 0 <= k < |run| && run[k] == t.rpo[a];
        IndexUnique(t.rpo, a);
        IndexUnique(t.rpo, path[k]);
      }
    }
  }

  lemma {:induction false} RunToPath(t: Tree, run: seq<BlockId>) returns (path: seq<nat>)
    requires t.Valid() && t.g.IsRun(run)
    ensures |path| == |run| && forall i :: 0 <= i < |path| ==> path[i] < |t.rpo| && t.rpo[path[i]] == run[i]
    ensures run[|run| - 1] in t.rpo && PathTo(t.preds, path, Index(t.rpo, run[|run| - 1]))
  {
    RunStaysInOrder(t.g, t.rpo, run);
    var last := run[|run| - 1];
    if |run| == 1 {
      IndexUnique(t.rpo, 0);
      path := [0];
    } else {
      t.g.ShortenRun(run);
      path := RunToPath(t, run[..|run| - 1]);
      var p := path[|path| - 1];
      EdgesIntoMembers(t.g, t.rpo, |t.rpo|, last, p);
      ExtendPath(t.preds, path, p, Index(t.rpo, last));
      path := path + [Index(t.rpo, last)];
    }
  }

  lemma {:induction false} PathToRun(t: Tree, path: seq<nat>) returns (run: seq<BlockId>)
    requires t.Valid() && IsPath(t.preds, path)
    ensures |path| == |run| && forall i :: 0 <= i < |path| ==> path[i] < |t.rpo| && t.rpo[path[i]] == run[i]
    ensures t.g.IsRun(run)
  {
    var j := path[|path| - 1];
    if |path| == 1 {
      run := [t.g.entry];
    } else {
      run := PathToRun(t, path[..|path| - 1]);
      EdgesIntoMembers(t.g, t.rpo, |t.rpo|, t.rpo[j], path[|path| - 2]);
      assert path[|path| - 2] in t.preds[j];
      t.g.ExtendRun(run, t.rpo[j]);
      run := run + [t.rpo[j]];
    }
  }

  /** What the planner reads off the tree. */
  datatype Doms = Doms(incoming: map<BlockId, nat>, joins: map<BlockId, seq<BlockId>>) {
    function EdgeCount(block: BlockId): nat { if block in incoming then incoming[block] else 0 }

    function JoinsOf(block: BlockId): seq<BlockId> { Lookup(joins, block) }

    ghost predicate Describes(t: Tree)
      requires t.Sized()
    {
      && (forall b :: b in incoming <==> b in t.rpo)
      && (forall j :: 0 <= j < |t.rpo| ==> incoming[t.rpo[j]] == |t.preds[j]|)
      && (forall j :: 0 <= j < |t.rpo| ==> JoinsOf(t.rpo[j]) == t.JoinBlocks(j, |t.rpo|))
    }
  }

  method ComputeTree(g: Graph) returns (t: Tree)
    requires g.Exists(g.entry) && |g.successors| < UNSET
    ensures t.g == g && t.Valid()
  {
    var rpo := ReversePostorder(g);
    OrderIsBounded(g, rpo);
    var preds := CollectPredecessors(g, rpo);
    OrderedPredecessors(g, rpo);
    var idom := ImmediateDominators(preds);
    t := Tree(g, rpo, preds, idom[..]);
  }

  method ComputeDoms(g: Graph) returns (doms: Doms, t: Tree)
    requires g.Exists(g.entry) && |g.successors| < UNSET
    ensures t.g == g && t.Valid() && doms.Describes(t)
  {
    t := ComputeTree(g);
    doms := ReadOff(t);
  }

  method ReadOff(t: Tree) returns (doms: Doms)
    requires t.Sized() && Distinct(t.rpo) && 0 < |t.rpo| < UNSET
    requires forall j :: 1 <= j < |t.idom| ==> t.idom[j] < j
    ensures doms.Describes(t)
  {
    var joins := CollectJoins(t);
    var incoming := CountIncoming(t.rpo, t.preds);
    doms := Doms(incoming, joins);
  }

  method CountIncoming(rpo: seq<BlockId>, preds: seq<seq<nat>>) returns (incoming: map<BlockId, nat>)
    requires Distinct(rpo) && |preds| == |rpo|
    ensures forall b :: b in incoming <==> b in rpo
    ensures forall j :: 0 <= j < |rpo| ==> incoming[rpo[j]] == |preds[j]|
  {
    incoming := map[];
    for k := 0 to |rpo|
      invariant forall b :: b in incoming <==> b in rpo[..k]
      invariant forall j :: 0 <= j < k ==> rpo[j] in incoming && incoming[rpo[j]] == |preds[j]|
    {
      incoming := incoming[rpo[k] := |preds[k]|];
    }
  }

  function Lookup(joins: map<BlockId, seq<BlockId>>, block: BlockId): seq<BlockId> {
    if block in joins then joins[block] else []
  }

  /** In ascending order of position, so each owner's list comes out in the order too. */
  method CollectJoins(t: Tree) returns (joins: map<BlockId, seq<BlockId>>)
    requires t.Sized() && Distinct(t.rpo) && 0 < |t.rpo| < UNSET
    requires forall j :: 1 <= j < |t.idom| ==> t.idom[j] < j
    ensures forall j :: 0 <= j < |t.rpo| ==> Lookup(joins, t.rpo[j]) == t.JoinBlocks(j, |t.rpo|)
  {
    joins := map[];
    for index := 1 to |t.rpo|
      invariant forall j :: 0 <= j < |t.rpo| ==> Lookup(joins, t.rpo[j]) == t.JoinBlocks(j, index)
    {
      if |t.preds[index]| > 1 && t.idom[index] != UNSET {
        var owner := t.rpo[t.idom[index]];
        joins := joins[owner := Lookup(joins, owner) + [t.rpo[index]]];
      }
    }
  }

  /** Distinct arena positions are no more than the arena is long. */
  lemma OrderIsBounded(g: Graph, rpo: seq<BlockId>)
    requires IsOrder(g, rpo)
    ensures |rpo| <= |g.successors|
  {
    DistinctBelow(rpo, |g.successors|);
  }
}
