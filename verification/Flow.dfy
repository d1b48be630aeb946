/** The part of a function's control-flow graph that the backend lays out, and its reverse
    postorder. */
module Flow {
  import opened Cfg

  /** A function's graph: for each block of the arena its outgoing edges, and the blocks that
      end in an integer dispatch. */
  datatype Graph = Graph(entry: BlockId, successors: seq<seq<BlockId>>, switches: set<BlockId>) {
    function Successors(block: BlockId): seq<BlockId> {
      if block < |successors| then successors[block] else []
    }

    predicate Exists(block: BlockId) { block < |successors| }

    /** One step along an edge whose target is in the arena. */
    predicate Edge(from: BlockId, to: BlockId) { to in Successors(from) && Exists(to) }

    /** A run of the function, as the blocks it visits. */
    ghost predicate IsRun(run: seq<BlockId>) {
      && run != [] && run[0] == entry && Exists(entry)
      && forall i :: 0 < i < |run| ==> StepAt(run, i)
    }

    ghost predicate StepAt(run: seq<BlockId>, i: nat)
      requires 0 < i < |run|
    {
      Edge(run[i - 1], run[i])
    }

    lemma ExtendRun(run: seq<BlockId>, block: BlockId)
      requires IsRun(run) && Edge(run[|run| - 1], block)
      ensures IsRun(run + [block])
    {
      forall i | 0 < i < |run + [block]| ensures StepAt(run + [block], i) {
        if i < |run| { assert StepAt(run, i); }
      }
    }

    lemma ShortenRun(run: seq<BlockId>)
      requires IsRun(run) && |run| > 1
      ensures IsRun(run[..|run| - 1]) && Edge(run[|run| - 2], run[|run| - 1])
    {
      var shorter := run[..|run| - 1];
      forall i | 0 < i < |shorter| ensures StepAt(shorter, i) {
        assert StepAt(run, i);
      }
      assert StepAt(run, |run| - 1);
    }

    ghost predicate Reachable(block: BlockId) {
      exists run :: IsRun(run) && run[|run| - 1] == block
    }
  }

  /** `tails` names blocks that return from the function themselves: they are leaves. */
  function View(program: Program, entry: BlockId, tails: set<BlockId>): Graph {
    Graph(entry,
      seq(|program.blocks|, b requires 0 <= b < |program.blocks| =>
        if b in tails then [] else program.blocks[b].term.Successors()),
      set b: BlockId | 0 <= b < |program.blocks| && program.blocks[b].term.Switch?)
  }

  ghost predicate Distinct(blocks: seq<BlockId>) {
    forall i, j :: 0 <= i < j < |blocks| ==> blocks[i] != blocks[j]
  }

  lemma {:induction false} DistinctBelow(blocks: seq<BlockId>, n: nat)
    requires Distinct(blocks) && forall b :: b in blocks ==> b < n
    ensures |blocks| <= n
  {
    if n == 0 {
      assert forall i :: 0 <= i < |blocks| ==> blocks[i] in blocks;
    } else if n - 1 in blocks {
      var k :| 0 <= k < |blocks| && blocks[k] == n - 1;
      var rest := blocks[..k] + blocks[k + 1..];
      assert forall i :: 0 <= i < |rest| ==> rest[i] == if i < k then blocks[i] else blocks[i + 1];
      forall b | b in rest ensures b < n - 1 {
        var i :| 0 <= i < |rest| && rest[i] == b;
        assert b in blocks;
      }
      DistinctBelow(rest, n - 1);
    } else {
      DistinctBelow(blocks, n - 1);
    }
  }

  /** Position of a block in the order. */
  ghost function Index(rpo: seq<BlockId>, block: BlockId): (k: nat)
    requires block in rpo
    ensures k < |rpo| && rpo[k] == block
  {
    var k: nat :| k < |rpo| && rpo[k] == block;
    k
  }

  lemma IndexUnique(rpo: seq<BlockId>, k: nat)
    requires Distinct(rpo) && k < |rpo|
    ensures Index(rpo, rpo[k]) == k
  {}

  /** The order starts at the entry, is closed under edges, and every other block in it has an
      edge from a block before it. */
  ghost predicate IsOrder(g: Graph, rpo: seq<BlockId>) {
    && rpo != [] && rpo[0] == g.entry && Distinct(rpo)
    && (forall b :: b in rpo ==> g.Exists(b))
    && (forall b, s :: b in rpo && g.Edge(b, s) ==> s in rpo)
    && (forall j {:trigger FromEarlier(g, rpo, j)} :: 1 <= j < |rpo| ==> FromEarlier(g, rpo, j))
  }

  ghost predicate FromEarlier(g: Graph, rpo: seq<BlockId>, j: nat)
    requires j < |rpo|
  {
    exists i :: 0 <= i < j && g.Edge(rpo[i], rpo[j])
  }

  lemma {:induction false} RunStaysInOrder(g: Graph, rpo: seq<BlockId>, run: seq<BlockId>)
    requires IsOrder(g, rpo) && g.IsRun(run)
    ensures run[|run| - 1] in rpo
  {
    if |run| > 1 {
      var shorter := run[..|run| - 1];
      g.ShortenRun(run);
      RunStaysInOrder(g, rpo, shorter);
    }
  }

  lemma {:induction false} OrderIsReached(g: Graph, rpo: seq<BlockId>, j: nat) returns (run: seq<BlockId>)
    requires IsOrder(g, rpo) && j < |rpo|
    ensures g.IsRun(run) && run[|run| - 1] == rpo[j]
  {
    if j == 0 {
      run := [g.entry];
    } else {
      assert FromEarlier(g, rpo, j);
      var i :| 0 <= i < j && g.Edge(rpo[i], rpo[j]);
      run := OrderIsReached(g, rpo, i);
      g.ExtendRun(run, rpo[j]);
      run := run + [rpo[j]];
    }
  }

  /** The order lists exactly the reachable blocks. */
  lemma OrderIsReachable(g: Graph, rpo: seq<BlockId>, block: BlockId)
    requires IsOrder(g, rpo)
    ensures block in rpo <==> g.Reachable(block)
  {
    if block in rpo {
      var run := OrderIsReached(g, rpo, Index(rpo, block));
    }
    if g.Reachable(block) {
      var run :| g.IsRun(run) && run[|run| - 1] == block;
      RunStaysInOrder(g, rpo, run);
    }
  }

  // ---------------------------------------------------------------- edges that go back

  ghost predicate Path(g: Graph, path: seq<BlockId>) {
    path != [] && forall i {:trigger path[i]} :: 0 <= i < |path| - 1 ==> g.Edge(path[i], path[i + 1])
  }

  ghost predicate Reaches(g: Graph, from: BlockId, to: BlockId) {
    exists path :: Path(g, path) && path[0] == from && path[|path| - 1] == to
  }

  lemma ReachesOn(g: Graph, from: BlockId, via: BlockId, to: BlockId)
    requires Reaches(g, from, via) && g.Edge(via, to)
    ensures Reaches(g, from, to)
  {
    var path :| Path(g, path) && path[0] == from && path[|path| - 1] == via;
    var longer := path + [to];
    forall i | 0 <= i < |longer| - 1 ensures g.Edge(longer[i], longer[i + 1]) {
      if i < |path| - 1 { assert g.Edge(path[i], path[i + 1]); }
    }
    assert longer[|longer| - 1] == to;
  }

  /** An edge that does not go on in the order closes a cycle: without cycles the order is topological. */
  ghost predicate RetreatsOnCycles(g: Graph, rpo: seq<BlockId>) {
    forall i, j :: 0 <= j <= i < |rpo| && g.Edge(rpo[i], rpo[j]) ==> Reaches(g, rpo[j], rpo[i])
  }

  /** As that, of finished blocks: an edge leads to a block finished before, or it closes a cycle. */
  ghost predicate FinishedInTurn(g: Graph, order: seq<BlockId>) {
    forall k, s :: 0 <= k < |order| && g.Edge(order[k], s) ==> s in order[..k] || Reaches(g, s, order[k])
  }

  // ---------------------------------------------------------------- the depth-first search

  type Frame = (BlockId, nat)

  /** Successor slots the frames on the stack have still to look at, plus one for each frame. */
  ghost function Pending(g: Graph, stack: seq<Frame>): nat {
    if stack == [] then 0
    else
      var last := stack[|stack| - 1];
      var slots := |g.Successors(last.0)|;
      Pending(g, stack[..|stack| - 1]) + 1 + (if last.1 <= slots then slots - last.1 else 0)
  }

  ghost function Unseen(g: Graph, seen: set<BlockId>): set<BlockId> {
    (set b: BlockId {:trigger b in seen} | 0 <= b < |g.successors|) - seen
  }

  ghost predicate Open(stack: seq<Frame>, block: BlockId) {
    exists i :: 0 <= i < |stack| && stack[i].0 == block
  }

  /** The seen blocks are the finished ones of `order` and the open ones of `stack`, none of
      them twice, and the entry is at the bottom. */
  ghost predicate Placed(g: Graph, seen: set<BlockId>, stack: seq<Frame>, order: seq<BlockId>) {
    && Distinct(order)
    && (forall i, j :: 0 <= i < j < |stack| ==> stack[i].0 != stack[j].0)
    && (forall i :: 0 <= i < |stack| ==> stack[i].0 !in order)
    && (forall b :: b in seen <==> b in order || Open(stack, b))
    && (forall b :: b in seen ==> g.Exists(b))
    && (if stack != [] then stack[0].0 == g.entry else order != [] && order[|order| - 1] == g.entry)
  }

  /** What the search has looked at is seen, and each open block but the first was found from
      the one below it. */
  ghost predicate Explored(g: Graph, seen: set<BlockId>, stack: seq<Frame>, order: seq<BlockId>) {
    && (forall i :: 0 <= i < |stack| ==> stack[i].1 <= |g.Successors(stack[i].0)|)
    && (forall i :: 0 < i < |stack| ==> FoundFromBelow(g, stack, i))
    && (forall i {:trigger SlotsSeen(g, seen, stack[i].0, stack[i].1)} ::
         0 <= i < |stack| ==> SlotsSeen(g, seen, stack[i].0, stack[i].1))
    && (forall b {:trigger SlotsSeen(g, seen, b, |g.Successors(b)|)} ::
         b in order ==> SlotsSeen(g, seen, b, |g.Successors(b)|))
  }

  ghost predicate FoundFromBelow(g: Graph, stack: seq<Frame>, i: nat)
    requires 0 < i < |stack|
  {
    g.Edge(stack[i - 1].0, stack[i].0)
  }

  ghost predicate SlotsSeen(g: Graph, seen: set<BlockId>, block: BlockId, upTo: nat) {
    forall q :: 0 <= q < upTo && q < |g.Successors(block)| && g.Exists(g.Successors(block)[q])
      ==> g.Successors(block)[q] in seen
  }

  /** A finished block has an edge from one that is still open or finished later. */
  ghost predicate Supported(g: Graph, stack: seq<Frame>, order: seq<BlockId>, k: nat)
    requires k < |order|
  {
    || (exists b :: Open(stack, b) && g.Edge(b, order[k]))
    || (exists i :: k < i < |order| && g.Edge(order[i], order[k]))
  }

  ghost predicate Searching(g: Graph, seen: set<BlockId>, stack: seq<Frame>, order: seq<BlockId>) {
    && Placed(g, seen, stack, order)
    && Explored(g, seen, stack, order)
    && (forall k {:trigger Supported(g, stack, order, k)} ::
         0 <= k < |order| && order[k] != g.entry ==> Supported(g, stack, order, k))
  }

  function Advanced(stack: seq<Frame>): seq<Frame>
    requires stack != []
  {
    stack[|stack| - 1 := (stack[|stack| - 1].0, stack[|stack| - 1].1 + 1)]
  }

  lemma SameFound(g: Graph, stack: seq<Frame>, stack': seq<Frame>)
    requires |stack| == |stack'| && forall i :: 0 <= i < |stack| ==> stack'[i].0 == stack[i].0
    requires forall i :: 0 < i < |stack| ==> FoundFromBelow(g, stack, i)
    ensures forall i :: 0 < i < |stack'| ==> FoundFromBelow(g, stack', i)
  {
    forall i | 0 < i < |stack'| ensures FoundFromBelow(g, stack', i) {
      assert FoundFromBelow(g, stack, i);
    }
  }

  lemma SamePlaced(g: Graph, seen: set<BlockId>, stack: seq<Frame>, stack': seq<Frame>, order: seq<BlockId>)
    requires |stack| == |stack'| && forall i :: 0 <= i < |stack| ==> stack'[i].0 == stack[i].0
    requires Placed(g, seen, stack, order)
    ensures Placed(g, seen, stack', order)
  {
    SameOpen(stack, stack');
  }

  lemma SameOpen(stack: seq<Frame>, stack': seq<Frame>)
    requires |stack| == |stack'| && forall i :: 0 <= i < |stack| ==> stack'[i].0 == stack[i].0
    ensures forall b :: Open(stack', b) <==> Open(stack, b)
  {
    forall b ensures Open(stack', b) <==> Open(stack, b) {
      if Open(stack, b) { var i :| 0 <= i < |stack| && stack[i].0 == b; assert stack'[i].0 == b; }
    }
  }

  lemma PushKeeps(g: Graph, seen: set<BlockId>, stack: seq<Frame>, order: seq<BlockId>, s: BlockId)
    requires Searching(g, seen, stack, order) && stack != []
    requires s !in seen && g.Edge(stack[|stack| - 1].0, s)
    ensures Searching(g, seen + {s}, stack + [(s, 0)], order)
  {
    var stack' := stack + [(s, 0)];
    forall b ensures Open(stack', b) <==> Open(stack, b) || b == s {
      if Open(stack, b) { var i :| 0 <= i < |stack| && stack[i].0 == b; assert stack'[i].0 == b; }
      assert stack'[|stack|].0 == s;
    }
    forall i | 0 <= i < |stack'| ensures stack'[i].0 !in order && SlotsSeen(g, seen + {s}, stack'[i].0, stack'[i].1) {
      if i < |stack| {
        assert stack'[i] == stack[i] && Open(stack, stack[i].0);
        assert SlotsSeen(g, seen, stack[i].0, stack[i].1);
      }
    }
    forall i | 0 < i < |stack'| ensures FoundFromBelow(g, stack', i) {
      if i < |stack| { assert FoundFromBelow(g, stack, i); }
    }
    forall b | b in order ensures SlotsSeen(g, seen + {s}, b, |g.Successors(b)|) {
      assert SlotsSeen(g, seen, b, |g.Successors(b)|);
    }
    forall i, j | 0 <= i < j < |stack'| ensures stack'[i].0 != stack'[j].0 {
      assert stack'[i] == stack[i];
      if j == |stack| { assert Open(stack, stack[i].0); } else { assert stack'[j] == stack[j]; }
    }
    forall k | 0 <= k < |order| && order[k] != g.entry ensures Supported(g, stack', order, k) {
      assert Supported(g, stack, order, k);
    }
  }

  lemma FinishKeeps(g: Graph, seen: set<BlockId>, stack: seq<Frame>, order: seq<BlockId>)
    requires Searching(g, seen, stack, order) && stack != []
    requires stack[|stack| - 1].1 == |g.Successors(stack[|stack| - 1].0)|
    ensures Searching(g, seen, stack[..|stack| - 1], order + [stack[|stack| - 1].0])
  {
    var top := |stack| - 1;
    var b := stack[top].0;
    var stack', order' := stack[..top], order + [b];
    FinishPlaced(g, seen, stack, order);
    assert Explored(g, seen, stack', order') by {
      assert SlotsSeen(g, seen, stack[top].0, stack[top].1);
      forall i | 0 <= i < |stack'| ensures SlotsSeen(g, seen, stack'[i].0, stack'[i].1) {
        assert SlotsSeen(g, seen, stack[i].0, stack[i].1);
      }
      forall i | 0 < i < |stack'| ensures FoundFromBelow(g, stack', i) {
        assert FoundFromBelow(g, stack, i);
      }
    }
    forall k | 0 <= k < |order'| && order'[k] != g.entry ensures Supported(g, stack', order', k) {
      if k == |order| {
        assert stack'[top - 1] == stack[top - 1];
        assert FoundFromBelow(g, stack, top);
        assert Open(stack', stack'[top - 1].0);
      } else {
        FinishSupported(g, stack, order, k);
      }
    }
  }

  /** An open block reaches every block opened after it. */
  lemma {:induction false} OpenReaches(g: Graph, stack: seq<Frame>, i: nat, j: nat)
    requires i <= j < |stack| && forall k :: 0 < k < |stack| ==> FoundFromBelow(g, stack, k)
    ensures Reaches(g, stack[i].0, stack[j].0)
    decreases j
  {
    if i == j {
      assert Path(g, [stack[i].0]);
    } else {
      OpenReaches(g, stack, i, j - 1);
      assert FoundFromBelow(g, stack, j);
      ReachesOn(g, stack[i].0, stack[j - 1].0, stack[j].0);
    }
  }

  lemma FinishInTurn(g: Graph, seen: set<BlockId>, stack: seq<Frame>, order: seq<BlockId>)
    requires Searching(g, seen, stack, order) && stack != [] && FinishedInTurn(g, order)
    requires stack[|stack| - 1].1 == |g.Successors(stack[|stack| - 1].0)|
    ensures FinishedInTurn(g, order + [stack[|stack| - 1].0])
  {
    var top := |stack| - 1;
    var b := stack[top].0;
    var more := order + [b];
    forall k, s | 0 <= k < |more| && g.Edge(more[k], s) ensures s in more[..k] || Reaches(g, s, more[k]) {
      assert more[..k] == order[..k];
      if k == |order| {
        assert order[..k] == order;
        assert SlotsSeen(g, seen, b, stack[top].1);
        var q :| 0 <= q < |g.Successors(b)| && g.Successors(b)[q] == s;
        if s !in order {
          assert Open(stack, s);
          var i :| 0 <= i < |stack| && stack[i].0 == s;
          OpenReaches(g, stack, i, top);
        }
      } else {
        assert more[k] == order[k];
      }
    }
  }

  /** An edge between finished blocks that leads to one finished no earlier. */
  lemma RetreatCloses(g: Graph, order: seq<BlockId>, k: nat, l: nat)
    requires FinishedInTurn(g, order) && Distinct(order) && k <= l < |order| && g.Edge(order[k], order[l])
    ensures Reaches(g, order[l], order[k])
  {
    assert order[l] !in order[..k];
  }

  lemma TurnsRound(g: Graph, order: seq<BlockId>)
    requires FinishedInTurn(g, order) && Distinct(order)
    ensures RetreatsOnCycles(g, Reverse(order))
  {
    var rpo, n := Reverse(order), |order|;
    forall i, j | 0 <= j <= i < n && g.Edge(rpo[i], rpo[j]) ensures Reaches(g, rpo[j], rpo[i]) {
      RetreatCloses(g, order, n - 1 - i, n - 1 - j);
    }
  }

  lemma FinishPlaced(g: Graph, seen: set<BlockId>, stack: seq<Frame>, order: seq<BlockId>)
    requires Searching(g, seen, stack, order) && stack != []
    ensures Placed(g, seen, stack[..|stack| - 1], order + [stack[|stack| - 1].0])
  {
    var top := |stack| - 1;
    var b := stack[top].0;
    var stack', order' := stack[..top], order + [b];
    forall c ensures c in seen <==> c in order' || Open(stack', c) {
      if Open(stack, c) && c != b {
        var i :| 0 <= i < |stack| && stack[i].0 == c;
        assert stack'[i].0 == c;
      }
      if Open(stack', c) {
        var i :| 0 <= i < |stack'| && stack'[i].0 == c;
        assert stack[i].0 == c;
      }
      assert Open(stack, b);
    }
    forall i, j | 0 <= i < j < |order'| ensures order'[i] != order'[j] {
      assert order'[i] == order[i] && order[i] in order;
    }
  }

  lemma FinishSupported(g: Graph, stack: seq<Frame>, order: seq<BlockId>, k: nat)
    requires stack != [] && k < |order| && Supported(g, stack, order, k)
    ensures Supported(g, stack[..|stack| - 1], order + [stack[|stack| - 1].0], k)
  {
    var top := |stack| - 1;
    var stack', order' := stack[..top], order + [stack[top].0];
    if b :| Open(stack, b) && g.Edge(b, order[k]) {
      var i :| 0 <= i < |stack| && stack[i].0 == b;
      if i == top {
        assert order'[|order|] == b && g.Edge(order'[|order|], order'[k]);
      } else {
        assert stack'[i].0 == b && Open(stack', b);
        assert order'[k] == order[k];
      }
    } else {
      var i :| k < i < |order| && g.Edge(order[i], order[k]);
      assert order'[i] == order[i] && order'[k] == order[k];
    }
  }

  function Reverse(blocks: seq<BlockId>): (r: seq<BlockId>)
    ensures |r| == |blocks| && forall i :: 0 <= i < |r| ==> r[i] == blocks[|blocks| - 1 - i]
  {
    if blocks == [] then [] else [blocks[|blocks| - 1]] + Reverse(blocks[..|blocks| - 1])
  }

  lemma FinishedIsOrder(g: Graph, seen: set<BlockId>, order: seq<BlockId>)
    requires Searching(g, seen, [], order)
    ensures IsOrder(g, Reverse(order))
  {
    var rpo, n := Reverse(order), |order|;
    forall b ensures b in rpo <==> b in seen {
      if b in order { var k :| 0 <= k < n && order[k] == b; assert rpo[n - 1 - k] == b; }
    }
    forall b, s | b in rpo && g.Edge(b, s) ensures s in rpo {
      var q :| 0 <= q < |g.Successors(b)| && g.Successors(b)[q] == s;
      assert SlotsSeen(g, seen, b, |g.Successors(b)|);
    }
    forall j | 1 <= j < |rpo| ensures FromEarlier(g, rpo, j) { FinishedLater(g, seen, order, j); }
  }

  /** What has an edge from a block finished later has it from one earlier in the order. */
  lemma FinishedLater(g: Graph, seen: set<BlockId>, order: seq<BlockId>, j: nat)
    requires Searching(g, seen, [], order) && 1 <= j < |order|
    ensures FromEarlier(g, Reverse(order), j)
  {
    var rpo, n := Reverse(order), |order|;
    var i := LaterSupport(g, seen, order, n - 1 - j);
    assert rpo[n - 1 - i] == order[i];
  }

  lemma LaterSupport(g: Graph, seen: set<BlockId>, order: seq<BlockId>, k: nat) returns (i: nat)
    requires Searching(g, seen, [], order) && k < |order| - 1
    ensures k < i < |order| && g.Edge(order[i], order[k])
  {
    assert order[k] != order[|order| - 1];
    assert Supported(g, [], order, k);
    i :| k < i < |order| && g.Edge(order[i], order[k]);
  }

  /** Depth-first search on an explicit stack, finished blocks reversed. */
  method ReversePostorder(g: Graph) returns (rpo: seq<BlockId>)
    ensures if g.Exists(g.entry) then IsOrder(g, rpo) && RetreatsOnCycles(g, rpo) else rpo == []
  {
    if !g.Exists(g.entry) { return []; }
    var order: seq<BlockId> := [];
    var seen := {g.entry};
    var stack: seq<Frame> := [(g.entry, 0)];
    assert stack[0].0 == g.entry;
    assert forall b :: Open(stack, b) <==> b == g.entry;
    while stack != []
      invariant Searching(g, seen, stack, order) && FinishedInTurn(g, order)
      decreases |Unseen(g, seen)|, Pending(g, stack)
    {
      var top := |stack| - 1;
      var (block, index) := stack[top];
      var successors := g.Successors(block);
      if index < |successors| {
        var successor := successors[index];
        if g.Exists(successor) && successor !in seen {
          AdvanceUnseen(g, seen, stack, order, successor);
          seen := seen + {successor};
          stack := Advanced(stack) + [(successor, 0)];
        } else {
          BumpKeeps(g, seen, stack, order, top);
          assert Advanced(stack)[..top] == stack[..top];
          stack := Advanced(stack);
        }
      } else {
        FinishKeeps(g, seen, stack, order);
        FinishInTurn(g, seen, stack, order);
        order := order + [block];
        stack := stack[..top];
      }
    }
    FinishedIsOrder(g, seen, order);
    TurnsRound(g, order);
    rpo := Reverse(order);
  }

  lemma AdvanceUnseen(g: Graph, seen: set<BlockId>, stack: seq<Frame>, order: seq<BlockId>, s: BlockId)
    requires Searching(g, seen, stack, order) && stack != []
    requires stack[|stack| - 1].1 < |g.Successors(stack[|stack| - 1].0)|
    requires s == g.Successors(stack[|stack| - 1].0)[stack[|stack| - 1].1] && g.Exists(s) && s !in seen
    ensures Searching(g, seen + {s}, Advanced(stack) + [(s, 0)], order)
    ensures |Unseen(g, seen + {s})| < |Unseen(g, seen)|
  {
    AdvanceSeen(g, seen, stack, order, s);
    assert Unseen(g, seen + {s}) == Unseen(g, seen) - {s};
  }

  lemma AdvanceSeen(g: Graph, seen: set<BlockId>, stack: seq<Frame>, order: seq<BlockId>, s: BlockId)
    requires Searching(g, seen, stack, order) && stack != []
    requires stack[|stack| - 1].1 < |g.Successors(stack[|stack| - 1].0)|
    requires s == g.Successors(stack[|stack| - 1].0)[stack[|stack| - 1].1] && g.Exists(s) && s !in seen
    ensures Searching(g, seen + {s}, Advanced(stack) + [(s, 0)], order)
  {
    var pushed := stack + [(s, 0)];
    PushKeeps(g, seen, stack, order, s);
    var top := |stack| - 1;
    BumpKeeps(g, seen + {s}, pushed, order, top);
    assert Advanced(stack) + [(s, 0)] == pushed[top := (pushed[top].0, pushed[top].1 + 1)];
  }

  /** Moving one frame past a slot whose target is seen. */
  lemma BumpKeeps(g: Graph, seen: set<BlockId>, stack: seq<Frame>, order: seq<BlockId>, at: nat)
    requires Searching(g, seen, stack, order) && at < |stack|
    requires stack[at].1 < |g.Successors(stack[at].0)|
    requires var s := g.Successors(stack[at].0)[stack[at].1]; g.Exists(s) ==> s in seen
    ensures Searching(g, seen, stack[at := (stack[at].0, stack[at].1 + 1)], order)
  {
    var stack' := stack[at := (stack[at].0, stack[at].1 + 1)];
    SamePlaced(g, seen, stack, stack', order);
    BumpExplored(g, seen, stack, order, at);
    SameSupported(g, stack, stack', order);
  }

  lemma BumpExplored(g: Graph, seen: set<BlockId>, stack: seq<Frame>, order: seq<BlockId>, at: nat)
    requires Explored(g, seen, stack, order) && at < |stack|
    requires stack[at].1 < |g.Successors(stack[at].0)|
    requires var s := g.Successors(stack[at].0)[stack[at].1]; g.Exists(s) ==> s in seen
    ensures Explored(g, seen, stack[at := (stack[at].0, stack[at].1 + 1)], order)
  {
    var stack' := stack[at := (stack[at].0, stack[at].1 + 1)];
    SameFound(g, stack, stack');
    forall i | 0 <= i < |stack'| ensures SlotsSeen(g, seen, stack'[i].0, stack'[i].1) {
      assert SlotsSeen(g, seen, stack[i].0, stack[i].1);
    }
  }

  lemma SameSupported(g: Graph, stack: seq<Frame>, stack': seq<Frame>, order: seq<BlockId>)
    requires |stack| == |stack'| && forall i :: 0 <= i < |stack| ==> stack'[i].0 == stack[i].0
    requires forall k {:trigger Supported(g, stack, order, k)} ::
      0 <= k < |order| && order[k] != g.entry ==> Supported(g, stack, order, k)
    ensures forall k {:trigger Supported(g, stack', order, k)} ::
      0 <= k < |order| && order[k] != g.entry ==> Supported(g, stack', order, k)
  {
    SameOpen(stack, stack');
    forall k | 0 <= k < |order| && order[k] != g.entry ensures Supported(g, stack', order, k) {
      assert Supported(g, stack, order, k);
    }
  }
}
