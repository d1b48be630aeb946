/** Immediate dominators by the iterative algorithm of Cooper, Harvey and Kennedy, over
    blocks numbered in reverse postorder.

    The array `idom` is read as a forest: `Chain(idom, a, j)` says that `a` is met when one
    walks from `j` towards the entry. The whole proof is about these chains. They only ever
    shrink, they always contain the true dominators, and once a pass changes nothing they
    contain nothing else. Reverse postorder matters through one fact alone, that every block
    but the entry has a predecessor numbered below it. */
module Dominators {

  /** Marks a block no processed predecessor has reached yet. */
  const UNSET: nat := 0xFFFF_FFFF_FFFF_FFFF

  // ---------------------------------------------------------------- paths and dominance

  /** A path of the graph whose edges into `j` are listed by `preds[j]`, from block 0. */
  ghost predicate IsPath(preds: seq<seq<nat>>, path: seq<nat>) {
    && path != [] && path[0] == 0
    && (forall i :: 0 <= i < |path| ==> path[i] < |preds|)
    && (forall i :: 0 < i < |path| ==> path[i - 1] in preds[path[i]])
  }

  ghost predicate PathTo(preds: seq<seq<nat>>, path: seq<nat>, j: nat) {
    IsPath(preds, path) && path[|path| - 1] == j
  }

  /** Every path that ends in `j` meets `d`. */
  ghost predicate Dominates(preds: seq<seq<nat>>, d: nat, j: nat) {
    forall path :: PathTo(preds, path, j) ==> d in path
  }

  /** `d` is the strict dominator of `j` that every other strict dominator dominates. */
  ghost predicate ImmediatelyDominates(preds: seq<seq<nat>>, d: nat, j: nat) {
    && d != j && Dominates(preds, d, j)
    && forall e :: e != j && Dominates(preds, e, j) ==> Dominates(preds, e, d)
  }

  /** What a reverse postorder guarantees. */
  ghost predicate Ordered(preds: seq<seq<nat>>) {
    && (forall j, p :: 0 <= j < |preds| && p in preds[j] ==> p < |preds|)
    && (forall j {:trigger FromBelow(preds, j)} :: 1 <= j < |preds| ==> FromBelow(preds, j))
  }

  ghost predicate FromBelow(preds: seq<seq<nat>>, j: nat)
    requires j < |preds|
  {
    exists p :: p in preds[j] && p < j
  }

  lemma ExtendPath(preds: seq<seq<nat>>, path: seq<nat>, p: nat, j: nat)
    requires PathTo(preds, path, p) && j < |preds| && p in preds[j]
    ensures PathTo(preds, path + [j], j)
  {
    var longer := path + [j];
    forall i | 0 < i < |longer| ensures longer[i - 1] in preds[longer[i]] {
      if i == |path| { assert longer[i - 1] == p; }
    }
  }

  lemma ShortenPath(preds: seq<seq<nat>>, path: seq<nat>, j: nat)
    requires PathTo(preds, path, j) && j != 0
    ensures |path| >= 2
    ensures PathTo(preds, path[..|path| - 1], path[|path| - 2])
    ensures path[|path| - 2] in preds[j]
  {}

  /** A dominator of `j` other than `j` dominates every predecessor of `j`. */
  lemma DominatesPredecessor(preds: seq<seq<nat>>, d: nat, p: nat, j: nat)
    requires j < |preds| && p in preds[j] && d != j && Dominates(preds, d, j)
    ensures Dominates(preds, d, p)
  {
    forall path | PathTo(preds, path, p) ensures d in path {
      ExtendPath(preds, path, p, j);
      assert d in path + [j];
    }
  }

  // ---------------------------------------------------------------- chains of the forest

  ghost predicate Forest(idom: seq<nat>) {
    && (|idom| > 0 ==> idom[0] == 0)
    && |idom| <= UNSET
    && (forall i :: 1 <= i < |idom| && idom[i] != UNSET ==> idom[i] < i)
    && (forall i, j :: 0 <= i < j < |idom| && idom[j] != UNSET ==> idom[i] != UNSET)
  }

  ghost predicate Chain(idom: seq<nat>, a: nat, j: nat)
    requires Forest(idom)
    decreases j
  {
    j < |idom| && idom[j] != UNSET && (a == j || (j != 0 && Chain(idom, a, idom[j])))
  }

  lemma {:induction false} ChainBound(idom: seq<nat>, a: nat, j: nat)
    requires Forest(idom) && Chain(idom, a, j)
    ensures a <= j && idom[a] != UNSET
    decreases j
  {
    if a != j { ChainBound(idom, a, idom[j]); }
  }

  lemma {:induction false} ChainRoot(idom: seq<nat>, j: nat)
    requires Forest(idom) && j < |idom| && idom[j] != UNSET
    ensures Chain(idom, 0, j)
    decreases j
  {
    if j != 0 { ChainRoot(idom, idom[j]); }
  }

  lemma {:induction false} ChainTransitive(idom: seq<nat>, a: nat, b: nat, j: nat)
    requires Forest(idom) && Chain(idom, a, b) && Chain(idom, b, j)
    ensures Chain(idom, a, j)
    decreases j
  {
    if b != j { ChainTransitive(idom, a, b, idom[j]); }
  }

  /** Two blocks on one chain are on each other's chain. */
  lemma {:induction false} ChainLinear(idom: seq<nat>, a: nat, b: nat, j: nat)
    requires Forest(idom) && Chain(idom, a, j) && Chain(idom, b, j) && a <= b
    ensures Chain(idom, a, b)
    decreases j
  {
    if b != j {
      ChainBound(idom, b, j);
      ChainLinear(idom, a, b, idom[j]);
    }
  }

  /** What the chain of `j` becomes when `idom[k]` moves to `c`. */
  lemma {:induction false} ChainUpdate(idom: seq<nat>, k: nat, c: nat, x: nat, j: nat)
    requires Forest(idom) && 1 <= k < |idom| && c < k && idom[c] != UNSET
    requires forall i :: 0 <= i < k ==> idom[i] != UNSET
    requires Forest(idom[k := c]) && j < |idom| && idom[j] != UNSET
    ensures !Chain(idom, k, j) ==> (Chain(idom[k := c], x, j) <==> Chain(idom, x, j))
    ensures Chain(idom, k, j) ==>
      (Chain(idom[k := c], x, j) <==> (x >= k && Chain(idom, x, j)) || Chain(idom, x, c))
    decreases j
  {
    if j < k {
      ChainUnchangedBelow(idom, k, c, x, j);
      if Chain(idom, k, j) { ChainBound(idom, k, j); }
    } else if j == k {
      ChainUnchangedBelow(idom, k, c, x, c);
      if Chain(idom, x, c) { ChainBound(idom, x, c); }
      if Chain(idom, x, k) && x != k { ChainBound(idom, x, idom[k]); }
    } else {
      ChainUpdate(idom, k, c, x, idom[j]);
    }
  }

  lemma {:induction false} ChainUnchangedBelow(idom: seq<nat>, k: nat, c: nat, x: nat, j: nat)
    requires Forest(idom) && 1 <= k < |idom| && Forest(idom[k := c]) && j < k
    ensures Chain(idom[k := c], x, j) <==> Chain(idom, x, j)
    decreases j
  {
    if j != 0 && idom[j] != UNSET { ChainUnchangedBelow(idom, k, c, x, idom[j]); }
  }

  /** A block that was unset is on no chain but its own. */
  lemma {:induction false} FreshChain(idom: seq<nat>, k: nat, j: nat)
    requires Forest(idom) && k < |idom| && idom[k] == UNSET && j < |idom|
    ensures !Chain(idom, k, j)
  {
    if Chain(idom, k, j) { ChainBound(idom, k, j); }
  }

  // ---------------------------------------------------------------- the invariant of a pass

  /** In the chain of `j`, a block below `j` is also on the chain of each predecessor `p`
      numbered below `j`, except for what the current pass, which is at `k`, has left pending. */
  ghost predicate ForwardSupported(preds: seq<seq<nat>>, idom: seq<nat>, k: nat)
    requires Forest(idom) && |idom| == |preds|
  {
    forall y: nat, p: nat, j: nat {:trigger Chain(idom, y, j), p in preds[j]} ::
      1 <= j < |preds| && p in preds[j] && p < j && y < j && (j < k || y >= k) && Chain(idom, y, j)
      ==> Chain(idom, y, p)
  }

  /** The chain of `j` holds everything that is on the chains of all its set predecessors. */
  ghost predicate ClosedUnderMeet(preds: seq<seq<nat>>, idom: seq<nat>)
    requires Forest(idom) && |idom| == |preds|
  {
    forall x, j :: 1 <= j < |preds| && idom[j] != UNSET && OnAllPredecessors(preds, idom, x, j)
      ==> Chain(idom, x, j)
  }

  ghost predicate OnAllPredecessors(preds: seq<seq<nat>>, idom: seq<nat>, x: nat, j: nat)
    requires Forest(idom) && |idom| == |preds| && j < |preds|
  {
    forall p :: p in preds[j] && p < |idom| && idom[p] != UNSET ==> Chain(idom, x, p)
  }

  ghost predicate HoldsDominators(preds: seq<seq<nat>>, idom: seq<nat>)
    requires Forest(idom) && |idom| == |preds|
  {
    forall d: nat, j: nat {:trigger Dominates(preds, d, j)} ::
      j < |preds| && idom[j] != UNSET && Dominates(preds, d, j) ==> Chain(idom, d, j)
  }

  ghost predicate Invariant(preds: seq<seq<nat>>, idom: seq<nat>, k: nat) {
    && Ordered(preds) && |idom| == |preds| && 1 <= k <= |preds|
    && Forest(idom)
    && (forall i :: 0 <= i < k ==> idom[i] != UNSET)
    && ForwardSupported(preds, idom, k)
    && ClosedUnderMeet(preds, idom)
    && HoldsDominators(preds, idom)
  }

  /** `c` is the deepest block on the chains of all set predecessors of `k`. */
  ghost predicate IsCandidate(preds: seq<seq<nat>>, idom: seq<nat>, k: nat, c: nat)
    requires Forest(idom) && |idom| == |preds| && k < |preds|
  {
    && c < k && idom[c] != UNSET
    && forall x :: Chain(idom, x, c) <==> OnAllPredecessors(preds, idom, x, k)
  }

  /** From below: a block on the chain of `j` and numbered at or above `k` reaches `j`
      through blocks numbered at or above `k` alone. */
  lemma {:induction false} ForwardPath(preds: seq<seq<nat>>, idom: seq<nat>, k: nat, j: nat, path: seq<nat>)
    returns (longer: seq<nat>)
    requires Invariant(preds, idom, k) && k < |preds| && Chain(idom, k, j) && PathTo(preds, path, k)
    ensures PathTo(preds, longer, j)
    ensures forall d :: d < k && d in longer ==> d in path
    decreases j
  {
    ChainBound(idom, k, j);
    if j == k {
      longer := path;
    } else {
      assert FromBelow(preds, j);
      var p :| p in preds[j] && p < j;
      assert Chain(idom, k, p);
      longer := ForwardPath(preds, idom, k, p, path);
      ExtendPath(preds, longer, p, j);
      longer := longer + [j];
    }
  }

  /** The candidate lies on the old chain, so a changed entry moves strictly down. */
  lemma CandidateMovesDown(preds: seq<seq<nat>>, idom: seq<nat>, k: nat, c: nat)
    requires Invariant(preds, idom, k) && 1 <= k < |preds| && IsCandidate(preds, idom, k, c)
    ensures idom[k] != UNSET ==> Chain(idom, c, k) && c <= idom[k]
  {
    assert Chain(idom, c, c);
    if idom[k] != UNSET {
      assert OnAllPredecessors(preds, idom, c, k);
      ChainBound(idom, c, idom[k]);
    }
  }

  lemma StepForest(preds: seq<seq<nat>>, idom: seq<nat>, k: nat, c: nat)
    requires Invariant(preds, idom, k) && 1 <= k < |preds| && IsCandidate(preds, idom, k, c)
    ensures Forest(idom[k := c])
  {}

  /** A chain only loses blocks when one entry is processed. */
  lemma StepShrinks(preds: seq<seq<nat>>, idom: seq<nat>, k: nat, c: nat, x: nat, j: nat)
    requires Invariant(preds, idom, k) && 1 <= k < |preds| && IsCandidate(preds, idom, k, c)
    requires j < |preds| && idom[j] != UNSET && Forest(idom[k := c]) && Chain(idom[k := c], x, j)
    ensures Chain(idom, x, j)
  {
    ChainUpdate(idom, k, c, x, j);
    if Chain(idom, k, j) && Chain(idom, x, c) {
      ChainBound(idom, k, j);
      if idom[k] == UNSET { FreshChain(idom, k, j); }
      CandidateMovesDown(preds, idom, k, c);
      ChainTransitive(idom, x, c, k);
      ChainTransitive(idom, x, k, j);
    }
  }

  /** The chain of the block just processed is the meet of its predecessors' chains. */
  lemma StepOwnChain(preds: seq<seq<nat>>, idom: seq<nat>, k: nat, c: nat, x: nat)
    requires Invariant(preds, idom, k) && 1 <= k < |preds| && IsCandidate(preds, idom, k, c)
    requires Forest(idom[k := c])
    ensures Chain(idom[k := c], x, k) <==> x == k || OnAllPredecessors(preds, idom, x, k)
  {
    ChainUnchangedBelow(idom, k, c, x, c);
  }

  lemma StepForward(preds: seq<seq<nat>>, idom: seq<nat>, k: nat, c: nat)
    requires Invariant(preds, idom, k) && 1 <= k < |preds| && IsCandidate(preds, idom, k, c)
    requires Forest(idom[k := c])
    ensures ForwardSupported(preds, idom[k := c], k + 1)
  {
    var idom' := idom[k := c];
    forall y: nat, p: nat, j: nat | 1 <= j < |preds| && p in preds[j] && p < j && y < j && (j < k + 1 || y >= k + 1)
      && Chain(idom', y, j)
      ensures Chain(idom', y, p)
    {
      if j == k {
        StepOwnChain(preds, idom, k, c, y);
        ChainUnchangedBelow(idom, k, c, y, p);
      } else {
        StepShrinks(preds, idom, k, c, y, j);
        assert Chain(idom, y, p);
        ChainUpdate(idom, k, c, y, p);
        if j < k && Chain(idom, k, p) { ChainBound(idom, k, p); }
      }
    }
  }

  lemma StepClosed(preds: seq<seq<nat>>, idom: seq<nat>, k: nat, c: nat)
    requires Invariant(preds, idom, k) && 1 <= k < |preds| && IsCandidate(preds, idom, k, c)
    requires Forest(idom[k := c])
    ensures ClosedUnderMeet(preds, idom[k := c])
  {
    var idom' := idom[k := c];
    forall x, j | 1 <= j < |preds| && idom'[j] != UNSET && OnAllPredecessors(preds, idom', x, j)
      ensures Chain(idom', x, j)
    {
      forall p | p in preds[j] && idom[p] != UNSET ensures Chain(idom, x, p) {
        StepShrinks(preds, idom, k, c, x, p);
      }
      assert OnAllPredecessors(preds, idom, x, j);
      if j == k {
        StepOwnChain(preds, idom, k, c, x);
      } else {
        ChainUpdate(idom, k, c, x, j);
        if Chain(idom, k, j) {
          ChainBound(idom, k, j);
          assert FromBelow(preds, j);
      var p :| p in preds[j] && p < j;
          assert Chain(idom, k, p);
          assert Chain(idom', x, p);
          ChainUpdate(idom, k, c, x, p);
        }
      }
    }
  }

  lemma StepDominators(preds: seq<seq<nat>>, idom: seq<nat>, k: nat, c: nat)
    requires Invariant(preds, idom, k) && 1 <= k < |preds| && IsCandidate(preds, idom, k, c)
    requires Forest(idom[k := c])
    ensures HoldsDominators(preds, idom[k := c])
  {
    var idom' := idom[k := c];
    forall d: nat, j: nat | j < |preds| && idom'[j] != UNSET && Dominates(preds, d, j)
      ensures Chain(idom', d, j)
    {
      if d != k && Dominates(preds, d, k) { DominatorOnCandidate(preds, idom, k, c, d); }
      if j == k {
        StepOwnChain(preds, idom, k, c, d);
      } else {
        ChainUpdate(idom, k, c, d, j);
        if Chain(idom, k, j) && d < k && !Dominates(preds, d, k) {
          var path :| PathTo(preds, path, k) && d !in path;
          var longer := ForwardPath(preds, idom, k, j, path);
          assert false;
        }
      }
    }
  }

  lemma DominatorOnCandidate(preds: seq<seq<nat>>, idom: seq<nat>, k: nat, c: nat, d: nat)
    requires Invariant(preds, idom, k) && 1 <= k < |preds| && IsCandidate(preds, idom, k, c)
    requires d != k && Dominates(preds, d, k)
    ensures OnAllPredecessors(preds, idom, d, k) && Chain(idom, d, c)
  {
    forall p | p in preds[k] && idom[p] != UNSET ensures Chain(idom, d, p) {
      DominatesPredecessor(preds, d, p, k);
    }
  }

  /** Processing one block keeps the whole invariant. */
  lemma StepKeepsInvariant(preds: seq<seq<nat>>, idom: seq<nat>, k: nat, c: nat)
    requires Invariant(preds, idom, k) && 1 <= k < |preds| && IsCandidate(preds, idom, k, c)
    ensures Invariant(preds, idom[k := c], k + 1)
  {
    StepForest(preds, idom, k, c);
    StepForward(preds, idom, k, c);
    StepClosed(preds, idom, k, c);
    StepDominators(preds, idom, k, c);
  }

  lemma InitialInvariant(preds: seq<seq<nat>>, idom: seq<nat>)
    requires Ordered(preds) && |preds| > 0 && |preds| <= UNSET && |idom| == |preds| && idom[0] == 0
    requires forall i :: 1 <= i < |idom| ==> idom[i] == UNSET
    ensures Invariant(preds, idom, 1)
  {
    forall d: nat | Dominates(preds, d, 0) ensures d == 0 {
      assert PathTo(preds, [0], 0);
    }
    assert Chain(idom, 0, 0);
  }

  // ---------------------------------------------------------------- exactness

  /** Every block agrees with its predecessors: a pass would change nothing. */
  ghost predicate Stable(preds: seq<seq<nat>>, idom: seq<nat>, upTo: nat)
    requires Forest(idom) && |idom| == |preds| && upTo <= |preds|
  {
    forall k :: 1 <= k < upTo ==> IsCandidate(preds, idom, k, idom[k])
  }

  lemma {:induction false} ChainDominates(preds: seq<seq<nat>>, idom: seq<nat>, a: nat, j: nat, path: seq<nat>)
    requires Invariant(preds, idom, |preds|) && Stable(preds, idom, |preds|)
    requires Chain(idom, a, j) && PathTo(preds, path, j)
    ensures a in path
    decreases |path|
  {
    if a != j {
      ShortenPath(preds, path, j);
      var p := path[|path| - 2];
      assert IsCandidate(preds, idom, j, idom[j]);
      assert OnAllPredecessors(preds, idom, a, j);
      ChainDominates(preds, idom, a, p, path[..|path| - 1]);
    }
  }

  /** A stable array is exactly the dominance relation. */
  lemma ChainsAreDominators(preds: seq<seq<nat>>, idom: seq<nat>, a: nat, j: nat)
    requires Invariant(preds, idom, |preds|) && Stable(preds, idom, |preds|) && j < |preds|
    ensures Chain(idom, a, j) <==> Dominates(preds, a, j)
  {
    if Chain(idom, a, j) {
      forall path | PathTo(preds, path, j) ensures a in path {
        ChainDominates(preds, idom, a, j, path);
      }
    }
  }

  lemma StableIsImmediate(preds: seq<seq<nat>>, idom: seq<nat>, j: nat)
    requires Invariant(preds, idom, |preds|) && Stable(preds, idom, |preds|) && 1 <= j < |preds|
    ensures ImmediatelyDominates(preds, idom[j], j)
  {
    assert Chain(idom, idom[j], idom[j]);
    ChainsAreDominators(preds, idom, idom[j], j);
    forall e | e != j && Dominates(preds, e, j) ensures Dominates(preds, e, idom[j]) {
      ChainsAreDominators(preds, idom, e, j);
      ChainsAreDominators(preds, idom, e, idom[j]);
    }
  }

  // ---------------------------------------------------------------- the algorithm

  /** Walks two chains down to the block where they join. */
  method Intersect(idom: array<nat>, start: nat, other: nat) returns (meet: nat)
    requires Forest(idom[..]) && start < idom.Length && other < idom.Length
    requires idom[start] != UNSET && idom[other] != UNSET
    ensures meet < idom.Length && idom[meet] != UNSET
    ensures forall x :: Chain(idom[..], x, meet) <==> Chain(idom[..], x, start) && Chain(idom[..], x, other)
  {
    ghost var forest := idom[..];
    var left: nat, right: nat := start, other;
    while left != right
      invariant left < idom.Length && right < idom.Length && idom[left] != UNSET && idom[right] != UNSET
      invariant forall x :: Chain(forest, x, left) && Chain(forest, x, right)
                       <==> Chain(forest, x, start) && Chain(forest, x, other)
      decreases left + right
    {
      ghost var outer, left0, right0 := left + right, left, right;
      while left > right
        invariant left < idom.Length && right < idom.Length && idom[left] != UNSET && idom[right] != UNSET
        invariant left + right < outer || (left == left0 && right == right0)
        invariant forall x :: Chain(forest, x, left) && Chain(forest, x, right)
                         <==> Chain(forest, x, start) && Chain(forest, x, other)
      {
        WalkDown(forest, left, right);
        left := idom[left];
      }
      while right > left
        invariant left < idom.Length && right < idom.Length && idom[left] != UNSET && idom[right] != UNSET
        invariant left + right < outer || (left + right == outer && right > left)
        invariant forall x :: Chain(forest, x, left) && Chain(forest, x, right)
                         <==> Chain(forest, x, start) && Chain(forest, x, other)
      {
        WalkDown(forest, right, left);
        right := idom[right];
      }
    }
    meet := left;
  }

  lemma WalkDown(idom: seq<nat>, upper: nat, lower: nat)
    requires Forest(idom) && lower < upper < |idom| && idom[upper] != UNSET && idom[lower] != UNSET
    ensures idom[upper] < upper && idom[idom[upper]] != UNSET
    ensures forall x :: Chain(idom, x, upper) && Chain(idom, x, lower)
                   <==> Chain(idom, x, idom[upper]) && Chain(idom, x, lower)
  {
    forall x | Chain(idom, x, lower) ensures Chain(idom, x, upper) <==> Chain(idom, x, idom[upper]) {
      ChainBound(idom, x, lower);
    }
  }

  ghost function Weight(idom: seq<nat>): nat {
    if idom == [] then 0 else Weight(idom[..|idom| - 1]) + idom[|idom| - 1]
  }

  lemma {:induction false} WeightUpdate(idom: seq<nat>, k: nat, c: nat)
    requires k < |idom|
    ensures Weight(idom[k := c]) == Weight(idom) - idom[k] + c
  {
    var last := |idom| - 1;
    if k == last {
      assert idom[k := c][..last] == idom[..last];
    } else {
      assert idom[k := c][..last] == idom[..last][k := c];
      WeightUpdate(idom[..last], k, c);
    }
  }

  /** The meet of the chains of the set blocks among `blocks`. */
  ghost predicate MeetOf(idom: seq<nat>, blocks: seq<nat>, c: nat)
    requires Forest(idom)
  {
    && (forall p :: p in blocks ==> p < |idom|)
    && if c == UNSET then forall p :: p in blocks ==> idom[p] == UNSET
       else && c < |idom| && idom[c] != UNSET
            && forall x :: Chain(idom, x, c) <==> forall p :: p in blocks && idom[p] != UNSET ==> Chain(idom, x, p)
  }

  lemma MeetExtends(idom: seq<nat>, blocks: seq<nat>, c: nat, p: nat, c': nat)
    requires Forest(idom) && MeetOf(idom, blocks, c) && p < |idom|
    requires idom[p] == UNSET ==> c' == c
    requires idom[p] != UNSET && c == UNSET ==> c' == p
    requires idom[p] != UNSET && c != UNSET ==>
      c' < |idom| && idom[c'] != UNSET && forall x :: Chain(idom, x, c') <==> Chain(idom, x, p) && Chain(idom, x, c)
    ensures MeetOf(idom, blocks + [p], c')
  {
    forall q ensures q in blocks + [p] <==> q in blocks || q == p {}
  }

  method Candidate(idom: array<nat>, blocks: seq<nat>) returns (candidate: nat)
    requires Forest(idom[..]) && forall p :: p in blocks ==> p < idom.Length
    ensures MeetOf(idom[..], blocks, candidate)
  {
    candidate := UNSET;
    for i := 0 to |blocks|
      invariant MeetOf(idom[..], blocks[..i], candidate)
    {
      var pred := blocks[i];
      assert pred in blocks;
      ghost var before := candidate;
      if idom[pred] != UNSET {
        if candidate == UNSET {
          candidate := pred;
        } else {
          candidate := Intersect(idom, pred, candidate);
        }
      }
      MeetExtends(idom[..], blocks[..i], before, pred, candidate);
      assert blocks[..i + 1] == blocks[..i] + [pred];
    }
    assert blocks[..|blocks|] == blocks;
  }

  /** With a predecessor numbered below `k` already set, the meet is a candidate for `k`. */
  lemma MeetIsCandidate(preds: seq<seq<nat>>, idom: seq<nat>, k: nat, c: nat)
    requires Invariant(preds, idom, k) && 1 <= k < |preds| && MeetOf(idom, preds[k], c)
    ensures c != UNSET && IsCandidate(preds, idom, k, c)
  {
    assert FromBelow(preds, k);
    var p :| p in preds[k] && p < k;
    assert idom[p] != UNSET;
    assert Chain(idom, c, c);
    ChainBound(idom, c, p);
  }

  /** One round over all blocks in order. It reports whether an entry changed, and an entry
      that changes only ever moves down. */
  method Sweep(preds: seq<seq<nat>>, idom: array<nat>) returns (changed: bool)
    requires |preds| > 0 && Invariant(preds, idom[..], 1)
    modifies idom
    ensures Invariant(preds, idom[..], |preds|)
    ensures if changed then Weight(idom[..]) < Weight(old(idom[..])) else idom[..] == old(idom[..])
    ensures !changed ==> Stable(preds, idom[..], |preds|)
  {
    changed := false;
    for index := 1 to |preds|
      invariant Invariant(preds, idom[..], index)
      invariant if changed then Weight(idom[..]) < Weight(old(idom[..])) else idom[..] == old(idom[..])
      invariant !changed ==> Stable(preds, idom[..], index)
    {
      ghost var before := idom[..];
      var candidate := Candidate(idom, preds[index]);
      MeetIsCandidate(preds, before, index, candidate);
      CandidateMovesDown(preds, before, index, candidate);
      StepKeepsInvariant(preds, before, index, candidate);
      WeightUpdate(before, index, candidate);
      if candidate != UNSET && idom[index] != candidate {
        idom[index] := candidate;
        changed := true;
      }
      assert idom[..] == before[index := candidate];
    }
  }

  /** The fixpoint loop. It stops on every graph, reducible or not, and its result is the
      immediate-dominator relation. */
  method ImmediateDominators(preds: seq<seq<nat>>) returns (idom: array<nat>)
    requires Ordered(preds) && |preds| < UNSET
    ensures fresh(idom) && idom.Length == |preds| && Forest(idom[..])
    ensures |preds| > 0 ==> idom[0] == 0
    ensures forall j :: 1 <= j < |preds| ==> idom[j] < j && ImmediatelyDominates(preds, idom[j], j)
    ensures forall a: nat, j {:trigger Dominates(preds, a, j)} ::
      0 <= j < |preds| ==> (Chain(idom[..], a, j) <==> Dominates(preds, a, j))
  {
    idom := new nat[|preds|](_ => UNSET);
    if |preds| == 0 { return; }
    idom[0] := 0;
    InitialInvariant(preds, idom[..]);
    var changed := true;
    while changed
      invariant Invariant(preds, idom[..], 1)
      invariant !changed ==> Invariant(preds, idom[..], |preds|) && Stable(preds, idom[..], |preds|)
      decreases Weight(idom[..]), changed
    {
      changed := Sweep(preds, idom);
    }
    forall j: nat | 1 <= j < |preds| ensures idom[j] < j && ImmediatelyDominates(preds, idom[j], j) {
      StableIsImmediate(preds, idom[..], j);
    }
    forall a: nat, j: nat | 0 <= j < |preds| ensures Chain(idom[..], a, j) <==> Dominates(preds, a, j) {
      ChainsAreDominators(preds, idom[..], a, j);
    }
  }
}
