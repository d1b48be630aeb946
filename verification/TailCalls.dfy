/** Which blocks are tail calls: nothing runs between the callee's return and the caller's. */
module TailCalls {
  import opened Cfg
  import opened CfgRun
  import opened Calls
  import Core

  /** An empty jump on, with the value it carries on under the target's first parameter, or on
      under the same name when the jump passes nothing. */
  function Hop(p: Program, b: BlockId, v: ValueId): Option<(BlockId, ValueId)> {
    if b >= |p.blocks| || p.blocks[b].instrs != [] || !p.blocks[b].term.Goto? then None
    else
      var target, args := p.blocks[b].term.target, p.blocks[b].term.args;
      if args == [] then Some((target, v))
      else if args == [Value(v)] && target < |p.blocks| && p.blocks[target].params != [] then
        Some((target, p.blocks[target].params[0]))
      else None
  }

  predicate ReturnsIt(p: Program, b: BlockId, v: ValueId) {
    b < |p.blocks| && p.blocks[b].instrs == [] && p.blocks[b].term == Return(Value(v))
  }

  /** In at most `n` hops the value named `v` is returned as it is. */
  predicate Forwards(p: Program, n: nat, b: BlockId, v: ValueId) {
    ReturnsIt(p, b, v)
      || (n > 0 && Hop(p, b, v).Some? && Forwards(p, n - 1, Hop(p, b, v).value.0, Hop(p, b, v).value.1))
  }

  /** The continuation of a call and the value it takes the result as. */
  function CallResult(p: Program, b: BlockId): Option<(BlockId, ValueId)>
    requires b < |p.blocks|
  {
    match p.blocks[b].term
    case Call(_, _, result, target) => Some((target, result))
    case GotoCall(target, _, _) =>
      if target < |p.blocks| && p.blocks[target].params != [] then Some((target, p.blocks[target].params[0])) else None
    case _ => None
  }

  predicate IsTail(p: Program, b: BlockId)
    requires b < |p.blocks|
  {
    var r := CallResult(p, b);
    r.Some? && r.value.0 < |p.blocks| && p.blocks[r.value.0].params == [r.value.1]
    && Forwards(p, |p.blocks|, r.value.0, r.value.1)
  }

  function TailBlocks(p: Program): set<BlockId> { set b: BlockId | b < |p.blocks| && IsTail(p, b) }

  // ---------------------------------------------------------------- deciding it

  /** How far `b` is from its return, if the jumps lead there at all. */
  predicate Away(p: Program, d: nat, b: BlockId, v: ValueId)
  {
    if d == 0 then ReturnsIt(p, b, v)
    else Hop(p, b, v).Some? && Away(p, d - 1, Hop(p, b, v).value.0, Hop(p, b, v).value.1)
  }

  lemma {:induction false} ForwardsAway(p: Program, n: nat, b: BlockId, v: ValueId) returns (d: nat)
    requires Forwards(p, n, b, v)
    ensures d <= n && Away(p, d, b, v)
    decreases n
  {
    if ReturnsIt(p, b, v) {
      d := 0;
    } else {
      var (c, u) := Hop(p, b, v).value;
      d := ForwardsAway(p, n - 1, c, u);
      d := d + 1;
    }
  }

  lemma {:induction false} AwayForwards(p: Program, d: nat, n: nat, b: BlockId, v: ValueId)
    requires Away(p, d, b, v) && d <= n
    ensures Forwards(p, n, b, v)
    decreases d
  {
    if d > 0 {
      var (c, u) := Hop(p, b, v).value;
      AwayForwards(p, d - 1, n - 1, c, u);
    }
  }

  /** The distance is the block's, whatever the value is called there. */
  lemma {:induction false} OneDistance(p: Program, d: nat, e: nat, b: BlockId, v: ValueId, u: ValueId)
    requires Away(p, d, b, v) && Away(p, e, b, u)
    ensures d == e
    decreases d
  {
    if d > 0 && e > 0 {
      var (c, v1) := Hop(p, b, v).value;
      var (c2, u1) := Hop(p, b, u).value;
      OneDistance(p, d - 1, e - 1, c, v1, u1);
    }
  }

  /** `seen` holds the blocks hopped through so far; from each of them it is further to the return
      than from `b`. */
  ghost predicate Hopped(p: Program, seen: set<BlockId>, n: nat, start: BlockId, first: ValueId, b: BlockId,
      v: ValueId) {
    && |seen| == n && (forall c :: c in seen ==> c < |p.blocks|)
    && (forall d: nat {:trigger Away(p, d, start, first)} :: Away(p, d, start, first) <==>
      d >= n && Away(p, d - n, b, v))
    && (forall c {:trigger c in seen} :: c in seen ==> Further(p, c, b, v))
  }

  ghost predicate Further(p: Program, c: BlockId, b: BlockId, v: ValueId) {
    forall d: nat {:trigger Away(p, d, b, v)} :: Away(p, d, b, v) ==> exists e: nat, u :: e > d && Away(p, e, c, u)
  }

  lemma HoppedOn(p: Program, seen: set<BlockId>, n: nat, start: BlockId, first: ValueId, b: BlockId, v: ValueId)
    requires Hopped(p, seen, n, start, first, b, v) && b !in seen && Hop(p, b, v).Some?
    ensures Hopped(p, seen + {b}, n + 1, start, first, Hop(p, b, v).value.0, Hop(p, b, v).value.1)
  {
    var (c, u) := Hop(p, b, v).value;
    forall d: nat ensures Away(p, d, start, first) <==> d >= n + 1 && Away(p, d - n - 1, c, u) {
      if Away(p, d, start, first) { assert Away(p, d - n, b, v) && d != n; }
      if d >= n + 1 && Away(p, d - n - 1, c, u) { assert Away(p, d - n, b, v); }
    }
    forall x | x in seen + {b} ensures Further(p, x, c, u) {
      forall d: nat | Away(p, d, c, u) ensures exists e: nat, y :: e > d && Away(p, e, x, y) {
        assert Away(p, d + 1, b, v);
        if x != b { assert Further(p, x, b, v); }
      }
    }
  }

  /** A block come back to is never going to return. */
  lemma Circling(p: Program, seen: set<BlockId>, n: nat, start: BlockId, first: ValueId, b: BlockId, v: ValueId, d: nat)
    requires Hopped(p, seen, n, start, first, b, v) && b in seen
    ensures !Away(p, d, b, v)
  {
    if Away(p, d, b, v) {
      assert Further(p, b, b, v);
      var e: nat, u :| e > d && Away(p, e, b, u);
      OneDistance(p, d, e, b, v, u);
    }
  }

  lemma SeenFits(seen: set<BlockId>, n: nat)
    requires forall c :: c in seen ==> c < n
    ensures |seen| <= n
    decreases n
  {
    if n == 0 {
      assert seen == {};
    } else {
      SeenFits(seen - {n - 1}, n - 1);
    }
  }

  /** Follow empty jumps from a call's continuation, giving up at a block seen before. */
  method ForwardsToReturn(p: Program, start: BlockId, first: ValueId) returns (yes: bool)
    ensures yes <==> start < |p.blocks| && p.blocks[start].params == [first] && Forwards(p, |p.blocks|, start, first)
  {
    if start >= |p.blocks| || p.blocks[start].params != [first] { return false; }
    var n: nat, found := FollowJumps(p, start, first);
    yes := found;
    if yes {
      AwayForwards(p, n, |p.blocks|, start, first);
    } else if Forwards(p, |p.blocks|, start, first) {
      var d := ForwardsAway(p, |p.blocks|, start, first);
      assert false;
    }
  }

  method FollowJumps(p: Program, start: BlockId, first: ValueId) returns (n: nat, found: bool)
    ensures found ==> n <= |p.blocks| && Away(p, n, start, first)
    ensures !found ==> forall d: nat :: !Away(p, d, start, first)
  {
    var block, value := start, first;
    var seen: set<BlockId> := {};
    n := 0;
    while block !in seen
      invariant Hopped(p, seen, n, start, first, block, value)
      decreases |p.blocks| + 1 - n
    {
      SeenFits(seen, |p.blocks|);
      if ReturnsIt(p, block, value) {
        assert Away(p, 0, block, value);
        return n, true;
      }
      var next := Hop(p, block, value);
      if next.None? {
        forall d: nat ensures !Away(p, d, start, first) {
          if d >= n { assert !Away(p, d - n, block, value); }
        }
        return n, false;
      }
      HoppedOn(p, seen, n, start, first, block, value);
      seen, n := seen + {block}, n + 1;
      block, value := next.value.0, next.value.1;
    }
    forall d: nat ensures !Away(p, d, start, first) {
      if d >= n { Circling(p, seen, n, start, first, block, value, d - n); }
    }
    return n, false;
  }

  method IsTailCall(p: Program, b: BlockId) returns (yes: bool)
    requires b < |p.blocks|
    ensures yes == IsTail(p, b)
  {
    var r := CallResult(p, b);
    if r.None? { return false; }
    yes := ForwardsToReturn(p, r.value.0, r.value.1);
  }

  // ---------------------------------------------------------------- what a tail call means

  /** A hop computes nothing. */
  lemma NothingAsked(p: Program, w: World, b: BlockId, v: ValueId, s: State)
    requires ReturnsIt(p, b, v) || Hop(p, b, v).Some?
    ensures !Stuck(p, w, b, s)
  {
    var operands, store := p.blocks[b].term.Operands(), RunInstrs(w, p.blocks[b].instrs, s).store;
    forall i | 0 <= i < |operands| ensures ExprAnswered(w, operands[i], store) { assert operands[i] == Value(v); }
    assert AllAnswered(w, operands, store);
    assert InstrsAnswered(w, [], s);
  }

  /** Forwarding hands back just what the name holds. */
  lemma {:induction false} ForwardReturns(p: Program, w: World, n: nat, m: nat, b: BlockId, v: ValueId, s: State)
    requires Forwards(p, n, b, v) && n < m
    ensures RunFrom(p, w, m, b, s) == Some(Core.Outcome(Load(s.store, v), s.trace))
    decreases n
  {
    NothingAsked(p, w, b, v, s);
    if !ReturnsIt(p, b, v) {
      var (c, u) := Hop(p, b, v).value;
      var args := p.blocks[b].term.args;
      var next := Follow(w, p.blocks, p.blocks[b].term, s);
      if args == [] {
        assert next.state.store == s.store by {
          if c < |p.blocks| { assert Pass(p.blocks[c].params, [], s.store) == s.store; }
        }
      } else {
        var params, values := p.blocks[c].params, ValuesOf(w, args, s.store);
        assert args == [Value(v)];
        assert values[0] == ValueOf(w, args[0], s.store) == Load(s.store, v);
        assert Core.BindAll(s.store, params, values, 0) == s.store;
        assert Core.BindAll(s.store, params, values, 1) == s.store[u := values[0]];
        assert Pass(params, values, s.store) == s.store[u := values[0]];
      }
      assert Load(next.state.store, u) == Load(s.store, v);
      ForwardReturns(p, w, n - 1, m - 1, c, u, next.state);
    }
  }

  /** A tail call, once its arguments are there, returns what its callee returns. */
  lemma TailReturns(p: Program, w: World, m: nat, b: BlockId, s: State)
    requires b < |p.blocks| && IsTail(p, b) && m > |p.blocks| && !Stuck(p, w, b, s)
    ensures RunFrom(p, w, m + 1, b, s)
      == Activate(p, w, m, SiteAt(p, b).callee, ArgsAt(p, w, b, s), Ran(p, w, b, s).trace)
  {
    var r := CallResult(p, b).value;
    var o := Activate(p, w, m, SiteAt(p, b).callee, ArgsAt(p, w, b, s), Ran(p, w, b, s).trace);
    if o.Some? {
      var after := Ran(p, w, b, s);
      if p.blocks[b].term.GotoCall? {
        var params := p.blocks[r.0].params;
        assert Core.BindAll(after.store, params, [o.value.value], 0) == after.store;
        assert Received(p, w, b, s, o.value).store == after.store[r.1 := o.value.value];
      }
      assert Load(Received(p, w, b, s, o.value).store, r.1) == o.value.value;
      ForwardReturns(p, w, |p.blocks|, m, r.0, r.1, Received(p, w, b, s, o.value));
    }
  }

  /** What a name holds ends what forwards it. */
  lemma ForwardEnds(p: Program, w: World, m: nat, b: BlockId, s: State, v: Outcome)
    requires b < |p.blocks| && IsTail(p, b) && m > |p.blocks|
    ensures Ends(p, w, m, SiteAt(p, b).target, Received(p, w, b, s, v), v)
  {
    var r := CallResult(p, b).value;
    var after := Ran(p, w, b, s);
    if p.blocks[b].term.GotoCall? {
      assert Core.BindAll(after.store, [r.1], [v.value], 0) == after.store;
      assert Received(p, w, b, s, v).store == after.store[r.1 := v.value];
    }
    ForwardReturns(p, w, |p.blocks|, m, r.0, r.1, Received(p, w, b, s, v));
    EndsIs(p, w, m, r.0, Received(p, w, b, s, v), v);
  }

  /** A tail call that ends, its callee ended so. */
  lemma TailEnters(p: Program, w: World, n: nat, b: BlockId, s: State, o: Outcome)
    requires b < |p.blocks| && IsTail(p, b) && Ends(p, w, n, b, s, o)
    ensures n > 0 && Gives(p, w, n - 1, SiteAt(p, b).callee, ArgsAt(p, w, b, s), Ran(p, w, b, s).trace, o)
  {
    var v := CallCameBack(p, w, n, b, s, o);
    ForwardEnds(p, w, n + |p.blocks|, b, s, v);
    OneEnd(p, w, n - 1, n + |p.blocks|, SiteAt(p, b).target, Received(p, w, b, s, v), o, v);
  }

  /** And ends so, with steps enough to forward the result. */
  lemma TailLeaves(p: Program, w: World, m: nat, b: BlockId, s: State, o: Outcome)
    requires b < |p.blocks| && IsTail(p, b) && !Stuck(p, w, b, s) && m > |p.blocks|
    requires Gives(p, w, m, SiteAt(p, b).callee, ArgsAt(p, w, b, s), Ran(p, w, b, s).trace, o)
    ensures Ends(p, w, m + 1, b, s, o)
  {
    ForwardEnds(p, w, m, b, s, o);
    CallEnds(p, w, m + 1, b, s, o, o);
  }
}
