/** Validation's rule that an edge passes as many values as its target has parameters, before and
    after a cycle is collapsed. */
module Arity {
  import opened Cfg
  import opened Calls
  import opened Trampoline

  /** Each edge with the number of values it passes. */
  function Passing(term: Terminator): seq<(BlockId, nat)> {
    match term
    case Return(_) => []
    case Unreachable => []
    case Goto(target, args) => [(target, |args|)]
    case Branch(_, x, y) => [(x, 0), (y, 0)]
    case Match(_, arms, default) =>
      seq(|arms|, i requires 0 <= i < |arms| => (arms[i].target, |arms[i].binders|)) + [(default, 0)]
    case Switch(_, targets, default) =>
      seq(|targets|, i requires 0 <= i < |targets| => (targets[i], 0)) + [(default, 0)]
    case Call(_, _, _, target) => [(target, 1)]
    case Perform(_, _, _, binding, target) => [(target, if binding.Some? then 1 else 0)]
    case GotoCall(target, _, _) => [(target, 1)]
  }

  predicate EdgeFits(blocks: seq<Block>, edge: (BlockId, nat)) {
    edge.0 < |blocks| && |blocks[edge.0].params| == edge.1
  }

  predicate BlockFits(blocks: seq<Block>, b: BlockId)
    requires b < |blocks|
  {
    forall edge :: edge in Passing(blocks[b].term) ==> EdgeFits(blocks, edge)
  }

  ghost predicate ArityFits(p: Program) {
    forall b: BlockId {:trigger BlockFits(p.blocks, b)} :: b < |p.blocks| ==> BlockFits(p.blocks, b)
  }

  /** Every call that becomes a jump passes its callee's parameters, no more and no fewer. */
  ghost predicate CallsFit(p: Program, jumps: set<BlockId>) {
    forall b: BlockId {:trigger SiteAt(p, b)} :: b in jumps ==> |SiteAt(p, b).args| == |CalleeAt(p, b).params|
  }

  /** The collapsed program passes the rule exactly when no member takes a parameter: the dispatcher
      leads to the members' entries and passes them nothing, since the frame has it already. */
  lemma FitsAfterCollapse(p: Program, members: seq<FuncId>, jumps: set<BlockId>, q: Program, l: Layout)
    requires InRange(p, members) && IsCollapse(p, members, jumps, q, l) && Members(p, members)
    requires ArityFits(p) && CallsFit(p, jumps)
    ensures ArityFits(q) <==> forall i: nat {:trigger members[i]} :: i < |members| ==>
      p.functions[members[i]].params == []
  {
    OldParams(p, members, jumps, q, l);
    if ArityFits(q) {
      assert BlockFits(q.blocks, l.entry);
      forall i: nat | i < |members| ensures p.functions[members[i]].params == [] {
        assert members[i] in members;
        var edge := Passing(q.blocks[l.entry].term)[i];
        assert edge == (Entries(p, members)[i], 0) && edge in Passing(q.blocks[l.entry].term);
        assert EdgeFits(q.blocks, edge);
      }
    }
    if forall i: nat {:trigger members[i]} :: i < |members| ==> p.functions[members[i]].params == [] {
      forall b: BlockId | b < |q.blocks| ensures BlockFits(q.blocks, b) {
        if b < |p.blocks| { OldFits(p, members, jumps, q, l, b); } else { NewFits(p, members, jumps, q, l, b); }
      }
    }
  }

  lemma OldParams(p: Program, members: seq<FuncId>, jumps: set<BlockId>, q: Program, l: Layout)
    requires InRange(p, members) && IsCollapse(p, members, jumps, q, l)
    ensures |p.blocks| <= |q.blocks| && forall b: BlockId {:trigger q.blocks[b]} :: b < |p.blocks| ==>
      q.blocks[b].params == p.blocks[b].params
  {
    forall b: BlockId | b < |p.blocks| ensures q.blocks[b].params == p.blocks[b].params {
      assert RewrittenTo(p, members, jumps, b, q.blocks[b]);
    }
  }

  lemma OldFits(p: Program, members: seq<FuncId>, jumps: set<BlockId>, q: Program, l: Layout, b: BlockId)
    requires InRange(p, members) && IsCollapse(p, members, jumps, q, l) && Members(p, members)
    requires ArityFits(p) && CallsFit(p, jumps) && b < |p.blocks|
    ensures b < |q.blocks| && BlockFits(q.blocks, b)
  {
    OldParams(p, members, jumps, q, l);
    assert RewrittenTo(p, members, jumps, b, q.blocks[b]) && BlockFits(p.blocks, b);
    if b in jumps { assert SiteAt(p, b).callee in members; }
  }

  lemma NewFits(p: Program, members: seq<FuncId>, jumps: set<BlockId>, q: Program, l: Layout, b: BlockId)
    requires InRange(p, members) && IsCollapse(p, members, jumps, q, l) && Members(p, members)
    requires forall i: nat {:trigger members[i]} :: i < |members| ==> p.functions[members[i]].params == []
    requires |p.blocks| <= b < |q.blocks|
    ensures BlockFits(q.blocks, b)
  {
    OldParams(p, members, jumps, q, l);
    if b == l.entry {
      forall i: nat | i < |members|
        ensures EdgeFits(q.blocks, (Entries(p, members)[i], 0))
      {
        assert members[i] in members;
      }
    } else if b != l.stuck {
      var i := (b - |p.blocks| - 2) / 2;
      assert WrapperAt(p, members, q, l, i);
    }
  }

  /** Two functions of one parameter, `v` and `v + 1`, that call each other in tail position. */
  function Bouncing(v: ValueId): Program {
    Program([Function([v], 0), Function([v + 1], 1)],
      [Block([v], [], Call(1, [Value(v)], v + 2, 2)), Block([v + 1], [], Call(0, [Value(v + 1)], v + 3, 3)),
       Block([v + 2], [], Return(Value(v + 2))), Block([v + 3], [], Return(Value(v + 3)))])
  }

  /** Whatever their collapse looks like, the rule refuses it. */
  lemma BouncingIsRefused(v: ValueId, members: seq<FuncId>, jumps: set<BlockId>, q: Program, l: Layout)
    requires members == [0, 1] && IsCollapse(Bouncing(v), members, jumps, q, l)
    ensures ArityFits(Bouncing(v)) && !ArityFits(q)
  {
    var p := Bouncing(v);
    BouncingFits(v);
    BouncingMembers(v, members);
    forall b: BlockId | b in jumps
      ensures |SiteAt(p, b).args| == |CalleeAt(p, b).params|
    {
      assert CallsMember(p, members, b);
    }
    FitsAfterCollapse(p, members, jumps, q, l);
    assert p.functions[members[0]].params == [v];
  }

  lemma BouncingFits(v: ValueId)
    ensures ArityFits(Bouncing(v))
  {}

  lemma BouncingMembers(v: ValueId, members: seq<FuncId>)
    requires members == [0, 1]
    ensures Members(Bouncing(v), members)
  {
    var p := Bouncing(v);
    assert Pack(p, members, 1) == [v];
    assert Pack(p, members, 2) == [v, v + 1];
  }
}
