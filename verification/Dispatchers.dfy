/** Collapsing a cycle in place, and why a validated program always qualifies: no activation of a
    member reads what that activation has not defined. */
module Dispatchers {
  import opened Cfg
  import opened Calls
  import opened TailCalls
  import opened Trampoline
  import Definitions
  import Flow

  // ---------------------------------------------------------------- what validation gives

  function BlockReads(block: Block, n: nat): set<ValueId>
    requires n <= |block.instrs|
  {
    if n == 0 then Definitions.ReadsOfAll(block.term.Operands())
      else BlockReads(block, n - 1) + Definitions.InstrReads(block.instrs[n - 1])
  }

  function AllReads(p: Program, n: nat): set<ValueId>
    requires n <= |p.blocks|
  {
    if n == 0 then {} else AllReads(p, n - 1) + BlockReads(p.blocks[n - 1], |p.blocks[n - 1].instrs|)
  }

  lemma {:induction false} BlockReadsHold(block: Block, n: nat, k: nat)
    requires k < n <= |block.instrs|
    ensures Definitions.InstrReads(block.instrs[k]) <= BlockReads(block, n)
  {
    if k < n - 1 { BlockReadsHold(block, n - 1, k); }
  }

  lemma {:induction false} BlockReadsOperands(block: Block, n: nat)
    requires n <= |block.instrs|
    ensures Definitions.ReadsOfAll(block.term.Operands()) <= BlockReads(block, n)
  {
    if n > 0 { BlockReadsOperands(block, n - 1); }
  }

  lemma {:induction false} AllReadsHold(p: Program, n: nat, b: BlockId)
    requires b < n <= |p.blocks|
    ensures BlockReads(p.blocks[b], |p.blocks[b].instrs|) <= AllReads(p, n)
  {
    if b < n - 1 { AllReadsHold(p, n - 1, b); }
  }

  /** Every run of every one of these functions has defined `v` when it comes to `b`. */
  ghost predicate DefinedAlways(p: Program, entries: seq<BlockId>, b: BlockId, v: ValueId) {
    forall i: nat, run: seq<BlockId> {:trigger Comes(p, entries, i, run, b)} ::
      i < |entries| && Comes(p, entries, i, run, b) ==> v in Definitions.DefinedBefore(p, run)
  }

  ghost predicate Comes(p: Program, entries: seq<BlockId>, i: nat, run: seq<BlockId>, b: BlockId)
    requires i < |entries|
  {
    Definitions.RunTo(Definitions.Whole(p, entries[i]), run, b)
  }

  ghost function KnownAt(p: Program, entries: seq<BlockId>, b: BlockId): set<ValueId> {
    set v | v in AllReads(p, |p.blocks|) && DefinedAlways(p, entries, b, v)
  }

  ghost function KnownFrom(p: Program, entries: seq<BlockId>): seq<set<ValueId>> {
    seq(|p.blocks|, b requires 0 <= b < |p.blocks| => KnownAt(p, entries, b))
  }

  /** At an entry nothing is known: a run has only just started. */
  lemma NothingKnown(p: Program, entries: seq<BlockId>, i: nat)
    requires i < |entries| && entries[i] < |p.blocks|
    ensures KnownFrom(p, entries)[entries[i]] == {}
  {
    var run := [entries[i]];
    assert Definitions.Whole(p, entries[i]).IsRun(run);
    assert Comes(p, entries, i, run, entries[i]);
    assert Definitions.DefinedBefore(p, run) == {};
  }

  /** What a block reads and some run has not defined, the block defines itself. */
  lemma KnownSuffices(p: Program, entries: seq<BlockId>, b: BlockId)
    requires b < |p.blocks| && forall i: nat {:trigger entries[i]} :: i < |entries| ==>
      Definitions.Safe(p, Definitions.Whole(p, entries[i]))
    ensures Definitions.ReadsDefined(p, b, KnownAt(p, entries, b))
  {
    var block, known := p.blocks[b], KnownAt(p, entries, b);
    AllReadsHold(p, |p.blocks|, b);
    BlockReadsOperands(block, |block.instrs|);
    forall k: nat | k < |block.instrs| ensures Definitions.InstrReadsDefined(block, known, k) {
      BlockReadsHold(block, |block.instrs|, k);
      forall v | v in Definitions.InstrReads(block.instrs[k]) && v !in known
        ensures v in Definitions.Params(block.params) + Definitions.Results(block.instrs, k)
      {
        var defined := MissingSomewhere(p, entries, b, v);
        assert Definitions.InstrReadsDefined(block, defined, k);
      }
    }
    forall v | v in Definitions.ReadsOfAll(block.term.Operands()) && v !in known
      ensures v in Definitions.DefinitionsIn(p, b)
    {
      var defined := MissingSomewhere(p, entries, b, v);
    }
  }

  lemma MissingSomewhere(p: Program, entries: seq<BlockId>, b: BlockId, v: ValueId) returns (defined: set<ValueId>)
    requires b < |p.blocks| && forall i: nat {:trigger entries[i]} :: i < |entries| ==>
      Definitions.Safe(p, Definitions.Whole(p, entries[i]))
    requires !DefinedAlways(p, entries, b, v)
    ensures v !in defined && Definitions.ReadsDefined(p, b, defined)
  {
    var i: nat, run: seq<BlockId> :| i < |entries| && Comes(p, entries, i, run, b)
      && v !in Definitions.DefinedBefore(p, run);
    var g := Definitions.Whole(p, entries[i]);
    assert Definitions.RunReadsDefined(p, g, run);
    defined := Definitions.DefinedBefore(p, run);
  }

  lemma OneMoreBlock(p: Program, run: seq<BlockId>, c: BlockId)
    requires run != []
    ensures Definitions.DefinedBefore(p, run + [c])
      == Definitions.DefinedBefore(p, run) + Definitions.DefinitionsIn(p, run[|run| - 1])
  {
    assert (run + [c])[..|run + [c]| - 1] == run;
    assert Definitions.DefinedBefore(p, run + [c]) == Definitions.DefinedThrough(p, run);
    if |run| == 1 {
      assert run[..|run| - 1] == [];
      assert Definitions.DefinedThrough(p, run[..|run| - 1]) == {};
    }
  }

  /** Along an edge nothing is known that was neither known nor just defined. */
  lemma KnownFlows(p: Program, entries: seq<BlockId>, b: BlockId, c: BlockId)
    requires b < |p.blocks| && c in p.blocks[b].term.Successors() && c < |p.blocks|
    ensures KnownAt(p, entries, c) <= KnownAt(p, entries, b) + Definitions.DefinitionsIn(p, b)
  {
    forall v | v in KnownAt(p, entries, c) && v !in Definitions.DefinitionsIn(p, b)
      ensures DefinedAlways(p, entries, b, v)
    {
      forall i: nat, run: seq<BlockId> | i < |entries| && Comes(p, entries, i, run, b)
        ensures v in Definitions.DefinedBefore(p, run)
      {
        var g := Definitions.Whole(p, entries[i]);
        assert g.Edge(b, c);
        g.ExtendRun(run, c);
        assert Comes(p, entries, i, run + [c], c);
        OneMoreBlock(p, run, c);
      }
    }
  }

  /** Edges fill their parameters by themselves, with no help from what is known. */
  ghost predicate Filling(p: Program) {
    forall b: BlockId {:trigger EdgesFill(p, b, {})} :: b < |p.blocks| ==> EdgesFill(p, b, {})
  }

  lemma FillMore(p: Program, b: BlockId, vars: set<ValueId>)
    requires b < |p.blocks| && EdgesFill(p, b, {})
    ensures EdgesFill(p, b, vars)
  {
    match p.blocks[b].term
    case Switch(_, targets, _) =>
      forall i: nat | i < |targets| ensures Filled(p, targets[i], vars) { assert Filled(p, targets[i], {}); }
    case _ =>
  }

  /** Functions no run of which reads an undefined value: enough is known for a shared frame. */
  lemma SafeKnows(p: Program, entries: seq<BlockId>)
    requires Filling(p) && forall i: nat {:trigger entries[i]} :: i < |entries| ==>
      Definitions.Safe(p, Definitions.Whole(p, entries[i]))
    ensures Knows(p, KnownFrom(p, entries))
  {
    var known := KnownFrom(p, entries);
    forall b: BlockId | b < |p.blocks| ensures KnowsAt(p, known, b) {
      KnownSuffices(p, entries, b);
      assert EdgesFill(p, b, {});
      FillMore(p, b, known[b] + Definitions.DefinitionsIn(p, b));
      forall c | c in p.blocks[b].term.Successors() && c < |p.blocks|
        ensures known[c] <= known[b] + Definitions.DefinitionsIn(p, b)
      {
        KnownFlows(p, entries, b, c);
      }
    }
  }

  // ---------------------------------------------------------------- collapsing

  /** A program being rewritten; values from `nextValue` on are unused. */
  class Rewriter {
    var functions: seq<Function>
    var blocks: seq<Block>
    var nextValue: ValueId

    constructor (p: Program, unused: ValueId)
      ensures Current() == p && nextValue == unused
    {
      functions, blocks, nextValue := p.functions, p.blocks, unused;
    }

    function Current(): Program
      reads this`functions, this`blocks
    {
      Program(functions, blocks)
    }

    method PushValue() returns (v: ValueId)
      modifies this`nextValue
      ensures v == old(nextValue) && nextValue == v + 1
    {
      v := nextValue;
      nextValue := nextValue + 1;
    }

    method PushBlock(block: Block) returns (b: BlockId)
      modifies this`blocks
      ensures b == |old(blocks)| && blocks == old(blocks) + [block]
    {
      b := |blocks|;
      blocks := blocks + [block];
    }

    method SetTerminator(b: BlockId, term: Terminator)
      requires b < |blocks|
      modifies this`blocks
      ensures blocks == old(blocks)[b := old(blocks[b]).(term := term)]
    {
      blocks := blocks[b := blocks[b].(term := term)];
    }

    method SetEntry(f: FuncId, entry: BlockId)
      requires f < |functions|
      modifies this`functions
      ensures functions == old(functions)[f := old(functions[f]).(entry := entry)]
    {
      functions := functions[f := functions[f].(entry := entry)];
    }
  }

  /** The blocks a function runs through up to its tail calls. */
  method ReachableBlocks(p: Program, entry: BlockId, tails: set<BlockId>) returns (blocks: seq<BlockId>)
    requires entry < |p.blocks|
    ensures forall b: BlockId :: b in blocks <==> Flow.View(p, entry, tails).Reachable(b)
  {
    var g := Flow.View(p, entry, tails);
    blocks := Definitions.ReachableBlocks(g);
    forall b: BlockId | g.Reachable(b) ensures b in blocks {
      var run :| g.IsRun(run) && run[|run| - 1] == b;
      Definitions.AllDiscovered(g, blocks, run);
    }
  }

  method TailCallBlocks(p: Program) returns (tails: set<BlockId>)
    ensures tails == TailBlocks(p)
  {
    tails := {};
    for b := 0 to |p.blocks|
      invariant tails == set c: BlockId | c < b && c < |p.blocks| && IsTail(p, c)
    {
      var yes := IsTailCall(p, b);
      if yes { tails := tails + {b}; }
    }
  }

  method MemberJumps(p: Program, members: seq<FuncId>, f: FuncId, tails: set<BlockId>) returns (jumps: set<BlockId>)
    requires f < |p.functions| && p.functions[f].entry < |p.blocks|
    ensures jumps == JumpsOf(p, tails, members, f)
  {
    var reachable := ReachableBlocks(p, p.functions[f].entry, tails);
    jumps := {};
    for i := 0 to |reachable|
      invariant forall b: BlockId :: b in jumps <==>
        b < |p.blocks| && b in tails && CallsTo(p, members, b) && b in reachable[..i]
    {
      var b := reachable[i];
      if b < |p.blocks| && b in tails && CallsTo(p, members, b) { jumps := jumps + {b}; }
      assert reachable[..i + 1] == reachable[..i] + [b];
    }
    assert reachable[..|reachable|] == reachable;
  }

  method CollectJumps(p: Program, members: seq<FuncId>, tails: set<BlockId>) returns (jumps: set<BlockId>)
    requires InRange(p, members)
    requires forall i: nat {:trigger members[i]} :: i < |members| ==> p.functions[members[i]].entry < |p.blocks|
    ensures jumps == CycleJumps(p, tails, members, |members|)
  {
    jumps := {};
    for n := 0 to |members|
      invariant jumps == CycleJumps(p, tails, members, n)
    {
      var more := MemberJumps(p, members, members[n], tails);
      jumps := jumps + more;
    }
  }

  /** What was found to be a tail call still is one, unless it has been made a jump since. */
  ghost predicate StillTails(p: Program, tails: set<BlockId>) {
    forall b: BlockId {:trigger b in tails} :: b in tails ==>
      b < |p.blocks| && (CallIn(p.blocks[b].term).Some? ==> IsTail(p, b))
  }

  lemma JumpsAreCalls(p: Program, tails: set<BlockId>, members: seq<FuncId>, n: nat)
    requires n <= |members| && InRange(p, members) && StillTails(p, tails)
    ensures forall b: BlockId {:trigger CallsMember(p, members, b)} :: b in CycleJumps(p, tails, members, n) ==>
      CallsMember(p, members, b)
  {
    if n > 0 { JumpsAreCalls(p, tails, members, n - 1); }
  }

  /** Make the tail calls in `jumps` jumps to their callee's entry; their continuations are left behind. */
  method MakeJumps(c: Rewriter, p: Program, members: seq<FuncId>, jumps: set<BlockId>)
    requires InRange(p, members) && p.blocks <= c.blocks && forall b: BlockId {:trigger CallsMember(p, members, b)} ::
      b in jumps ==> CallsMember(p, members, b)
    modifies c`blocks
    ensures |c.blocks| == |old(c.blocks)| && c.blocks[|p.blocks|..] == old(c.blocks)[|p.blocks|..]
    ensures forall b: BlockId {:trigger RewrittenTo(p, members, jumps, b, c.blocks[b])} :: b < |p.blocks| ==>
      RewrittenTo(p, members, jumps, b, c.blocks[b])
  {
    for n := 0 to |p.blocks|
      invariant |c.blocks| == |old(c.blocks)|
      invariant forall b: BlockId :: n <= b < |c.blocks| ==> c.blocks[b] == old(c.blocks)[b]
      invariant forall b: BlockId {:trigger RewrittenTo(p, members, jumps, b, c.blocks[b])} :: b < n ==>
        RewrittenTo(p, members, jumps, b, c.blocks[b])
    {
      assert c.blocks[n] == p.blocks[n];
      if n in jumps {
        assert CallsMember(p, members, n);
        var site := CallIn(p.blocks[n].term).value;
        ghost var before := c.blocks;
        c.SetTerminator(n, Goto(p.functions[site.callee].entry, site.args));
        forall b: BlockId | b < n ensures RewrittenTo(p, members, jumps, b, c.blocks[b]) {
          assert RewrittenTo(p, members, jumps, b, before[b]);
        }
      }
    }
  }

  method BuildPack(p: Program, members: seq<FuncId>) returns (pack: seq<ValueId>)
    requires InRange(p, members)
    ensures pack == Pack(p, members, |members|)
  {
    pack := [];
    for n := 0 to |members|
      invariant pack == Pack(p, members, n)
    {
      pack := pack + p.functions[members[n]].params;
    }
  }

  method BuildArgs(p: Program, members: seq<FuncId>, i: nat) returns (args: seq<Expr>)
    requires InRange(p, members)
    ensures args == [Literal(Int(i))] + PackArgs(p, members, i, |members|)
  {
    args := [Literal(Int(i))];
    for n := 0 to |members|
      invariant args == [Literal(Int(i))] + PackArgs(p, members, i, n)
    {
      var slot := p.functions[members[n]].params;
      args := args + seq(|slot|, k requires 0 <= k < |slot| => if n == i then Value(slot[k]) else Literal(Unit));
    }
  }

  ghost predicate Wrapped(p: Program, members: seq<FuncId>, functions: seq<Function>, blocks: seq<Block>,
      dispatch: FuncId, wrappers: seq<BlockId>, exits: seq<BlockId>, results: seq<ValueId>, i: nat)
    requires i < |members| && i < |wrappers| && i < |exits| && i < |results| && InRange(p, members)
      && |p.functions| < |functions|
  {
    var f := members[i];
    && functions[f] == p.functions[f].(entry := wrappers[i])
    && exits[i] == |p.blocks| + 2 + 2 * i && wrappers[i] == |p.blocks| + 3 + 2 * i && wrappers[i] < |blocks|
    && blocks[wrappers[i]]
      == Block(p.functions[f].params, [],
        Call(dispatch, [Literal(Int(i))] + PackArgs(p, members, i, |members|), results[i], exits[i]))
    && blocks[exits[i]] == Block([results[i]], [], Return(Value(results[i])))
  }

  /** Each member becomes a wrapper that enters the dispatcher at its own state. */
  method MakeWrappers(c: Rewriter, p: Program, members: seq<FuncId>, dispatch: FuncId)
    returns (wrappers: seq<BlockId>, exits: seq<BlockId>, results: seq<ValueId>)
    requires InRange(p, members) && Flow.Distinct(members) && |p.functions| < |c.functions|
      && |c.blocks| == |p.blocks| + 2
    requires forall f: FuncId :: f < |p.functions| ==> c.functions[f] == p.functions[f]
    modifies c
    ensures old(c.blocks) <= c.blocks && |c.blocks| == |p.blocks| + 2 + 2 * |members|
    ensures |c.functions| == |old(c.functions)| && c.nextValue >= old(c.nextValue)
      && |wrappers| == |exits| == |results| == |members|
    ensures forall f: FuncId :: f < |c.functions| && f !in members ==> c.functions[f] == old(c.functions[f])
    ensures forall i: nat :: i < |members| ==>
      Wrapped(p, members, c.functions, c.blocks, dispatch, wrappers, exits, results, i)
  {
    wrappers, exits, results := [], [], [];
    for n := 0 to |members|
      invariant old(c.blocks) <= c.blocks && |c.blocks| == |p.blocks| + 2 + 2 * n && c.nextValue >= old(c.nextValue)
      invariant |c.functions| == |old(c.functions)| && |wrappers| == |exits| == |results| == n
      invariant forall f: FuncId :: f < |c.functions| && f !in members[..n] ==> c.functions[f] == old(c.functions[f])
      invariant forall i: nat :: i < n ==>
        Wrapped(p, members, c.functions, c.blocks, dispatch, wrappers, exits, results, i)
    {
      ghost var functions, blocks := c.functions, c.blocks;
      var f := members[n];
      assert f !in members[..n];
      var result := c.PushValue();
      var exit := c.PushBlock(Block([result], [], Return(Value(result))));
      var args := BuildArgs(p, members, n);
      var wrapper := c.PushBlock(Block(p.functions[f].params, [], Call(dispatch, args, result, exit)));
      c.SetEntry(f, wrapper);
      WrappedKept(p, members, functions, c.functions, blocks, c.blocks, dispatch, wrappers, exits, results, wrapper,
        exit, result, n);
      wrappers, exits, results := wrappers + [wrapper], exits + [exit], results + [result];
      assert members[..n + 1] == members[..n] + [f];
    }
    assert members[..|members|] == members;
  }

  lemma WrappedKept(p: Program, members: seq<FuncId>, functions: seq<Function>, after: seq<Function>,
      blocks: seq<Block>, more: seq<Block>, dispatch: FuncId, wrappers: seq<BlockId>, exits: seq<BlockId>,
      results: seq<ValueId>, wrapper: BlockId, exit: BlockId, result: ValueId, n: nat)
    requires InRange(p, members) && Flow.Distinct(members) && n < |members| && |wrappers| == |exits| == |results| == n
    requires |p.functions| < |functions| == |after| && blocks <= more
    requires forall f: FuncId :: f < |after| && f != members[n] ==> after[f] == functions[f]
    requires forall i: nat :: i < n ==> Wrapped(p, members, functions, blocks, dispatch, wrappers, exits, results, i)
    ensures forall i: nat :: i < n ==>
      Wrapped(p, members, after, more, dispatch, wrappers + [wrapper], exits + [exit], results + [result], i)
  {
    forall i: nat | i < n
      ensures Wrapped(p, members, after, more, dispatch, wrappers + [wrapper], exits + [exit], results + [result], i)
    {
      assert Wrapped(p, members, functions, blocks, dispatch, wrappers, exits, results, i);
      assert members[i] != members[n];
    }
  }

  /** The dispatcher's entry goes to the member its first parameter names; no other number arrives. */
  method PushDispatcher(c: Rewriter, p: Program, members: seq<FuncId>) returns (selector: ValueId)
    requires c.Current() == p && InRange(p, members)
    modifies c
    ensures selector == old(c.nextValue) && c.nextValue == selector + 1
    ensures var params := [selector] + Pack(p, members, |members|);
      && c.functions == p.functions + [Function(params, |p.blocks|)]
      && c.blocks == p.blocks
        + [Block(params, [], Switch(Value(selector), Entries(p, members), |p.blocks| + 1)), Block([], [], Unreachable)]
  {
    selector := c.PushValue();
    var pack := BuildPack(p, members);
    var params := [selector] + pack;
    var entry := c.PushBlock(Block(params, [], Switch(Value(selector), Entries(p, members), |p.blocks| + 1)));
    var stuck := c.PushBlock(Block([], [], Unreachable));
    c.functions := c.functions + [Function(params, entry)];
  }

  /** Collapse a cycle into a dispatcher that is the last function of the program. */
  method Collapse(c: Rewriter, members: seq<FuncId>, tails: set<BlockId>) returns (l: Layout)
    requires Members(c.Current(), members) && StillTails(c.Current(), tails)
    requires forall v :: v in Pack(c.Current(), members, |members|) ==> v < c.nextValue
    modifies c
    ensures IsCollapse(old(c.Current()), members, CycleJumps(old(c.Current()), tails, members, |members|), c.Current(),
      l)
    ensures c.nextValue > l.selector && c.nextValue >= old(c.nextValue)
  {
    var p := c.Current();
    assert forall i: nat {:trigger members[i]} :: i < |members| ==> members[i] in members;
    var jumps := CollectJumps(p, members, tails);
    JumpsAreCalls(p, tails, members, |members|);
    var selector := PushDispatcher(c, p, members);
    ghost var params := [selector] + Pack(p, members, |members|);
    var dispatch, entry, stuck := |p.functions|, |p.blocks|, |p.blocks| + 1;
    MakeJumps(c, p, members, jumps);
    assert c.blocks[entry] == c.blocks[|p.blocks|..][0] && c.blocks[stuck] == c.blocks[|p.blocks|..][1];
    ghost var jumped := c.blocks;
    var wrappers, exits, results := MakeWrappers(c, p, members, dispatch);
    l := Layout(dispatch, entry, stuck, selector, wrappers, exits, results);
    forall b: BlockId | b < |p.blocks| ensures RewrittenTo(p, members, jumps, b, c.blocks[b]) {
      assert RewrittenTo(p, members, jumps, b, jumped[b]);
    }
    forall i: nat | i < |members| ensures WrapperAt(p, members, c.Current(), l, i) {
      assert Wrapped(p, members, c.functions, c.blocks, dispatch, wrappers, exits, results, i);
    }
    assert dispatch !in members;
  }
}
