/** The whole pass: every qualifying cycle collapsed in turn, with no function's results changed. */
module Collapsing {
  import opened Cfg
  import opened CfgRun
  import opened Calls
  import PureCalls
  import opened TailCalls
  import opened Trampoline
  import opened Dispatchers
  import opened TailCycles
  import Definitions
  import Flow

  // ---------------------------------------------------------------- one collapse leaves room for the next

  /** What is known in the collapsed program: as before, and nothing at the new blocks. */
  ghost function NextKnown(z: Collapsed): seq<set<ValueId>>
    requires |z.known| == |z.p.blocks| <= |z.q.blocks|
  {
    z.known + seq(|z.q.blocks| - |z.p.blocks|, _ => {})
  }

  lemma SameDefinitions(z: Collapsed, b: BlockId)
    requires z.Valid() && b < |z.p.blocks|
    ensures z.q.blocks[b].params == z.p.blocks[b].params && z.q.blocks[b].instrs == z.p.blocks[b].instrs
    ensures Definitions.DefinitionsIn(z.q, b) == Definitions.DefinitionsIn(z.p, b)
  {
    z.Unfold();
    assert RewrittenTo(z.p, z.members, z.jumps, b, z.q.blocks[b]);
  }

  lemma FilledKept(z: Collapsed, b: BlockId, vars: set<ValueId>)
    requires z.Valid() && b < |z.p.blocks| && EdgesFill(z.p, b, vars) && z.q.blocks[b] == z.p.blocks[b]
    ensures EdgesFill(z.q, b, vars)
  {
    z.Unfold();
    KeptParams(z);
    match z.p.blocks[b].term
    case Match(_, arms, default) =>
      assert z.q.blocks[default].params == z.p.blocks[default].params;
      forall i: nat | i < |arms| ensures ArmFills(z.q, arms[i]) {
        assert ArmFills(z.p, arms[i]);
        assert z.q.blocks[arms[i].target].params == z.p.blocks[arms[i].target].params;
      }
    case Switch(_, targets, default) =>
      assert z.q.blocks[default].params == z.p.blocks[default].params;
      forall i: nat | i < |targets| ensures Filled(z.q, targets[i], vars) {
        assert Filled(z.p, targets[i], vars);
        assert z.q.blocks[targets[i]].params == z.p.blocks[targets[i]].params;
      }
    case Goto(target, _) => assert z.q.blocks[target].params == z.p.blocks[target].params;
    case Branch(_, x, y) =>
      assert z.q.blocks[x].params == z.p.blocks[x].params && z.q.blocks[y].params == z.p.blocks[y].params;
    case Call(_, _, _, target) => assert z.q.blocks[target].params == z.p.blocks[target].params;
    case Perform(_, _, _, _, target) => assert z.q.blocks[target].params == z.p.blocks[target].params;
    case GotoCall(target, _, _) => assert z.q.blocks[target].params == z.p.blocks[target].params;
    case _ =>
  }

  /** An old block, rewritten or not, still reads only what is known. */
  lemma OldBlockKnows(z: Collapsed, b: BlockId)
    requires z.Valid() && b < |z.p.blocks|
    ensures KnowsAt(z.q, NextKnown(z), b)
  {
    z.Unfold();
    assert RewrittenTo(z.p, z.members, z.jumps, b, z.q.blocks[b]) && KnowsAt(z.p, z.known, b);
    SameDefinitions(z, b);
    var known := NextKnown(z);
    ReadsKept(z, b);
    if b in z.jumps {
      JumpKnows(z, b);
    } else {
      FilledKept(z, b, known[b] + Definitions.DefinitionsIn(z.p, b));
      forall c | c in z.q.blocks[b].term.Successors() && c < |z.q.blocks|
        ensures known[c] <= known[b] + Definitions.DefinitionsIn(z.q, b)
      {
        if c < |z.p.blocks| { assert known[c] == z.known[c]; }
      }
    }
  }

  lemma ReadsKept(z: Collapsed, b: BlockId)
    requires z.Valid() && b < |z.p.blocks|
    ensures Definitions.ReadsDefined(z.q, b, z.known[b])
  {
    z.Unfold();
    assert RewrittenTo(z.p, z.members, z.jumps, b, z.q.blocks[b]) && KnowsAt(z.p, z.known, b);
    SameDefinitions(z, b);
    assert z.q.blocks[b].term.Operands() == z.p.blocks[b].term.Operands();
    forall k: nat | k < |z.q.blocks[b].instrs| ensures Definitions.InstrReadsDefined(z.q.blocks[b], z.known[b], k) {
      assert Definitions.InstrReadsDefined(z.p.blocks[b], z.known[b], k);
    }
  }

  lemma JumpKnows(z: Collapsed, b: BlockId)
    requires z.Valid() && b < |z.p.blocks| && b in z.jumps
    ensures EdgesFill(z.q, b, z.known[b] + Definitions.DefinitionsIn(z.q, b))
    ensures forall c {:trigger c in z.q.blocks[b].term.Successors()} ::
      c in z.q.blocks[b].term.Successors() && c < |z.q.blocks| ==>
      NextKnown(z)[c] <= NextKnown(z)[b] + Definitions.DefinitionsIn(z.q, b)
  {
    z.Unfold();
    assert RewrittenTo(z.p, z.members, z.jumps, b, z.q.blocks[b]) && CallFits(z.p, b);
    var f := CallIn(z.p.blocks[b].term).value.callee;
    var i: nat :| i < |z.members| && z.members[i] == f;
    var entry := z.p.functions[f].entry;
    KeptParams(z);
    assert z.q.blocks[entry].params == z.p.blocks[entry].params == z.p.functions[f].params;
    assert NextKnown(z)[entry] == z.known[entry] == {};
    assert z.q.blocks[b].term.Successors() == [entry];
  }

  lemma {:induction false} SlotInPack(p: Program, members: seq<FuncId>, i: nat, n: nat)
    requires i < n <= |members| && InRange(p, members)
    ensures Definitions.Params(p.functions[members[i]].params) <= Definitions.Params(Pack(p, members, n))
    decreases n
  {
    if i < n - 1 { SlotInPack(p, members, i, n - 1); }
  }

  lemma {:induction false} AppendReads(a: seq<Expr>, b: seq<Expr>)
    ensures Definitions.ReadsOfAll(a + b) == Definitions.ReadsOfAll(a) + Definitions.ReadsOfAll(b)
    decreases |b|
  {
    if b == [] {
      assert a + b == a;
    } else {
      AppendReads(a, b[..|b| - 1]);
      assert (a + b)[..|a + b| - 1] == a + b[..|b| - 1];
    }
  }

  lemma {:induction false} PlainReads(es: seq<Expr>, vars: set<ValueId>)
    requires forall k: nat {:trigger es[k]} :: k < |es| ==> Definitions.Reads(es[k]) <= vars
    ensures Definitions.ReadsOfAll(es) <= vars
    decreases |es|
  {
    if es != [] {
      var rest := es[..|es| - 1];
      forall k: nat | k < |rest| ensures Definitions.Reads(rest[k]) <= vars { assert rest[k] == es[k]; }
      PlainReads(rest, vars);
    }
  }

  /** A wrapper reads only its own parameters. */
  lemma {:induction false} WrapperReads(p: Program, members: seq<FuncId>, i: nat, n: nat)
    requires n <= |members| && i < |members| && InRange(p, members)
    ensures Definitions.ReadsOfAll(PackArgs(p, members, i, n)) <= Definitions.Params(p.functions[members[i]].params)
    decreases n
  {
    if n > 0 {
      WrapperReads(p, members, i, n - 1);
      var slot := p.functions[members[n - 1]].params;
      var args := seq(|slot|, k requires 0 <= k < |slot| => if n - 1 == i then Value(slot[k]) else Literal(Unit));
      forall k: nat | k < |args|
        ensures Definitions.Reads(args[k]) <= Definitions.Params(p.functions[members[i]].params)
      {
        if n - 1 == i { assert slot[k] in slot; }
      }
      PlainReads(args, Definitions.Params(p.functions[members[i]].params));
      AppendReads(PackArgs(p, members, i, n - 1), args);
    }
  }

  /** The dispatcher's entry goes only to members' entries, whose parameters it has. */
  lemma EntryKnows(z: Collapsed)
    requires z.Valid()
    ensures KnowsAt(z.q, NextKnown(z), z.l.entry)
  {
    z.Unfold();
    var pack := Pack(z.p, z.members, |z.members|);
    var params := [z.l.selector] + pack;
    var vars := NextKnown(z)[z.l.entry] + Definitions.DefinitionsIn(z.q, z.l.entry);
    assert Definitions.Params(params) == {z.l.selector} + Definitions.Params(pack);
    assert Definitions.ReadsOfAll([Value(z.l.selector)]) <= {z.l.selector} by {
      PlainReads([Value(z.l.selector)], {z.l.selector});
    }
    var entries := Entries(z.p, z.members);
    KeptParams(z);
    forall i: nat | i < |entries| ensures Filled(z.q, entries[i], vars) && NextKnown(z)[entries[i]] == {} {
      assert z.members[i] in z.members;
      SlotInPack(z.p, z.members, i, |z.members|);
      assert z.q.blocks[entries[i]].params == z.p.blocks[entries[i]].params;
      assert z.known[z.p.functions[z.members[i]].entry] == {};
    }
    assert Filled(z.q, z.l.stuck, vars);
    forall c | c in z.q.blocks[z.l.entry].term.Successors() && c < |z.q.blocks| ensures NextKnown(z)[c] == {} {
      if c in entries { var i: nat :| i < |entries| && entries[i] == c; }
    }
  }

  lemma WrapperKnows(z: Collapsed, i: nat)
    requires z.Valid() && i < |z.members|
    ensures z.l.wrappers[i] < |z.q.blocks| && KnowsAt(z.q, NextKnown(z), z.l.wrappers[i])
    ensures z.l.exits[i] < |z.q.blocks| && KnowsAt(z.q, NextKnown(z), z.l.exits[i])
  {
    z.Unfold();
    assert WrapperAt(z.p, z.members, z.q, z.l, i);
    var slot := z.p.functions[z.members[i]].params;
    WrapperReads(z.p, z.members, i, |z.members|);
    AppendReads([Literal(Int(i))], PackArgs(z.p, z.members, i, |z.members|));
    assert Definitions.ReadsOfAll([Literal(Int(i))]) == {} by { PlainReads([Literal(Int(i))], {}); }
    assert Definitions.ReadsOfAll([Value(z.l.results[i])]) <= {z.l.results[i]} by {
      PlainReads([Value(z.l.results[i])], {z.l.results[i]});
    }
    assert Definitions.Params([z.l.results[i]]) == {z.l.results[i]};
  }

  lemma CarriesKnown(z: Collapsed)
    requires z.Valid()
    ensures Knows(z.q, NextKnown(z))
  {
    z.Unfold();
    forall b: BlockId | b < |z.q.blocks| ensures KnowsAt(z.q, NextKnown(z), b) {
      if b < |z.p.blocks| { OldBlockKnows(z, b); } else { NewBlockKnows(z, b); }
    }
  }

  lemma StuckKnows(z: Collapsed)
    requires z.Valid()
    ensures KnowsAt(z.q, NextKnown(z), z.l.stuck)
  {
    z.Unfold();
    assert z.q.blocks[z.l.stuck].term.Operands() == [];
  }

  /** A new block is the dispatcher's entry, the stuck block, or one of a member's two. */
  lemma WhichNew(z: Collapsed, b: BlockId) returns (i: nat)
    requires z.Valid() && |z.p.blocks| + 2 <= b < |z.q.blocks|
    ensures i < |z.members| && (b == z.l.wrappers[i] || b == z.l.exits[i])
  {
    z.Unfold();
    i := (b - |z.p.blocks| - 2) / 2;
    assert WrapperAt(z.p, z.members, z.q, z.l, i);
  }

  lemma NewBlockKnows(z: Collapsed, b: BlockId)
    requires z.Valid() && |z.p.blocks| <= b < |z.q.blocks|
    ensures KnowsAt(z.q, NextKnown(z), b)
  {
    z.Unfold();
    if b == z.l.entry {
      EntryKnows(z);
    } else if b == z.l.stuck {
      StuckKnows(z);
    } else {
      var i := WhichNew(z, b);
      WrapperKnows(z, i);
    }
  }

  lemma FunctionsKept(z: Collapsed)
    requires z.Valid()
    ensures forall f: FuncId {:trigger z.q.functions[f]} :: f < |z.q.functions| ==>
      z.q.functions[f].entry < |z.q.blocks|
    ensures forall f: FuncId {:trigger z.q.functions[f]} :: f < |z.p.functions| ==>
      z.q.functions[f].params == z.p.functions[f].params
  {
    z.Unfold();
    forall f: FuncId | f < |z.q.functions|
      ensures z.q.functions[f].entry < |z.q.blocks|
        && (f < |z.p.functions| ==> z.q.functions[f].params == z.p.functions[f].params)
    {
      if f in z.members {
        var i: nat :| i < |z.members| && z.members[i] == f;
        assert WrapperAt(z.p, z.members, z.q, z.l, i);
      }
    }
  }

  lemma OldCallFits(z: Collapsed, b: BlockId)
    requires z.Valid() && b < |z.p.blocks|
    ensures CallFits(z.q, b)
  {
    z.Unfold();
    assert RewrittenTo(z.p, z.members, z.jumps, b, z.q.blocks[b]) && CallFits(z.p, b);
    FunctionsKept(z);
  }

  lemma WrapperCallFits(z: Collapsed, i: nat)
    requires z.Valid() && i < |z.members|
    ensures z.l.wrappers[i] < |z.q.blocks| && CallFits(z.q, z.l.wrappers[i])
    ensures z.l.exits[i] < |z.q.blocks| && CallFits(z.q, z.l.exits[i])
  {
    z.Unfold();
    assert WrapperAt(z.p, z.members, z.q, z.l, i);
    PackSizes(z.p, z.members, i, |z.members|);
  }

  lemma CarriesCalls(z: Collapsed)
    requires z.Valid()
    ensures WellFormed(z.q)
  {
    z.Unfold();
    FunctionsKept(z);
    forall b: BlockId | b < |z.q.blocks| ensures CallFits(z.q, b) {
      if b < |z.p.blocks| {
        OldCallFits(z, b);
      } else if b != z.l.entry && b != z.l.stuck {
        var i := WhichNew(z, b);
        WrapperCallFits(z, i);
      }
    }
  }

  /** Tail calls not made jumps are tail calls still. */
  lemma {:induction false} ForwardsKept(z: Collapsed, n: nat, b: BlockId, v: ValueId)
    requires z.Valid() && Forwards(z.p, n, b, v)
    ensures Forwards(z.q, n, b, v)
    decreases n
  {
    z.Unfold();
    assert RewrittenTo(z.p, z.members, z.jumps, b, z.q.blocks[b]);
    if !ReturnsIt(z.p, b, v) {
      KeptParams(z);
      var (c, u) := Hop(z.p, b, v).value;
      if c < |z.p.blocks| { assert z.q.blocks[c].params == z.p.blocks[c].params; }
      ForwardsKept(z, n - 1, c, u);
    }
  }

  lemma CarriesTails(z: Collapsed, tails: set<BlockId>)
    requires z.Valid() && StillTails(z.p, tails)
    ensures StillTails(z.q, tails)
  {
    z.Unfold();
    forall b: BlockId | b in tails ensures b < |z.q.blocks| && (CallIn(z.q.blocks[b].term).Some? ==> IsTail(z.q, b)) {
      assert RewrittenTo(z.p, z.members, z.jumps, b, z.q.blocks[b]);
      if CallIn(z.q.blocks[b].term).Some? {
        var (c, v) := CallResult(z.p, b).value;
        KeptParams(z);
        assert z.q.blocks[c].params == z.p.blocks[c].params;
        ForwardsKept(z, |z.p.blocks|, c, v);
        var d := ForwardsAway(z.q, |z.p.blocks|, c, v);
        AwayForwards(z.q, d, |z.q.blocks|, c, v);
      }
    }
  }

  // ---------------------------------------------------------------- which cycles qualify

  ghost function ReachSet(p: Program, tails: set<BlockId>, f: FuncId): set<BlockId>
    requires f < |p.functions|
  {
    set b: BlockId | b < |p.blocks| && InReach(p, tails, f, b)
  }

  /** Nothing in the block keys off the frame it runs in. */
  predicate FrameFree(block: Block) {
    !block.term.Perform? && forall i :: i in block.instrs ==> !i.HandlerEnter? && !i.RegionEnter?
  }

  predicate OwnEntry(p: Program, f: FuncId) {
    f < |p.functions| && p.functions[f].entry < |p.blocks|
      && p.blocks[p.functions[f].entry].params == p.functions[f].params
  }

  /** The first `n` members can share a frame: their entries and parameters are their own, and so
      are the blocks they run through, none of which keys off its frame. */
  ghost predicate EligibleUpTo(p: Program, tails: set<BlockId>, members: seq<FuncId>, n: nat)
    requires n <= |members|
  {
    n == 0 || (EligibleUpTo(p, tails, members, n - 1) && MemberFits(p, tails, members, n))
  }

  ghost predicate MemberFits(p: Program, tails: set<BlockId>, members: seq<FuncId>, n: nat)
    requires 0 < n <= |members|
  {
    OwnEntry(p, members[n - 1]) && FreshSlot(p, members, n) && BlocksFit(p, tails, members, n)
  }

  predicate Entered(p: Program, members: seq<FuncId>, n: nat)
    requires n <= |members|
  {
    forall i: nat {:trigger members[i]} :: i < n ==> OwnEntry(p, members[i])
  }

  ghost predicate FreshSlot(p: Program, members: seq<FuncId>, n: nat)
    requires 0 < n <= |members|
  {
    Entered(p, members, n) && Flow.Distinct(Pack(p, members, n))
  }

  ghost predicate BlocksFit(p: Program, tails: set<BlockId>, members: seq<FuncId>, n: nat)
    requires 0 < n <= |members|
  {
    Entered(p, members, n)
    && ReachSet(p, tails, members[n - 1]) !! Owned(p, tails, members, n - 1)
    && forall b: BlockId {:trigger b in ReachSet(p, tails, members[n - 1])} ::
      b in ReachSet(p, tails, members[n - 1]) ==> FrameFree(p.blocks[b])
  }

  ghost function Owned(p: Program, tails: set<BlockId>, members: seq<FuncId>, n: nat): set<BlockId>
    requires n <= |members| && Entered(p, members, n)
  {
    if n == 0 then {} else Owned(p, tails, members, n - 1) + ReachSet(p, tails, members[n - 1])
  }

  lemma {:induction false} EligibleLess(p: Program, tails: set<BlockId>, members: seq<FuncId>, n: nat, m: nat)
    requires n <= m <= |members| && EligibleUpTo(p, tails, members, m)
    ensures EligibleUpTo(p, tails, members, n)
    decreases m
  {
    if n < m { EligibleLess(p, tails, members, n, m - 1); }
  }

  method AddParams(before: seq<ValueId>, seenBefore: set<ValueId>, slot: seq<ValueId>)
    returns (fresh_: bool, seen: set<ValueId>)
    requires Flow.Distinct(before) && seenBefore == (set v | v in before)
    ensures fresh_ <==> Flow.Distinct(before + slot)
    ensures fresh_ ==> seen == (set v | v in before + slot)
  {
    seen := seenBefore;
    for i := 0 to |slot|
      invariant Flow.Distinct(before + slot[..i]) && seen == (set v | v in before + slot[..i])
    {
      var all := before + slot;
      if slot[i] in seen {
        var j :| 0 <= j < |before + slot[..i]| && (before + slot[..i])[j] == slot[i];
        assert all[j] == slot[i] && all[|before| + i] == slot[i];
        return false, seen;
      }
      assert before + slot[..i + 1] == (before + slot[..i]) + [slot[i]];
      seen := seen + {slot[i]};
    }
    assert before + slot[..|slot|] == before + slot;
    return true, seen;
  }

  method AddBlocks(p: Program, tails: set<BlockId>, f: FuncId, before: set<BlockId>)
    returns (fit: bool, owned: set<BlockId>)
    requires OwnEntry(p, f)
    ensures fit <==> ReachSet(p, tails, f) !! before && forall b: BlockId {:trigger b in ReachSet(p, tails, f)} ::
      b in ReachSet(p, tails, f) ==> FrameFree(p.blocks[b])
    ensures fit ==> owned == before + ReachSet(p, tails, f)
  {
    var g := Flow.View(p, p.functions[f].entry, tails);
    var reachable := ReachableBlocks(p, p.functions[f].entry, tails);
    forall k | 0 <= k < |reachable| ensures reachable[k] in ReachSet(p, tails, f) {
      assert reachable[k] in reachable;
      Definitions.ReachableExists(g, reachable[k]);
    }
    owned := before;
    for i := 0 to |reachable|
      invariant owned == before + (set b: BlockId | b in reachable[..i])
      invariant forall k :: 0 <= k < i ==> reachable[k] !in before && FrameFree(p.blocks[reachable[k]])
    {
      var b := reachable[i];
      assert b in reachable;
      if b in before || !FrameFree(p.blocks[b]) { return false, owned; }
      owned := owned + {b};
      assert reachable[..i + 1] == reachable[..i] + [b];
    }
    assert reachable[..|reachable|] == reachable;
    forall b: BlockId | b in ReachSet(p, tails, f) ensures b in reachable && b !in before && FrameFree(p.blocks[b]) {
      var k :| 0 <= k < |reachable| && reachable[k] == b;
    }
    assert owned == before + ReachSet(p, tails, f);
    return true, owned;
  }

  /** What the first `n` members have taken. */
  ghost predicate Taken(p: Program, tails: set<BlockId>, members: seq<FuncId>, n: nat, params: set<ValueId>,
      owned: set<BlockId>)
    requires n <= |members|
  {
    && Entered(p, members, n) && Flow.Distinct(Pack(p, members, n))
    && params == (set v | v in Pack(p, members, n)) && owned == Owned(p, tails, members, n)
  }

  method AddMember(p: Program, tails: set<BlockId>, members: seq<FuncId>, n: nat, paramsBefore: set<ValueId>,
      ownedBefore: set<BlockId>)
    returns (fits: bool, params: set<ValueId>, owned: set<BlockId>)
    requires n < |members| && Taken(p, tails, members, n, paramsBefore, ownedBefore)
    ensures fits <==> MemberFits(p, tails, members, n + 1)
    ensures fits ==> Taken(p, tails, members, n + 1, params, owned)
  {
    params, owned := paramsBefore, ownedBefore;
    var f := members[n];
    if !OwnEntry(p, f) { return false, params, owned; }
    OneMore(p, tails, members, n);
    fits, params := AddParams(Pack(p, members, n), paramsBefore, p.functions[f].params);
    if !fits { return; }
    fits, owned := AddBlocks(p, tails, f, ownedBefore);
  }

  lemma OneMore(p: Program, tails: set<BlockId>, members: seq<FuncId>, n: nat)
    requires n < |members| && Entered(p, members, n) && OwnEntry(p, members[n])
    ensures Entered(p, members, n + 1)
    ensures Pack(p, members, n + 1) == Pack(p, members, n) + p.functions[members[n]].params
    ensures Owned(p, tails, members, n + 1) == Owned(p, tails, members, n) + ReachSet(p, tails, members[n])
  {}

  method IsEligible(p: Program, tails: set<BlockId>, members: seq<FuncId>) returns (yes: bool)
    ensures yes <==> EligibleUpTo(p, tails, members, |members|)
  {
    var params: set<ValueId>, owned: set<BlockId> := {}, {};
    for n := 0 to |members|
      invariant EligibleUpTo(p, tails, members, n) && Taken(p, tails, members, n, params, owned)
    {
      var fits;
      fits, params, owned := AddMember(p, tails, members, n, params, owned);
      if !fits {
        NotEligible(p, tails, members, n);
        return false;
      }
    }
    return true;
  }

  lemma NotEligible(p: Program, tails: set<BlockId>, members: seq<FuncId>, n: nat)
    requires n < |members| && !MemberFits(p, tails, members, n + 1)
    ensures !EligibleUpTo(p, tails, members, |members|)
  {
    if EligibleUpTo(p, tails, members, |members|) { EligibleLess(p, tails, members, n + 1, |members|); }
  }

  // ---------------------------------------------------------------- the pass

  function Callees(p: Program, blocks: set<BlockId>): set<FuncId> {
    set b: BlockId | b in blocks && Calling(p, b) :: SiteAt(p, b).callee
  }

  /** Whom a function tail-calls. */
  ghost function TailEdgesOf(p: Program, tails: set<BlockId>, f: FuncId): set<FuncId>
    requires f < |p.functions|
  {
    Callees(p, tails * ReachSet(p, tails, f))
  }

  method TailEdges(p: Program, tails: set<BlockId>) returns (edges: Edges)
    requires forall f: FuncId {:trigger p.functions[f]} :: f < |p.functions| ==> p.functions[f].entry < |p.blocks|
    ensures |edges| == |p.functions| && forall f: FuncId {:trigger TailEdgesOf(p, tails, f)} :: f < |edges| ==>
      edges[f] == TailEdgesOf(p, tails, f)
  {
    edges := [];
    for f := 0 to |p.functions|
      invariant |edges| == f && forall k: FuncId {:trigger TailEdgesOf(p, tails, k)} :: k < f ==>
        edges[k] == TailEdgesOf(p, tails, k)
    {
      var own := OneFunctionsEdges(p, tails, f);
      edges := edges + [own];
    }
  }

  method OneFunctionsEdges(p: Program, tails: set<BlockId>, f: FuncId) returns (own: set<FuncId>)
    requires f < |p.functions| && p.functions[f].entry < |p.blocks|
    ensures own == TailEdgesOf(p, tails, f)
  {
    var reachable := ReachableBlocks(p, p.functions[f].entry, tails);
    var found := set b | b in reachable && b < |p.blocks| && b in tails;
    assert found == tails * ReachSet(p, tails, f);
    own := Callees(p, found);
  }

  lemma {:induction false} EligibleAreMembers(p: Program, tails: set<BlockId>, members: seq<FuncId>, n: nat)
    requires n <= |members| && EligibleUpTo(p, tails, members, n)
    ensures Entered(p, members, n) && Flow.Distinct(Pack(p, members, n))
    decreases n
  {
    if n > 0 { EligibleAreMembers(p, tails, members, n - 1); }
  }

  /** The functions of the first program return the same in the second when each program runs the
      calls inside its expressions itself. */
  ghost predicate SameWithin(p: Program, q: Program) {
    forall w: World, f: FuncId, args: seq<Val>, t: Trace,
      o: Outcome {:trigger PureCalls.ReturnsWithin(q, w, |p.functions|, f, args, t, o)} ::
      f < |p.functions| ==>
        (PureCalls.ReturnsWithin(p, w, |p.functions|, f, args, t, o) <==>
          PureCalls.ReturnsWithin(q, w, |p.functions|, f, args, t, o))
  }

  lemma EquivalentIsSame(p: Program, q: Program)
    requires PureCalls.Equivalent(p, q)
    ensures SameWithin(p, q)
  {
    forall w: World, f: FuncId, args: seq<Val>, t: Trace, o: Outcome | f < |p.functions|
      ensures PureCalls.ReturnsWithin(p, w, |p.functions|, f, args, t, o) <==>
        PureCalls.ReturnsWithin(q, w, |p.functions|, f, args, t, o)
    {
      PureCalls.EquivalentWithin(p, q, w, f, args, t, o);
    }
  }

  /** A program as its validation leaves it: every function's runs define what they read. */
  ghost predicate Validated(p: Program) {
    && WellFormed(p) && Filling(p)
    && forall f: FuncId {:trigger p.functions[f]} :: f < |p.functions| ==>
      Definitions.Safe(p, Definitions.Whole(p, p.functions[f].entry))
  }

  ghost predicate ParamsBelow(functions: seq<Function>, n: ValueId) {
    forall f: FuncId, v {:trigger v in functions[f].params} :: f < |functions| && v in functions[f].params ==> v < n
  }

  /** A cycle not collapsed yet is as it was at the start. */
  ghost predicate Pending(p: Program, q: Program, known: seq<set<ValueId>>, members: seq<FuncId>) {
    && Flow.Distinct(members) && |known| == |q.blocks|
    && (forall i: nat {:trigger members[i]} :: i < |members| ==> PendingAt(p, q, known, members[i]))
    && Flow.Distinct(Pack(p, members, |members|))
  }

  ghost predicate PendingAt(p: Program, q: Program, known: seq<set<ValueId>>, f: FuncId)
    requires |known| == |q.blocks|
  {
    && OwnEntry(p, f) && |p.blocks| <= |q.blocks| && f < |q.functions| && q.functions[f] == p.functions[f]
    && q.blocks[p.functions[f].entry].params == p.functions[f].params && known[p.functions[f].entry] == {}
  }

  lemma {:induction false} PackSame(p: Program, q: Program, members: seq<FuncId>, n: nat)
    requires n <= |members| && forall i: nat {:trigger members[i]} :: i < |members| ==>
      members[i] < |p.functions| && members[i] < |q.functions| && q.functions[members[i]] == p.functions[members[i]]
    ensures Pack(p, members, n) == Pack(q, members, n)
    decreases n
  {
    if n > 0 { PackSame(p, q, members, n - 1); }
  }

  lemma PendingMembers(p: Program, q: Program, known: seq<set<ValueId>>, members: seq<FuncId>)
    requires Pending(p, q, known, members)
    ensures Members(q, members)
    ensures forall i: nat {:trigger members[i]} :: i < |members| ==> known[q.functions[members[i]].entry] == {}
  {
    forall i: nat | i < |members| ensures PendingAt(p, q, known, members[i]) {}
    PackSame(p, q, members, |members|);
    forall f: FuncId | f in members
      ensures q.functions[f].entry < |q.blocks| && q.blocks[q.functions[f].entry].params == q.functions[f].params
    {
      var i: nat :| i < |members| && members[i] == f;
    }
  }

  /** Another cycle's collapse leaves a cycle as it was. */
  lemma PendingStays(p: Program, z: Collapsed, members: seq<FuncId>)
    requires z.Valid() && Pending(p, z.p, z.known, members) && forall f :: f in members ==> f !in z.members
    ensures Pending(p, z.q, NextKnown(z), members)
  {
    z.Unfold();
    forall i: nat | i < |members| ensures PendingAt(p, z.q, NextKnown(z), members[i]) {
      var f := members[i];
      assert PendingAt(p, z.p, z.known, f) && f in members;
      assert z.q.functions[f] == z.p.functions[f];
      SameDefinitions(z, p.functions[f].entry);
    }
  }

  lemma {:induction false} PackBelow(p: Program, members: seq<FuncId>, k: nat, n: ValueId)
    requires k <= |members| && ParamsBelow(p.functions, n)
    ensures forall v :: v in Pack(p, members, k) ==> v < n
    decreases k
  {
    if k > 0 { PackBelow(p, members, k - 1, n); }
  }

  lemma ParamsStayBelow(z: Collapsed, n: ValueId, m: ValueId)
    requires z.Valid() && ParamsBelow(z.p.functions, n) && n <= m && z.l.selector < m
    ensures ParamsBelow(z.q.functions, m)
  {
    z.Unfold();
    FunctionsKept(z);
    PackBelow(z.p, z.members, |z.members|, n);
    forall f: FuncId, v | f < |z.q.functions| && v in z.q.functions[f].params ensures v < m {
      if f < |z.p.functions| { assert v in z.p.functions[f].params; }
    }
  }

  lemma EquivalentOn(p: Program, z: Collapsed)
    requires z.Valid() && PureCalls.Equivalent(p, z.p)
    ensures PureCalls.Equivalent(p, z.q)
  {
    z.Unfold();
    forall w: World, f: FuncId, args: seq<Val>, t: Trace, o: Outcome | f < |p.functions|
      ensures Returns(p, w, f, args, t, o) <==> Returns(z.q, w, f, args, t, o)
    {
      assert Returns(p, w, f, args, t, o) <==> Returns(z.p, w, f, args, t, o);
      CollapseKeepsResults(z, w, f, args, t, o);
    }
  }

  /** What holds between two collapses. */
  ghost predicate Between(p: Program, q: Program, known: seq<set<ValueId>>, tails: set<BlockId>, unused: ValueId,
      rest: seq<seq<FuncId>>, k: nat) {
    && WellFormed(q) && Knows(q, known) && StillTails(q, tails) && ParamsBelow(q.functions, unused)
      && PureCalls.Equivalent(p, q)
    && forall i: nat {:trigger rest[i]} :: k <= i < |rest| ==> Pending(p, q, known, rest[i])
  }

  /** Collapse one cycle and be ready for the next. */
  method CollapseNext(c: Rewriter, ghost p: Program, ghost known: seq<set<ValueId>>, tails: set<BlockId>,
      cycles: seq<seq<FuncId>>, k: nat)
    returns (dispatch: FuncId, ghost after: seq<set<ValueId>>)
    requires k < |cycles| && Between(p, c.Current(), known, tails, c.nextValue, cycles, k)
    requires Disjoint(cycles) && Filling(p) && forall i: nat {:trigger cycles[i]} :: i < |cycles| ==>
      InRange(p, cycles[i])
    requires Done(p, c.Current(), tails, cycles, k)
    modifies c
    ensures Between(p, c.Current(), after, tails, c.nextValue, cycles, k + 1)
      && Done(p, c.Current(), tails, cycles, k + 1)
    ensures dispatch == old(|c.functions|) && |c.functions| == dispatch + 1
  {
    ghost var q := c.Current();
    var members := cycles[k];
    PendingMembers(p, q, known, members);
    PackBelow(q, members, |members|, c.nextValue);
    ghost var n := c.nextValue;
    var l := Collapse(c, members, tails);
    ghost var z := Collapsed(q, members, CycleJumps(q, tails, members, |members|), c.Current(), l, known);
    assert z.Valid();
    after := NextKnown(z);
    NextReady(p, z, tails, n, c.nextValue, cycles, k);
    forall i: nat | i < |members|
      ensures z.p.functions[members[i]] == p.functions[members[i]] && p.functions[members[i]].entry < |p.blocks|
    {
      assert PendingAt(p, q, known, members[i]);
    }
    OneMoreDone(p, z, tails, cycles, k);
    dispatch := l.dispatch;
  }

  lemma NextReady(p: Program, z: Collapsed, tails: set<BlockId>, n: ValueId, unused: ValueId,
      cycles: seq<seq<FuncId>>, k: nat)
    requires z.Valid() && k < |cycles| && z.members == cycles[k] && Between(p, z.p, z.known, tails, n, cycles, k)
    requires n <= unused && z.l.selector < unused && Disjoint(cycles)
    ensures Between(p, z.q, NextKnown(z), tails, unused, cycles, k + 1)
  {
    z.Unfold();
    CarriesCalls(z);
    CarriesKnown(z);
    CarriesTails(z, tails);
    ParamsStayBelow(z, n, unused);
    EquivalentOn(p, z);
    forall i: nat | k + 1 <= i < |cycles| ensures Pending(p, z.q, NextKnown(z), cycles[i]) {
      assert Pending(p, z.p, z.known, cycles[i]);
      PendingStays(p, z, cycles[i]);
    }
  }

  // ---------------------------------------------------------------- and every cycle's tail calls are jumps

  /** A block is as it was, or is a tail call made a jump. */
  ghost predicate KeptAt(p: Program, q: Program, tails: set<BlockId>, b: BlockId)
    requires b < |p.blocks| <= |q.blocks|
  {
    q.blocks[b] == p.blocks[b] || (b in tails && Calling(p, b) && q.blocks[b] == Jumping(p, b))
  }

  ghost predicate JumpsMade(p: Program, q: Program, tails: set<BlockId>, members: seq<FuncId>)
    requires InRange(p, members) && |p.blocks| <= |q.blocks|
  {
    forall b: BlockId {:trigger q.blocks[b]} :: b < |p.blocks| && b in CycleJumps(p, tails, members, |members|) ==>
      q.blocks[b] == Jumping(p, b)
  }

  /** What the first `k` collapses have come to. */
  ghost predicate Done(p: Program, q: Program, tails: set<BlockId>, cycles: seq<seq<FuncId>>, k: nat)
    requires k <= |cycles| && forall i: nat {:trigger cycles[i]} :: i < |cycles| ==> InRange(p, cycles[i])
  {
    && |p.blocks| <= |q.blocks|
    && (forall b: BlockId {:trigger KeptAt(p, q, tails, b)} :: b < |p.blocks| ==> KeptAt(p, q, tails, b))
    && (forall i: nat {:trigger JumpsMade(p, q, tails, cycles[i])} :: i < k ==> JumpsMade(p, q, tails, cycles[i]))
    && (forall i: nat {:trigger CallersKept(p, q, cycles[i])} :: k <= i < |cycles| ==> CallersKept(p, q, cycles[i]))
  }

  /** Nothing that calls the members has been rewritten. */
  ghost predicate CallersKept(p: Program, q: Program, members: seq<FuncId>)
    requires |p.blocks| <= |q.blocks|
  {
    forall b: BlockId {:trigger CallsTo(p, members, b)} :: b < |p.blocks| && CallsTo(p, members, b) ==>
      q.blocks[b] == p.blocks[b]
  }

  lemma EdgeStaysInside(p: Program, b: BlockId, c: BlockId)
    requires Filling(p) && b < |p.blocks| && c in p.blocks[b].term.Successors()
    ensures c < |p.blocks|
  {
    assert EdgesFill(p, b, {});
    match p.blocks[b].term
    case Match(_, arms, _) =>
      forall i: nat | i < |arms| ensures arms[i].target < |p.blocks| { assert ArmFills(p, arms[i]); }
    case Switch(_, targets, _) =>
      forall i: nat | i < |targets| ensures targets[i] < |p.blocks| { assert Filled(p, targets[i], {}); }
    case _ =>
  }

  /** Up to its tail calls a function runs as before. */
  lemma {:induction false} SameRun(p: Program, q: Program, tails: set<BlockId>, entry: BlockId, run: seq<BlockId>)
    requires Filling(p) && entry < |p.blocks| <= |q.blocks|
    requires forall b: BlockId {:trigger KeptAt(p, q, tails, b)} :: b < |p.blocks| ==> KeptAt(p, q, tails, b)
    requires Flow.View(p, entry, tails).IsRun(run) || Flow.View(q, entry, tails).IsRun(run)
    ensures Flow.View(p, entry, tails).IsRun(run) && Flow.View(q, entry, tails).IsRun(run)
      && run[|run| - 1] < |p.blocks|
    decreases |run|
  {
    var g, h := Flow.View(p, entry, tails), Flow.View(q, entry, tails);
    if |run| > 1 {
      var last := |run| - 1;
      if g.IsRun(run) { g.ShortenRun(run); } else { h.ShortenRun(run); }
      SameRun(p, q, tails, entry, run[..last]);
      var b, c := run[last - 1], run[last];
      assert KeptAt(p, q, tails, b);
      assert g.Successors(b) == h.Successors(b);
      if b !in tails { EdgeStaysInside(p, b, c); }
      assert run == run[..last] + [c];
      g.ExtendRun(run[..last], c);
      h.ExtendRun(run[..last], c);
    }
  }

  lemma SameReach(p: Program, q: Program, tails: set<BlockId>, f: FuncId, b: BlockId)
    requires Filling(p) && f < |p.functions| && f < |q.functions|
      && q.functions[f].entry == p.functions[f].entry < |p.blocks| <= |q.blocks|
    requires forall b: BlockId {:trigger KeptAt(p, q, tails, b)} :: b < |p.blocks| ==> KeptAt(p, q, tails, b)
    ensures InReach(p, tails, f, b) <==> InReach(q, tails, f, b)
    ensures InReach(p, tails, f, b) ==> b < |p.blocks|
  {
    var entry := p.functions[f].entry;
    var g, h := Flow.View(p, entry, tails), Flow.View(q, entry, tails);
    if g.Reachable(b) {
      var run :| g.IsRun(run) && run[|run| - 1] == b;
      SameRun(p, q, tails, entry, run);
    }
    if h.Reachable(b) {
      var run :| h.IsRun(run) && run[|run| - 1] == b;
      SameRun(p, q, tails, entry, run);
    }
  }

  /** A cycle's tail calls are the same ones, whatever other cycles have been collapsed. */
  lemma SameJumpsOf(p: Program, q: Program, tails: set<BlockId>, members: seq<FuncId>, f: FuncId)
    requires Filling(p) && f < |p.functions| && f < |q.functions|
      && q.functions[f].entry == p.functions[f].entry < |p.blocks| <= |q.blocks|
    requires forall b: BlockId {:trigger KeptAt(p, q, tails, b)} :: b < |p.blocks| ==> KeptAt(p, q, tails, b)
    requires CallersKept(p, q, members)
    ensures JumpsOf(q, tails, members, f) == JumpsOf(p, tails, members, f)
  {
    forall b: BlockId ensures b in JumpsOf(q, tails, members, f) <==> b in JumpsOf(p, tails, members, f) {
      SameReach(p, q, tails, f, b);
      if b < |p.blocks| {
        assert KeptAt(p, q, tails, b);
        assert CallsTo(q, members, b) <==> CallsTo(p, members, b);
      }
    }
  }

  lemma {:induction false} SameJumps(p: Program, q: Program, tails: set<BlockId>, members: seq<FuncId>, n: nat)
    requires Filling(p) && |p.blocks| <= |q.blocks| && n <= |members| && InRange(p, members) && InRange(q, members)
    requires forall i: nat {:trigger members[i]} :: i < |members| ==>
      q.functions[members[i]].entry == p.functions[members[i]].entry < |p.blocks|
    requires forall b: BlockId {:trigger KeptAt(p, q, tails, b)} :: b < |p.blocks| ==> KeptAt(p, q, tails, b)
    requires CallersKept(p, q, members)
    ensures CycleJumps(q, tails, members, n) == CycleJumps(p, tails, members, n)
    decreases n
  {
    if n > 0 {
      SameJumps(p, q, tails, members, n - 1);
      SameJumpsOf(p, q, tails, members, members[n - 1]);
    }
  }

  ghost predicate Disjoint(cycles: seq<seq<FuncId>>) {
    forall i: nat, j: nat, f {:trigger f in cycles[i], f in cycles[j]} :: i < j < |cycles| && f in cycles[i] ==>
      f !in cycles[j]
  }

  /** One block across one collapse. */
  lemma BlockAcross(p: Program, z: Collapsed, tails: set<BlockId>, members: seq<FuncId>, b: BlockId)
    requires z.Valid() && b < |p.blocks| <= |z.p.blocks| && KeptAt(p, z.p, tails, b) && z.jumps <= tails
      && members == z.members
    requires InRange(p, members) && forall i: nat {:trigger members[i]} :: i < |members| ==>
      z.p.functions[members[i]] == p.functions[members[i]]
    ensures KeptAt(p, z.q, tails, b)
    ensures b in z.jumps ==> z.q.blocks[b] == Jumping(p, b)
    ensures b !in z.jumps ==> z.q.blocks[b] == z.p.blocks[b]
    ensures b in z.jumps ==> CallsTo(p, members, b)
  {
    z.Unfold();
    assert RewrittenTo(z.p, z.members, z.jumps, b, z.q.blocks[b]);
    if b in z.jumps {
      assert CallsMember(z.p, z.members, b);
      assert z.p.blocks[b] == p.blocks[b];
      var i: nat :| i < |members| && members[i] == SiteAt(p, b).callee;
    }
  }

  /** The jumps of earlier cycles are left alone: a jump calls nobody. */
  lemma MadeStay(p: Program, z: Collapsed, tails: set<BlockId>, members: seq<FuncId>)
    requires z.Valid() && |p.blocks| <= |z.p.blocks| && InRange(p, members) && JumpsMade(p, z.p, tails, members)
    ensures JumpsMade(p, z.q, tails, members)
  {
    z.Unfold();
    forall b: BlockId | b < |p.blocks| && b in CycleJumps(p, tails, members, |members|)
      ensures z.q.blocks[b] == Jumping(p, b)
    {
      assert RewrittenTo(z.p, z.members, z.jumps, b, z.q.blocks[b]);
      assert z.p.blocks[b] == Jumping(p, b);
    }
  }

  lemma {:induction false} JumpsAreTails(p: Program, tails: set<BlockId>, members: seq<FuncId>, n: nat)
    requires n <= |members| && InRange(p, members)
    ensures CycleJumps(p, tails, members, n) <= tails
    decreases n
  {
    if n > 0 {
      JumpsAreTails(p, tails, members, n - 1);
      OwnJumpsAreTails(p, tails, members, members[n - 1]);
    }
  }

  lemma OwnJumpsAreTails(p: Program, tails: set<BlockId>, members: seq<FuncId>, f: FuncId)
    requires f < |p.functions|
    ensures JumpsOf(p, tails, members, f) <= tails
  {}

  /** The blocks that were there stay as they are, or have become the jumps they were to become. */
  lemma BlocksAcross(p: Program, z: Collapsed, tails: set<BlockId>)
    requires z.Valid() && Filling(p) && |p.blocks| <= |z.p.blocks| && InRange(p, z.members)
    requires CallersKept(p, z.p, z.members) && z.jumps == CycleJumps(z.p, tails, z.members, |z.members|)
    requires forall b: BlockId {:trigger KeptAt(p, z.p, tails, b)} :: b < |p.blocks| ==> KeptAt(p, z.p, tails, b)
    requires forall i: nat {:trigger z.members[i]} :: i < |z.members| ==>
      z.members[i] < |z.p.functions| && z.p.functions[z.members[i]] == p.functions[z.members[i]]
        && p.functions[z.members[i]].entry < |p.blocks|
    ensures forall b: BlockId {:trigger KeptAt(p, z.q, tails, b)} :: b < |p.blocks| ==> KeptAt(p, z.q, tails, b)
  {
    SameJumps(p, z.p, tails, z.members, |z.members|);
    JumpsAreTails(z.p, tails, z.members, |z.members|);
    forall b: BlockId | b < |p.blocks| ensures KeptAt(p, z.q, tails, b) {
      assert KeptAt(p, z.p, tails, b);
      BlockAcross(p, z, tails, z.members, b);
    }
  }

  /** One more cycle done. */
  lemma OneMoreDone(p: Program, z: Collapsed, tails: set<BlockId>, cycles: seq<seq<FuncId>>, k: nat)
    requires z.Valid() && Filling(p) && k < |cycles| && z.members == cycles[k] && Disjoint(cycles)
    requires forall i: nat {:trigger cycles[i]} :: i < |cycles| ==> InRange(p, cycles[i])
    requires Done(p, z.p, tails, cycles, k) && z.jumps == CycleJumps(z.p, tails, z.members, |z.members|)
    requires forall i: nat {:trigger z.members[i]} :: i < |z.members| ==>
      z.members[i] < |z.p.functions| && z.p.functions[z.members[i]] == p.functions[z.members[i]]
        && p.functions[z.members[i]].entry < |p.blocks|
    ensures Done(p, z.q, tails, cycles, k + 1)
  {
    assert CallersKept(p, z.p, cycles[k]);
    SameJumps(p, z.p, tails, z.members, |z.members|);
    JumpsAreTails(z.p, tails, z.members, |z.members|);
    BlocksAcross(p, z, tails);
    forall i: nat | i < k + 1 ensures JumpsMade(p, z.q, tails, cycles[i]) {
      if i < k { assert JumpsMade(p, z.p, tails, cycles[i]); MadeStay(p, z, tails, cycles[i]); } else {
        NewlyMade(p, z, tails);
      }
    }
    forall i: nat | k + 1 <= i < |cycles| ensures CallersKept(p, z.q, cycles[i]) {
      assert CallersKept(p, z.p, cycles[i]);
      CallersStay(p, z, tails, cycles[i]);
    }
  }

  lemma NewlyMade(p: Program, z: Collapsed, tails: set<BlockId>)
    requires z.Valid() && InRange(p, z.members) && |p.blocks| <= |z.p.blocks| && z.jumps <= tails
    requires z.jumps == CycleJumps(p, tails, z.members, |z.members|)
    requires forall i: nat {:trigger z.members[i]} :: i < |z.members| ==>
      z.p.functions[z.members[i]] == p.functions[z.members[i]]
    requires forall b: BlockId {:trigger KeptAt(p, z.p, tails, b)} :: b < |p.blocks| ==> KeptAt(p, z.p, tails, b)
    ensures JumpsMade(p, z.q, tails, z.members)
  {
    forall b: BlockId | b < |p.blocks| && b in z.jumps ensures z.q.blocks[b] == Jumping(p, b) {
      assert KeptAt(p, z.p, tails, b);
      BlockAcross(p, z, tails, z.members, b);
    }
  }

  lemma CallersStay(p: Program, z: Collapsed, tails: set<BlockId>, others: seq<FuncId>)
    requires z.Valid() && InRange(p, z.members) && |p.blocks| <= |z.p.blocks| && z.jumps <= tails
      && CallersKept(p, z.p, others)
    requires forall i: nat {:trigger z.members[i]} :: i < |z.members| ==>
      z.p.functions[z.members[i]] == p.functions[z.members[i]]
    requires forall b: BlockId {:trigger KeptAt(p, z.p, tails, b)} :: b < |p.blocks| ==> KeptAt(p, z.p, tails, b)
    requires forall f :: f in z.members ==> f !in others
    ensures CallersKept(p, z.q, others)
  {
    forall b: BlockId | b < |p.blocks| && CallsTo(p, others, b) ensures z.q.blocks[b] == p.blocks[b] {
      assert KeptAt(p, z.p, tails, b);
      BlockAcross(p, z, tails, z.members, b);
    }
  }

  ghost function FunctionEntries(p: Program): seq<BlockId> {
    seq(|p.functions|, f requires 0 <= f < |p.functions| => p.functions[f].entry)
  }

  /** At the start every qualifying cycle is pending. */
  lemma StartsReady(p: Program, tails: set<BlockId>, unused: ValueId, cycles: seq<seq<FuncId>>)
    requires Validated(p) && tails == TailBlocks(p) && ParamsBelow(p.functions, unused)
    requires forall i: nat {:trigger cycles[i]} :: i < |cycles| ==>
      Flow.Distinct(cycles[i]) && EligibleUpTo(p, tails, cycles[i], |cycles[i]|)
    ensures Between(p, p, KnownFrom(p, FunctionEntries(p)), tails, unused, cycles, 0)
  {
    var entries := FunctionEntries(p);
    forall i: nat | i < |entries| ensures Definitions.Safe(p, Definitions.Whole(p, entries[i])) {
      assert Definitions.Safe(p, Definitions.Whole(p, p.functions[i].entry));
    }
    SafeKnows(p, entries);
    forall i: nat | i < |cycles| ensures Pending(p, p, KnownFrom(p, entries), cycles[i]) {
      EligibleAreMembers(p, tails, cycles[i], |cycles[i]|);
      forall k: nat | k < |cycles[i]| ensures PendingAt(p, p, KnownFrom(p, entries), cycles[i][k]) {
        assert OwnEntry(p, cycles[i][k]);
        NothingKnown(p, entries, cycles[i][k]);
      }
    }
  }

  /** All of the cycles, and each of them, that qualify. */
  ghost predicate AllQualifying(p: Program, tails: set<BlockId>, edges: Edges, eligible: seq<seq<FuncId>>) {
    && (forall i: nat {:trigger eligible[i]} :: i < |eligible| ==>
      IsCycle(edges, eligible[i]) && EligibleUpTo(p, tails, eligible[i], |eligible[i]|))
    && Disjoint(eligible)
  }

  /** The function's cycle does not qualify. */
  ghost predicate Refused(p: Program, tails: set<BlockId>, edges: Edges, f: FuncId) {
    exists c: seq<FuncId> :: IsCycle(edges, c) && f in c && !EligibleUpTo(p, tails, c, |c|)
  }

  lemma EachJudged(p: Program, tails: set<BlockId>, edges: Edges, cycles: seq<seq<FuncId>>,
      eligible: seq<seq<FuncId>>, f: FuncId)
    requires Found(edges, cycles) && InSome(cycles, f)
    requires forall m: nat {:trigger cycles[m]} :: m < |cycles| && EligibleUpTo(p, tails, cycles[m], |cycles[m]|) ==>
      cycles[m] in eligible
    ensures InSome(eligible, f) || Refused(p, tails, edges, f)
  {
    var m: nat :| m < |cycles| && f in cycles[m];
    if EligibleUpTo(p, tails, cycles[m], |cycles[m]|) {
      var i: nat :| i < |eligible| && eligible[i] == cycles[m];
    } else {
      assert IsCycle(edges, cycles[m]);
    }
  }

  /** Collapse every cycle of mutual tail calls whose members can share a frame. Whatever a function
      of the program returned, it returns, and what it did not, it does not; and the tail calls
      within those cycles have become jumps. */
  method CollapseTailCallCycles(p: Program, unused: ValueId)
    returns (q: Program, dispatchers: seq<FuncId>, collapsed: seq<seq<FuncId>>, ghost edges: Edges)
    requires Validated(p) && ParamsBelow(p.functions, unused)
    ensures PureCalls.Equivalent(p, q) && SameWithin(p, q)
    ensures |dispatchers| == |collapsed| && |q.functions| == |p.functions| + |collapsed|
    ensures forall k {:trigger dispatchers[k]} :: 0 <= k < |dispatchers| ==> dispatchers[k] == |p.functions| + k
    ensures |edges| == |p.functions| && forall f: FuncId {:trigger TailEdgesOf(p, TailBlocks(p), f)} :: f < |edges| ==>
      edges[f] == TailEdgesOf(p, TailBlocks(p), f)
    ensures AllQualifying(p, TailBlocks(p), edges, collapsed)
    ensures forall f: FuncId, g: FuncId {:trigger Mutual(edges, f, g)} ::
      f < |edges| && g < |edges| && f != g && Mutual(edges, f, g) ==>
      InSome(collapsed, f) || Refused(p, TailBlocks(p), edges, f)
    ensures |p.blocks| <= |q.blocks| && forall i: nat {:trigger collapsed[i]} :: i < |collapsed| ==>
      InRange(p, collapsed[i]) && JumpsMade(p, q, TailBlocks(p), collapsed[i])
  {
    var tails;
    tails, collapsed, edges := Choose(p);
    var c := new Rewriter(p, unused);
    StartsReady(p, tails, unused, collapsed);
    ghost var known := KnownFrom(p, FunctionEntries(p));
    dispatchers := [];
    for k := 0 to |collapsed|
      invariant Between(p, c.Current(), known, tails, c.nextValue, collapsed, k)
        && Done(p, c.Current(), tails, collapsed, k)
      invariant |c.functions| == |p.functions| + k && |dispatchers| == k
      invariant forall i {:trigger dispatchers[i]} :: 0 <= i < k ==> dispatchers[i] == |p.functions| + i
    {
      var dispatch;
      dispatch, known := CollapseNext(c, p, known, tails, collapsed, k);
      dispatchers := dispatchers + [dispatch];
    }
    q := c.Current();
    EquivalentIsSame(p, q);
    assert forall i: nat {:trigger collapsed[i]} :: i < |collapsed| ==> JumpsMade(p, q, tails, collapsed[i]);
  }

  /** The cycles to collapse: every one that qualifies. */
  method Choose(p: Program) returns (tails: set<BlockId>, collapsed: seq<seq<FuncId>>, ghost edges: Edges)
    requires Validated(p)
    ensures tails == TailBlocks(p) && AllQualifying(p, tails, edges, collapsed)
    ensures |edges| == |p.functions| && forall f: FuncId {:trigger TailEdgesOf(p, TailBlocks(p), f)} :: f < |edges| ==>
      edges[f] == TailEdgesOf(p, TailBlocks(p), f)
    ensures forall f: FuncId, g: FuncId {:trigger Mutual(edges, f, g)} ::
      f < |edges| && g < |edges| && f != g && Mutual(edges, f, g) ==>
      InSome(collapsed, f) || Refused(p, tails, edges, f)
    ensures forall i: nat {:trigger collapsed[i]} :: i < |collapsed| ==> InRange(p, collapsed[i])
  {
    tails := TailCallBlocks(p);
    var found := TailEdges(p, tails);
    edges := found;
    var cycles := Cycles(found);
    collapsed := Qualifying(p, tails, found, cycles);
    forall f: FuncId, g: FuncId | f < |edges| && g < |edges| && f != g && Mutual(edges, f, g)
      ensures InSome(collapsed, f) || Refused(p, tails, edges, f)
    {
      EachJudged(p, tails, edges, cycles, collapsed, f);
    }
    forall i: nat | i < |collapsed| ensures InRange(p, collapsed[i]) {
      EligibleAreMembers(p, tails, collapsed[i], |collapsed[i]|);
      assert forall k: nat {:trigger collapsed[i][k]} :: k < |collapsed[i]| ==> OwnEntry(p, collapsed[i][k]);
    }
  }

  method Qualifying(p: Program, tails: set<BlockId>, edges: Edges, cycles: seq<seq<FuncId>>)
    returns (eligible: seq<seq<FuncId>>)
    requires Found(edges, cycles)
    ensures AllQualifying(p, tails, edges, eligible)
    ensures forall m: nat {:trigger cycles[m]} :: m < |cycles| && EligibleUpTo(p, tails, cycles[m], |cycles[m]|) ==>
      cycles[m] in eligible
  {
    eligible := [];
    for n := 0 to |cycles|
      invariant AllQualifying(p, tails, edges, eligible) && Drawn(cycles, n, eligible)
        && KeepsEligible(p, tails, cycles, n, eligible)
    {
      var yes := IsEligible(p, tails, cycles[n]);
      if yes {
        AddQualifying(p, tails, edges, cycles, n, eligible);
        eligible := eligible + [cycles[n]];
      }
    }
  }

  /** Each of `chosen` is one of the first `n` cycles. */
  ghost predicate Drawn(cycles: seq<seq<FuncId>>, n: nat, chosen: seq<seq<FuncId>>)
    requires n <= |cycles|
  {
    forall i: nat {:trigger chosen[i]} :: i < |chosen| ==> chosen[i] in cycles[..n]
  }

  ghost predicate KeepsEligible(p: Program, tails: set<BlockId>, cycles: seq<seq<FuncId>>, n: nat,
      chosen: seq<seq<FuncId>>)
    requires n <= |cycles|
  {
    forall m: nat {:trigger cycles[m]} :: m < n && EligibleUpTo(p, tails, cycles[m], |cycles[m]|) ==>
      cycles[m] in chosen
  }

  lemma AddQualifying(p: Program, tails: set<BlockId>, edges: Edges, cycles: seq<seq<FuncId>>, n: nat,
      chosen: seq<seq<FuncId>>)
    requires Found(edges, cycles) && n < |cycles| && EligibleUpTo(p, tails, cycles[n], |cycles[n]|)
    requires AllQualifying(p, tails, edges, chosen) && Drawn(cycles, n, chosen)
      && KeepsEligible(p, tails, cycles, n, chosen)
    ensures var more := chosen + [cycles[n]];
      AllQualifying(p, tails, edges, more) && Drawn(cycles, n + 1, more) && KeepsEligible(p, tails, cycles, n + 1, more)
  {
    DrawnApart(edges, cycles, n, chosen);
    DrawnMore(cycles, n, chosen);
    KeepsMore(p, tails, cycles, n, chosen);
    assert IsCycle(edges, cycles[n]);
  }

  lemma DrawnMore(cycles: seq<seq<FuncId>>, n: nat, chosen: seq<seq<FuncId>>)
    requires n < |cycles| && Drawn(cycles, n, chosen)
    ensures Drawn(cycles, n + 1, chosen + [cycles[n]])
  {
    assert cycles[..n + 1] == cycles[..n] + [cycles[n]];
  }

  lemma KeepsMore(p: Program, tails: set<BlockId>, cycles: seq<seq<FuncId>>, n: nat, chosen: seq<seq<FuncId>>)
    requires n < |cycles| && KeepsEligible(p, tails, cycles, n, chosen)
    ensures KeepsEligible(p, tails, cycles, n + 1, chosen + [cycles[n]])
  {
    var more := chosen + [cycles[n]];
    assert more[|chosen|] == cycles[n];
    forall m: nat {:trigger cycles[m]} | m < n + 1 && EligibleUpTo(p, tails, cycles[m], |cycles[m]|)
      ensures cycles[m] in more
    {
      assert m < n ==> cycles[m] in chosen;
    }
  }

  lemma DrawnApart(edges: Edges, cycles: seq<seq<FuncId>>, n: nat, chosen: seq<seq<FuncId>>)
    requires Found(edges, cycles) && n < |cycles| && Drawn(cycles, n, chosen) && Disjoint(chosen)
    ensures Disjoint(chosen + [cycles[n]])
  {
    forall i: nat, f | i < |chosen| && f in chosen[i] ensures f !in cycles[n] {
      var m: nat :| m < n && cycles[m] == chosen[i];
      assert f in cycles[m];
    }
  }
}
