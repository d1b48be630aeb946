/** Checks that no block reads a value some path into it leaves undefined. The analysis is a
    greatest fixpoint over the reachable blocks, so a value defined only inside a cycle is not
    mistaken for undefined. */
module Definitions {
  import opened Cfg
  import opened Flow

  // ---------------------------------------------------------------- what a block defines

  function InstrResult(i: Instr): set<ValueId> {
    match i
    case Let(result, _) => {result}
    case Eval(result, _) => {result}
    case _ => {}
  }

  /** Results of the first `n` instructions. */
  function Results(instrs: seq<Instr>, n: nat): set<ValueId>
    requires n <= |instrs|
  {
    if n == 0 then {} else Results(instrs, n - 1) + InstrResult(instrs[n - 1])
  }

  function Params(params: seq<ValueId>): set<ValueId> { set v | v in params }

  /** A block's parameters, which the edge into it fills in, and its instruction results. */
  function DefinitionsIn(p: Program, b: BlockId): set<ValueId> {
    if b < |p.blocks| then Params(p.blocks[b].params) + Results(p.blocks[b].instrs, |p.blocks[b].instrs|) else {}
  }

  function Whole(p: Program, entry: BlockId): Graph { View(p, entry, {}) }

  /** What a run has defined when it arrives at its last block. */
  ghost function DefinedBefore(p: Program, run: seq<BlockId>): set<ValueId>
    requires run != []
  {
    if |run| == 1 then {} else DefinedThrough(p, run[..|run| - 1])
  }

  ghost function DefinedThrough(p: Program, run: seq<BlockId>): set<ValueId> {
    if run == [] then {} else DefinedThrough(p, run[..|run| - 1]) + DefinitionsIn(p, run[|run| - 1])
  }

  ghost predicate RunTo(g: Graph, run: seq<BlockId>, b: BlockId) {
    g.IsRun(run) && run[|run| - 1] == b
  }

  /** Some run comes into `b` along an edge. */
  ghost predicate Entered(g: Graph, b: BlockId) {
    exists run :: RunTo(g, run, b) && |run| > 1
  }

  /** Every run that comes into `b` along an edge has defined `v`. */
  ghost predicate AlwaysDefined(p: Program, g: Graph, b: BlockId, v: ValueId) {
    forall run :: RunTo(g, run, b) && |run| > 1 ==> v in DefinedBefore(p, run)
  }

  ghost predicate AlwaysDefinedAfter(p: Program, g: Graph, b: BlockId, v: ValueId) {
    forall run :: RunTo(g, run, b) ==> v in DefinedThrough(p, run)
  }

  // ---------------------------------------------------------------- the reachable blocks

  /** Breadth-first: `blocks[..done]` have had all their edges followed. */
  ghost predicate Discovered(g: Graph, blocks: seq<BlockId>, done: nat) {
    && blocks != [] && blocks[0] == g.entry && Distinct(blocks) && done <= |blocks|
    && (forall b :: b in blocks ==> g.Exists(b) && g.Reachable(b))
    && (forall i {:trigger Followed(g, blocks, i)} :: 0 <= i < done ==> Followed(g, blocks, i))
  }

  ghost predicate Followed(g: Graph, blocks: seq<BlockId>, i: nat)
    requires i < |blocks|
  {
    forall s :: g.Edge(blocks[i], s) ==> s in blocks
  }

  method ReachableBlocks(g: Graph) returns (blocks: seq<BlockId>)
    requires g.Exists(g.entry)
    ensures Discovered(g, blocks, |blocks|)
  {
    blocks := [g.entry];
    var seen := {g.entry};
    assert g.IsRun([g.entry]);
    var index := 0;
    while index < |blocks|
      invariant Discovered(g, blocks, index) && seen == (set b | b in blocks)
      decreases |g.successors| - |blocks|, |blocks| - index
    {
      ghost var before := blocks;
      blocks, seen := Discover(g, blocks, seen, index);
      DistinctBelow(blocks, |g.successors|);
      forall i | 0 <= i < index + 1 ensures Followed(g, blocks, i) {
        if i < index { assert Followed(g, before, i); }
      }
      index := index + 1;
    }
  }

  method Discover(g: Graph, before: seq<BlockId>, seenBefore: set<BlockId>, index: nat)
    returns (blocks: seq<BlockId>, seen: set<BlockId>)
    requires index < |before| && Discovered(g, before, index) && seenBefore == (set b | b in before)
    ensures before <= blocks && seen == (set b | b in blocks)
    ensures Discovered(g, blocks, 0) && Followed(g, blocks, index)
  {
    blocks, seen := before, seenBefore;
    var successors := g.Successors(before[index]);
    for q := 0 to |successors|
      invariant before <= blocks && seen == (set b | b in blocks) && Discovered(g, blocks, 0)
      invariant forall k :: 0 <= k < q && g.Exists(successors[k]) ==> successors[k] in blocks
    {
      var s := successors[q];
      if g.Exists(s) && s !in seen {
        StepReachable(g, before[index], s);
        blocks := blocks + [s];
        seen := seen + {s};
      }
    }
  }

  lemma StepReachable(g: Graph, b: BlockId, s: BlockId)
    requires g.Reachable(b) && g.Edge(b, s)
    ensures g.Reachable(s)
  {
    var run :| g.IsRun(run) && run[|run| - 1] == b;
    g.ExtendRun(run, s);
    assert (run + [s])[|run + [s]| - 1] == s;
  }

  /** Nothing reachable is missed. */
  lemma {:induction false} AllDiscovered(g: Graph, blocks: seq<BlockId>, run: seq<BlockId>)
    requires Discovered(g, blocks, |blocks|) && g.IsRun(run)
    ensures run[|run| - 1] in blocks
  {
    if |run| > 1 {
      g.ShortenRun(run);
      var b := run[|run| - 2];
      AllDiscovered(g, blocks, run[..|run| - 1]);
      var i :| 0 <= i < |blocks| && blocks[i] == b;
      assert Followed(g, blocks, i);
    }
  }

  // ---------------------------------------------------------------- the fixpoint

  /** The edges between discovered blocks, listed at their targets. */
  ghost predicate Incoming(g: Graph, blocks: seq<BlockId>, preds: map<BlockId, seq<BlockId>>) {
    && preds.Keys == (set b | b in blocks)
    && forall b, q :: b in blocks ==> (q in preds[b] <==> q in blocks && g.Edge(q, b))
  }

  method CollectIncoming(g: Graph, blocks: seq<BlockId>) returns (preds: map<BlockId, seq<BlockId>>)
    requires Discovered(g, blocks, |blocks|)
    ensures Incoming(g, blocks, preds)
  {
    preds := map b | b in blocks :: [];
    for index := 0 to |blocks|
      invariant preds.Keys == (set b | b in blocks)
      invariant forall b, q :: b in blocks ==> (q in preds[b] <==> q in blocks[..index] && g.Edge(q, b))
    {
      assert blocks[..index + 1] == blocks[..index] + [blocks[index]];
      preds := AddOutgoing(g, blocks[index], preds);
    }
    assert blocks[..|blocks|] == blocks;
  }

  method AddOutgoing(g: Graph, block: BlockId, before: map<BlockId, seq<BlockId>>)
    returns (preds: map<BlockId, seq<BlockId>>)
    requires forall b :: b in before ==> g.Exists(b)
    ensures preds.Keys == before.Keys
    ensures forall b, q :: b in before ==> (q in preds[b] <==> q in before[b] || (q == block && g.Edge(block, b)))
  {
    var successors := g.Successors(block);
    preds := before;
    for k := 0 to |successors|
      invariant preds.Keys == before.Keys
      invariant forall b, q :: b in before ==>
        (q in preds[b] <==> q in before[b] || (q == block && b in successors[..k]))
    {
      assert successors[..k + 1] == successors[..k] + [successors[k]];
      if successors[k] in preds {
        preds := preds[successors[k] := preds[successors[k]] + [block]];
      }
    }
    assert successors[..|successors|] == successors;
  }

  type Facts = map<BlockId, set<ValueId>>

  /** What reaches a block from all of `preds`, `None` when nothing does. */
  method Meet(onExit: Facts, preds: seq<BlockId>) returns (incoming: Option<set<ValueId>>)
    requires forall q :: q in preds ==> q in onExit
    ensures incoming.None? <==> preds == []
    ensures incoming.Some? ==> forall v :: v in incoming.value <==> forall q :: q in preds ==> v in onExit[q]
  {
    incoming := None;
    for i := 0 to |preds|
      invariant incoming.None? <==> i == 0
      invariant incoming.Some? ==> forall v :: v in incoming.value <==> forall q :: q in preds[..i] ==> v in onExit[q]
    {
      assert preds[..i + 1] == preds[..i] + [preds[i]];
      match incoming
      case None => incoming := Some(onExit[preds[i]]);
      case Some(current) => incoming := Some(current * onExit[preds[i]]);
    }
    assert preds[..|preds|] == preds;
  }

  /** The transfer function: what leaves a block when `preds` feed it. */
  ghost predicate Transfers(p: Program, onExit: Facts, preds: seq<BlockId>, b: BlockId, v: ValueId)
    requires forall q :: q in preds ==> q in onExit
  {
    v in DefinitionsIn(p, b) || (preds != [] && forall q :: q in preds ==> v in onExit[q])
  }

  ghost predicate Analysis(p: Program, g: Graph, blocks: seq<BlockId>, preds: map<BlockId, seq<BlockId>>,
      onExit: Facts) {
    && Discovered(g, blocks, |blocks|) && Incoming(g, blocks, preds)
    && onExit.Keys == (set b | b in blocks)
    && onExit[g.entry] == DefinitionsIn(p, g.entry)
    && (forall b, v :: b in blocks && b != g.entry && Transfers(p, onExit, preds[b], b, v) ==> v in onExit[b])
    && (forall b, v {:trigger AlwaysDefinedAfter(p, g, b, v)} :: b in blocks && AlwaysDefinedAfter(p, g, b, v) ==>
      v in onExit[b])
  }

  ghost predicate Settled(p: Program, g: Graph, blocks: seq<BlockId>, preds: map<BlockId, seq<BlockId>>,
      onExit: Facts, upTo: nat)
    requires Analysis(p, g, blocks, preds, onExit) && upTo <= |blocks|
  {
    forall i, v :: 0 <= i < upTo && blocks[i] != g.entry && v in onExit[blocks[i]] ==>
      Transfers(p, onExit, preds[blocks[i]], blocks[i], v)
  }

  /** A value every run has defined on leaving `b` is defined in `b` or on leaving whatever came before. */
  lemma AlwaysFromPredecessor(p: Program, g: Graph, b: BlockId, q: BlockId, v: ValueId)
    requires AlwaysDefinedAfter(p, g, b, v) && v !in DefinitionsIn(p, b) && g.Edge(q, b)
    ensures AlwaysDefinedAfter(p, g, q, v)
  {
    forall run | RunTo(g, run, q) ensures v in DefinedThrough(p, run) {
      g.ExtendRun(run, b);
      var longer := run + [b];
      assert RunTo(g, longer, b);
      assert longer[..|longer| - 1] == run;
    }
  }

  lemma HasPredecessor(g: Graph, blocks: seq<BlockId>, preds: map<BlockId, seq<BlockId>>, b: BlockId)
    requires Discovered(g, blocks, |blocks|) && Incoming(g, blocks, preds) && b in blocks && b != g.entry
    ensures preds[b] != []
  {
    var run :| g.IsRun(run) && run[|run| - 1] == b;
    g.ShortenRun(run);
    AllDiscovered(g, blocks, run[..|run| - 1]);
    assert run[|run| - 2] in preds[b];
  }

  lemma StepKeepsAnalysis(p: Program, g: Graph, blocks: seq<BlockId>, preds: map<BlockId, seq<BlockId>>,
      onExit: Facts, b: BlockId, next: set<ValueId>)
    requires Analysis(p, g, blocks, preds, onExit) && b in blocks && b != g.entry
    requires forall v :: v in next <==> Transfers(p, onExit, preds[b], b, v)
    ensures next <= onExit[b] && Analysis(p, g, blocks, preds, onExit[b := next])
  {
    var after := onExit[b := next];
    assert g.entry == blocks[0];
    forall c, v | c in blocks && c != g.entry && Transfers(p, after, preds[c], c, v) ensures v in after[c] {
      assert Transfers(p, onExit, preds[c], c, v);
    }
    forall c, v | c in blocks && AlwaysDefinedAfter(p, g, c, v) ensures v in after[c] {
      if c == b && v !in DefinitionsIn(p, b) {
        HasPredecessor(g, blocks, preds, b);
        forall q | q in preds[b] ensures v in onExit[q] { AlwaysFromPredecessor(p, g, b, q, v); }
      }
    }
  }

  ghost function Mass(blocks: seq<BlockId>, onExit: Facts, n: nat): nat
    requires n <= |blocks| && forall b :: b in blocks ==> b in onExit
  {
    if n == 0 then 0 else Mass(blocks, onExit, n - 1) + |onExit[blocks[n - 1]]|
  }

  lemma {:induction false} MassDrops(blocks: seq<BlockId>, onExit: Facts, b: BlockId, next: set<ValueId>, n: nat)
    requires Distinct(blocks) && n <= |blocks| && (forall c :: c in blocks ==> c in onExit)
    requires b in blocks && next < onExit[b]
    ensures Mass(blocks, onExit[b := next], n) <= Mass(blocks, onExit, n)
    ensures b in blocks[..n] ==> Mass(blocks, onExit[b := next], n) < Mass(blocks, onExit, n)
  {
    if n > 0 {
      MassDrops(blocks, onExit, b, next, n - 1);
      assert blocks[..n] == blocks[..n - 1] + [blocks[n - 1]];
      if blocks[n - 1] == b { SmallerSet(next, onExit[b]); }
    }
  }

  lemma SmallerSet(small: set<ValueId>, large: set<ValueId>)
    requires small < large
    ensures |small| < |large|
  {
    var rest := large - small;
    assert large == small + rest;
    assert rest != {};
  }

  /** One pass over the blocks in discovery order. */
  method Pass(p: Program, g: Graph, blocks: seq<BlockId>, preds: map<BlockId, seq<BlockId>>, before: Facts)
    returns (onExit: Facts, changed: bool)
    requires Analysis(p, g, blocks, preds, before)
    ensures Analysis(p, g, blocks, preds, onExit)
    ensures if changed then Mass(blocks, onExit, |blocks|) < Mass(blocks, before, |blocks|)
            else onExit == before && Settled(p, g, blocks, preds, onExit, |blocks|)
  {
    onExit, changed := before, false;
    for i := 0 to |blocks|
      invariant Analysis(p, g, blocks, preds, onExit)
      invariant if changed then Mass(blocks, onExit, |blocks|) < Mass(blocks, before, |blocks|)
                else onExit == before && Settled(p, g, blocks, preds, onExit, i)
    {
      if blocks[i] != g.entry {
        var moved;
        onExit, moved := Step(p, g, blocks, preds, onExit, blocks[i]);
        changed := changed || moved;
      }
    }
  }

  /** One block's facts brought in line with its predecessors'. */
  method Step(p: Program, g: Graph, blocks: seq<BlockId>, preds: map<BlockId, seq<BlockId>>, before: Facts, b: BlockId)
    returns (onExit: Facts, changed: bool)
    requires Analysis(p, g, blocks, preds, before) && b in blocks && b != g.entry
    ensures Analysis(p, g, blocks, preds, onExit)
    ensures if changed then Mass(blocks, onExit, |blocks|) < Mass(blocks, before, |blocks|)
            else onExit == before && forall v :: v in onExit[b] ==> Transfers(p, onExit, preds[b], b, v)
  {
    onExit, changed := before, false;
    var incoming := Meet(before, preds[b]);
    var next := (if incoming.Some? then incoming.value else {}) + DefinitionsIn(p, b);
    StepKeepsAnalysis(p, g, blocks, preds, before, b, next);
    if next != before[b] {
      assert blocks[..|blocks|] == blocks;
      MassDrops(blocks, before, b, next, |blocks|);
      onExit := before[b := next];
      changed := true;
    }
  }

  // ---------------------------------------------------------------- exactness

  lemma {:induction false} SettledMeansDefined(p: Program, g: Graph, blocks: seq<BlockId>, preds: map<BlockId,
      seq<BlockId>>, onExit: Facts, run: seq<BlockId>, v: ValueId)
    requires Analysis(p, g, blocks, preds, onExit) && Settled(p, g, blocks, preds, onExit, |blocks|)
    requires g.IsRun(run) && run[|run| - 1] in blocks && v in onExit[run[|run| - 1]]
    ensures v in DefinedThrough(p, run)
  {
    var b := run[|run| - 1];
    if b != g.entry {
      assert |run| > 1;
      g.ShortenRun(run);
      AllDiscovered(g, blocks, run[..|run| - 1]);
      var i :| 0 <= i < |blocks| && blocks[i] == b;
      assert Transfers(p, onExit, preds[b], b, v);
      if v !in DefinitionsIn(p, b) {
        assert run[|run| - 2] in preds[b];
        SettledMeansDefined(p, g, blocks, preds, onExit, run[..|run| - 1], v);
      }
    } else {
      assert v in DefinitionsIn(p, b);
    }
  }

  /** At the fixpoint the analysis knows exactly what is defined on leaving a block. */
  lemma ExitIsExact(p: Program, g: Graph, blocks: seq<BlockId>, preds: map<BlockId, seq<BlockId>>, onExit: Facts,
      b: BlockId, v: ValueId)
    requires Analysis(p, g, blocks, preds, onExit) && Settled(p, g, blocks, preds, onExit, |blocks|) && b in blocks
    ensures v in onExit[b] <==> AlwaysDefinedAfter(p, g, b, v)
  {
    if v in onExit[b] {
      forall run | RunTo(g, run, b) ensures v in DefinedThrough(p, run) {
        SettledMeansDefined(p, g, blocks, preds, onExit, run, v);
      }
    }
  }

  /** `v` leaves every predecessor of `b`, and there is one. */
  ghost predicate Arrives(preds: map<BlockId, seq<BlockId>>, onExit: Facts, b: BlockId, v: ValueId)
    requires b in preds && forall q :: q in preds[b] ==> q in onExit
  {
    preds[b] != [] && forall q :: q in preds[b] ==> v in onExit[q]
  }

  lemma ArrivesMeansDefined(p: Program, g: Graph, blocks: seq<BlockId>, preds: map<BlockId, seq<BlockId>>,
      onExit: Facts, b: BlockId, v: ValueId)
    requires Analysis(p, g, blocks, preds, onExit) && Settled(p, g, blocks, preds, onExit, |blocks|) && b in blocks
    requires Arrives(preds, onExit, b, v)
    ensures Entered(g, b) && AlwaysDefined(p, g, b, v)
  {
    EnteredFrom(g, blocks, preds, b);
    forall run | RunTo(g, run, b) && |run| > 1 ensures v in DefinedBefore(p, run) {
      g.ShortenRun(run);
      AllDiscovered(g, blocks, run[..|run| - 1]);
      assert run[|run| - 2] in preds[b];
      SettledMeansDefined(p, g, blocks, preds, onExit, run[..|run| - 1], v);
    }
  }

  /** What is defined on every way into a block is defined on every way through one that leads to it. */
  lemma ThroughEdge(p: Program, g: Graph, q: BlockId, b: BlockId, v: ValueId)
    requires g.Edge(q, b) && AlwaysDefined(p, g, b, v)
    ensures AlwaysDefinedAfter(p, g, q, v)
  {
    forall run | RunTo(g, run, q) ensures v in DefinedThrough(p, run) {
      g.ExtendRun(run, b);
      var longer := run + [b];
      assert RunTo(g, longer, b) && longer[..|longer| - 1] == run;
      assert v in DefinedBefore(p, longer);
    }
  }

  lemma EnteredHasSource(g: Graph, blocks: seq<BlockId>, preds: map<BlockId, seq<BlockId>>, b: BlockId)
    requires Discovered(g, blocks, |blocks|) && Incoming(g, blocks, preds) && b in blocks && Entered(g, b)
    ensures preds[b] != []
  {
    var some :| RunTo(g, some, b) && |some| > 1;
    g.ShortenRun(some);
    AllDiscovered(g, blocks, some[..|some| - 1]);
    assert some[|some| - 2] in preds[b];
  }

  lemma DefinedArrives(p: Program, g: Graph, blocks: seq<BlockId>, preds: map<BlockId, seq<BlockId>>, onExit: Facts,
      b: BlockId, v: ValueId)
    requires Analysis(p, g, blocks, preds, onExit) && Settled(p, g, blocks, preds, onExit, |blocks|) && b in blocks
    requires Entered(g, b) && AlwaysDefined(p, g, b, v)
    ensures Arrives(preds, onExit, b, v)
  {
    EnteredHasSource(g, blocks, preds, b);
    forall q | q in preds[b] ensures v in onExit[q] {
      ThroughEdge(p, g, q, b, v);
      ExitIsExact(p, g, blocks, preds, onExit, q, v);
    }
  }

  lemma EnteredFrom(g: Graph, blocks: seq<BlockId>, preds: map<BlockId, seq<BlockId>>, b: BlockId)
    requires Discovered(g, blocks, |blocks|) && Incoming(g, blocks, preds) && b in blocks && preds[b] != []
    ensures Entered(g, b)
  {
    var q := preds[b][0];
    assert q in preds[b] && q in blocks && g.Reachable(q);
    var run :| g.IsRun(run) && run[|run| - 1] == q;
    g.ExtendRun(run, b);
    assert RunTo(g, run + [b], b);
  }

  type OnEntry = seq<(BlockId, set<ValueId>)>

  /** The reachable blocks, each once, with exactly the values defined on every way in. */
  ghost predicate ExactOnEntry(p: Program, g: Graph, result: OnEntry) {
    && (forall i, k :: 0 <= i < k < |result| ==> result[i].0 != result[k].0)
    && (forall b :: g.Reachable(b) <==> Listed(result, b))
    && (forall i {:trigger result[i]} :: 0 <= i < |result| ==> ExactSet(p, g, result[i].0, result[i].1))
  }

  method DefinitionsOnEntry(p: Program, entry: BlockId) returns (result: OnEntry)
    requires entry < |p.blocks|
    ensures ExactOnEntry(p, Whole(p, entry), result)
  {
    var g := Whole(p, entry);
    var blocks := ReachableBlocks(g);
    var preds := CollectIncoming(g, blocks);
    var universe := Universe(p, blocks, |blocks|);
    var onExit: Facts := map b | b in blocks :: if b == entry then DefinitionsIn(p, b) else universe;
    StartsAnalysis(p, g, blocks, preds, onExit, universe);
    onExit := Fixpoint(p, g, blocks, preds, onExit);
    result := ReadEntries(p, g, blocks, preds, onExit);
    ListsReachable(g, blocks, result);
  }

  method Fixpoint(p: Program, g: Graph, blocks: seq<BlockId>, preds: map<BlockId, seq<BlockId>>, start: Facts)
    returns (onExit: Facts)
    requires Analysis(p, g, blocks, preds, start)
    ensures Analysis(p, g, blocks, preds, onExit) && Settled(p, g, blocks, preds, onExit, |blocks|)
  {
    onExit := start;
    var changed := true;
    while changed
      invariant Analysis(p, g, blocks, preds, onExit)
      invariant !changed ==> Settled(p, g, blocks, preds, onExit, |blocks|)
      decreases Mass(blocks, onExit, |blocks|), changed
    {
      onExit, changed := Pass(p, g, blocks, preds, onExit);
    }
  }

  method ReadEntries(p: Program, g: Graph, blocks: seq<BlockId>, preds: map<BlockId, seq<BlockId>>, onExit: Facts)
    returns (result: OnEntry)
    requires Analysis(p, g, blocks, preds, onExit) && Settled(p, g, blocks, preds, onExit, |blocks|)
    ensures |result| == |blocks| && forall k :: 0 <= k < |result| ==> result[k].0 == blocks[k]
    ensures forall k {:trigger result[k]} :: 0 <= k < |result| ==> ExactSet(p, g, blocks[k], result[k].1)
  {
    result := [];
    for i := 0 to |blocks|
      invariant |result| == i && forall k :: 0 <= k < i ==> result[k].0 == blocks[k]
      invariant forall k {:trigger result[k]} :: 0 <= k < i ==> ExactSet(p, g, blocks[k], result[k].1)
    {
      var incoming := Meet(onExit, preds[blocks[i]]);
      var known := if incoming.Some? then incoming.value else {};
      assert forall v :: v in known <==> Arrives(preds, onExit, blocks[i], v);
      KnownIsExact(p, g, blocks, preds, onExit, blocks[i], known);
      result := result + [(blocks[i], known)];
    }
  }

  ghost predicate ExactSet(p: Program, g: Graph, b: BlockId, known: set<ValueId>) {
    forall v :: v in known <==> Entered(g, b) && AlwaysDefined(p, g, b, v)
  }

  lemma KnownIsExact(p: Program, g: Graph, blocks: seq<BlockId>, preds: map<BlockId, seq<BlockId>>, onExit: Facts,
      b: BlockId, known: set<ValueId>)
    requires Analysis(p, g, blocks, preds, onExit) && Settled(p, g, blocks, preds, onExit, |blocks|) && b in blocks
    requires forall v :: v in known <==> Arrives(preds, onExit, b, v)
    ensures ExactSet(p, g, b, known)
  {
    forall v ensures v in known <==> Entered(g, b) && AlwaysDefined(p, g, b, v) {
      if Arrives(preds, onExit, b, v) { ArrivesMeansDefined(p, g, blocks, preds, onExit, b, v); }
      if Entered(g, b) && AlwaysDefined(p, g, b, v) { DefinedArrives(p, g, blocks, preds, onExit, b, v); }
    }
  }

  lemma ListsReachable(g: Graph, blocks: seq<BlockId>, result: OnEntry)
    requires Discovered(g, blocks, |blocks|) && |result| == |blocks|
    requires forall k :: 0 <= k < |result| ==> result[k].0 == blocks[k]
    ensures forall b :: g.Reachable(b) <==> Listed(result, b)
  {
    forall b ensures g.Reachable(b) <==> Listed(result, b) {
      if g.Reachable(b) {
        var run :| g.IsRun(run) && run[|run| - 1] == b;
        AllDiscovered(g, blocks, run);
        var i :| 0 <= i < |blocks| && blocks[i] == b;
        assert result[i].0 == b;
      }
      if Listed(result, b) {
        var i :| 0 <= i < |result| && result[i].0 == b;
        assert blocks[i] in blocks;
      }
    }
  }

  ghost predicate Listed(result: OnEntry, b: BlockId) {
    exists i :: 0 <= i < |result| && result[i].0 == b
  }

  /** Every value the first `n` blocks define. */
  function Universe(p: Program, blocks: seq<BlockId>, n: nat): set<ValueId>
    requires n <= |blocks|
  {
    if n == 0 then {} else Universe(p, blocks, n - 1) + DefinitionsIn(p, blocks[n - 1])
  }

  lemma {:induction false} UniverseHolds(p: Program, blocks: seq<BlockId>, n: nat)
    requires n <= |blocks|
    ensures forall k :: 0 <= k < n ==> DefinitionsIn(p, blocks[k]) <= Universe(p, blocks, n)
  {
    if n > 0 { UniverseHolds(p, blocks, n - 1); }
  }

  lemma {:induction false} RunWithinUniverse(p: Program, g: Graph, blocks: seq<BlockId>, run: seq<BlockId>)
    requires Discovered(g, blocks, |blocks|) && g.IsRun(run)
    ensures DefinedThrough(p, run) <= Universe(p, blocks, |blocks|)
  {
    UniverseHolds(p, blocks, |blocks|);
    AllDiscovered(g, blocks, run);
    var i :| 0 <= i < |blocks| && blocks[i] == run[|run| - 1];
    if |run| > 1 {
      g.ShortenRun(run);
      RunWithinUniverse(p, g, blocks, run[..|run| - 1]);
    } else {
      assert run[..|run| - 1] == [];
    }
  }

  lemma StartsAnalysis(p: Program, g: Graph, blocks: seq<BlockId>, preds: map<BlockId, seq<BlockId>>, onExit: Facts,
      universe: set<ValueId>)
    requires Discovered(g, blocks, |blocks|) && Incoming(g, blocks, preds)
    requires universe == Universe(p, blocks, |blocks|)
    requires onExit == map b | b in blocks :: if b == g.entry then DefinitionsIn(p, b) else universe
    ensures Analysis(p, g, blocks, preds, onExit)
  {
    UniverseHolds(p, blocks, |blocks|);
    assert blocks[0] in blocks;
    forall b | b in blocks ensures DefinitionsIn(p, b) <= universe {
      var i :| 0 <= i < |blocks| && blocks[i] == b;
    }
    forall b, v | b in blocks && b != g.entry && Transfers(p, onExit, preds[b], b, v) ensures v in onExit[b] {
      if v !in DefinitionsIn(p, b) { assert preds[b][0] in preds[b]; }
    }
    forall b, v | b in blocks && AlwaysDefinedAfter(p, g, b, v) ensures v in onExit[b] {
      if b == g.entry {
        assert RunTo(g, [b], b);
        assert [b][..0] == [];
        assert DefinedThrough(p, [b]) == DefinitionsIn(p, b);
      } else {
        var run :| g.IsRun(run) && run[|run| - 1] == b;
        assert RunTo(g, run, b);
        RunWithinUniverse(p, g, blocks, run);
      }
    }
  }

  // ---------------------------------------------------------------- the check

  function Reads(e: Expr): set<ValueId>
    decreases e
  {
    match e
    case Value(v) => {v}
    case Literal(_) => {}
    case Unary(_, operand) => Reads(operand)
    case Binary(_, lhs, rhs) => Reads(lhs) + Reads(rhs)
    case Prim(_, args) => ReadsOfAll(args)
    case PureCall(_, args) => ReadsOfAll(args)
  }

  function ReadsOfAll(es: seq<Expr>): set<ValueId>
    decreases es
  {
    if es == [] then {} else ReadsOfAll(es[..|es| - 1]) + Reads(es[|es| - 1])
  }

  datatype ReadError = ReadError(block: BlockId, value: ValueId)

  /** One error for each read of a value outside `defined`. */
  function UndefinedReads(e: Expr, defined: set<ValueId>, block: BlockId): (errors: seq<ReadError>)
    ensures forall x :: x in errors <==> x.block == block && x.value in Reads(e) - defined
    decreases e
  {
    match e
    case Value(v) => if v in defined then [] else [ReadError(block, v)]
    case Literal(_) => []
    case Unary(_, operand) => UndefinedReads(operand, defined, block)
    case Binary(_, lhs, rhs) => UndefinedReads(lhs, defined, block) + UndefinedReads(rhs, defined, block)
    case Prim(_, args) => UndefinedReadsOfAll(args, defined, block)
    case PureCall(_, args) => UndefinedReadsOfAll(args, defined, block)
  }

  function UndefinedReadsOfAll(es: seq<Expr>, defined: set<ValueId>, block: BlockId): (errors: seq<ReadError>)
    ensures forall x :: x in errors <==> x.block == block && x.value in ReadsOfAll(es) - defined
    decreases es
  {
    if es == [] then []
    else UndefinedReadsOfAll(es[..|es| - 1], defined, block) + UndefinedReads(es[|es| - 1], defined, block)
  }

  function InstrReads(i: Instr): set<ValueId> {
    match i
    case Let(_, value) => Reads(value)
    case Eval(_, value) => Reads(value)
    case _ => {}
  }

  /** Instruction `k` reads only what came in, the parameters and earlier results. */
  ghost predicate InstrReadsDefined(block: Block, incoming: set<ValueId>, k: nat)
    requires k < |block.instrs|
  {
    InstrReads(block.instrs[k]) <= incoming + Params(block.params) + Results(block.instrs, k)
  }

  ghost predicate InstrsReadDefined(block: Block, incoming: set<ValueId>, n: nat)
    requires n <= |block.instrs|
  {
    forall k: nat {:trigger InstrReadsDefined(block, incoming, k)} :: k < n ==> InstrReadsDefined(block, incoming, k)
  }

  /** With `incoming` defined on the way in, the block reads nothing undefined. */
  ghost predicate ReadsDefined(p: Program, b: BlockId, incoming: set<ValueId>)
    requires b < |p.blocks|
  {
    && InstrsReadDefined(p.blocks[b], incoming, |p.blocks[b].instrs|)
    && ReadsOfAll(p.blocks[b].term.Operands()) <= incoming + DefinitionsIn(p, b)
  }

  /** The block reads `v` where it has not defined it itself: one of its first `n` instructions does. */
  ghost predicate ReadsFirst(block: Block, v: ValueId, n: nat)
    requires n <= |block.instrs|
  {
    exists k: nat {:trigger InstrReadsFirst(block, v, k)} :: k < n && InstrReadsFirst(block, v, k)
  }

  ghost predicate InstrReadsFirst(block: Block, v: ValueId, k: nat)
    requires k < |block.instrs|
  {
    v in InstrReads(block.instrs[k]) && v !in Params(block.params) + Results(block.instrs, k)
  }

  /** The block reads `v` where it relies on what came in for it. */
  ghost predicate ReliesOn(p: Program, b: BlockId, v: ValueId)
    requires b < |p.blocks|
  {
    || ReadsFirst(p.blocks[b], v, |p.blocks[b].instrs|)
    || v in ReadsOfAll(p.blocks[b].term.Operands()) - DefinitionsIn(p, b)
  }

  /** Reading nothing undefined is relying on nothing that did not come in. */
  lemma ReliesOnKnown(p: Program, b: BlockId, incoming: set<ValueId>)
    requires b < |p.blocks|
    ensures ReadsDefined(p, b, incoming) <==> forall v :: ReliesOn(p, b, v) ==> v in incoming
  {
    var block := p.blocks[b];
    if ReadsDefined(p, b, incoming) {
      forall v | ReliesOn(p, b, v) ensures v in incoming {
        if ReadsFirst(block, v, |block.instrs|) {
          var k: nat :| k < |block.instrs| && InstrReadsFirst(block, v, k);
          assert InstrReadsDefined(block, incoming, k);
        }
      }
    }
    if forall v :: ReliesOn(p, b, v) ==> v in incoming {
      forall k: nat | k < |block.instrs| ensures InstrReadsDefined(block, incoming, k) {
        forall v | v in InstrReads(block.instrs[k]) && v !in Params(block.params) + Results(block.instrs, k)
          ensures v in incoming
        {
          assert InstrReadsFirst(block, v, k);
          assert ReliesOn(p, b, v);
        }
      }
      forall v | v in ReadsOfAll(block.term.Operands()) - DefinitionsIn(p, b) ensures v in incoming {
        assert ReliesOn(p, b, v);
      }
    }
  }

  method CheckBlock(p: Program, b: BlockId, incoming: set<ValueId>) returns (errors: seq<ReadError>)
    requires b < |p.blocks|
    ensures forall x :: x in errors <==> x.block == b && ReliesOn(p, b, x.value) && x.value !in incoming
  {
    var block := p.blocks[b];
    var defined: set<ValueId>;
    errors, defined := CheckInstrs(block, b, incoming);
    assert defined == incoming + DefinitionsIn(p, b);
    errors := errors + UndefinedReadsOfAll(block.term.Operands(), defined, b);
  }

  method CheckInstrs(block: Block, b: BlockId, incoming: set<ValueId>)
    returns (errors: seq<ReadError>, defined: set<ValueId>)
    ensures forall x :: x in errors <==>
      x.block == b && ReadsFirst(block, x.value, |block.instrs|) && x.value !in incoming
    ensures defined == incoming + Params(block.params) + Results(block.instrs, |block.instrs|)
  {
    defined := incoming + Params(block.params);
    errors := [];
    for k := 0 to |block.instrs|
      invariant defined == incoming + Params(block.params) + Results(block.instrs, k)
      invariant forall x :: x in errors <==> x.block == b && ReadsFirst(block, x.value, k) && x.value !in incoming
    {
      var found;
      found, defined := CheckInstr(block.instrs[k], defined, b);
      forall v ensures ReadsFirst(block, v, k + 1) <==> ReadsFirst(block, v, k) || InstrReadsFirst(block, v, k) {}
      errors := errors + found;
    }
  }

  method CheckInstr(instr: Instr, before: set<ValueId>, b: BlockId)
    returns (errors: seq<ReadError>, defined: set<ValueId>)
    ensures forall x :: x in errors <==> x.block == b && x.value in InstrReads(instr) - before
    ensures defined == before + InstrResult(instr)
  {
    errors, defined := [], before;
    match instr {
      case Let(result, value) =>
        errors := UndefinedReads(value, defined, b);
        defined := defined + {result};
      case Eval(result, value) =>
        errors := UndefinedReads(value, defined, b);
        defined := defined + {result};
      case _ =>
    }
  }

  /** A reachable block relies on a value for what came in, and some way in leaves it undefined. */
  ghost predicate Misread(p: Program, g: Graph, e: ReadError)
    requires |g.successors| == |p.blocks|
  {
    && g.Exists(e.block) && g.Reachable(e.block)
    && ReliesOn(p, e.block, e.value)
    && !(Entered(g, e.block) && AlwaysDefined(p, g, e.block, e.value))
  }

  /** Every reachable block reads only what it defines or what is defined on every way in. */
  ghost predicate Accepted(p: Program, g: Graph)
    requires |g.successors| == |p.blocks|
  {
    forall b: BlockId, known {:trigger ExactSet(p, g, b, known)} ::
      g.Exists(b) && g.Reachable(b) && ExactSet(p, g, b, known) ==> ReadsDefined(p, b, known)
  }

  /** The values defined on every way in are finitely many. */
  lemma ExactSetOf(p: Program, g: Graph, b: BlockId) returns (known: set<ValueId>)
    ensures ExactSet(p, g, b, known)
  {
    if Entered(g, b) {
      var run :| RunTo(g, run, b) && |run| > 1;
      known := set v | v in DefinedBefore(p, run) && AlwaysDefined(p, g, b, v);
    } else {
      known := {};
    }
  }

  lemma AcceptedHasNoMisread(p: Program, g: Graph)
    requires |g.successors| == |p.blocks|
    ensures Accepted(p, g) <==> forall e :: !Misread(p, g, e)
  {
    if Accepted(p, g) {
      forall e ensures !Misread(p, g, e) {
        if Misread(p, g, e) {
          var known := ExactSetOf(p, g, e.block);
          ReliesOnKnown(p, e.block, known);
        }
      }
    }
    if forall e :: !Misread(p, g, e) {
      forall b: BlockId, known | g.Exists(b) && g.Reachable(b) && ExactSet(p, g, b, known)
        ensures ReadsDefined(p, b, known)
      {
        forall v | ReliesOn(p, b, v) ensures v in known { assert !Misread(p, g, ReadError(b, v)); }
        ReliesOnKnown(p, b, known);
      }
    }
  }

  method CheckFunction(p: Program, entry: BlockId) returns (errors: seq<ReadError>)
    requires entry < |p.blocks|
    ensures forall e :: e in errors <==> Misread(p, Whole(p, entry), e)
    ensures errors == [] <==> Accepted(p, Whole(p, entry))
  {
    var g := Whole(p, entry);
    var result := DefinitionsOnEntry(p, entry);
    errors := CheckListed(p, g, result);
    AcceptedHasNoMisread(p, g);
    if errors != [] { assert errors[0] in errors; }
  }

  method CheckListed(p: Program, g: Graph, result: OnEntry) returns (errors: seq<ReadError>)
    requires |g.successors| == |p.blocks| && ExactOnEntry(p, g, result)
    ensures forall e :: e in errors <==> Misread(p, g, e)
  {
    forall i | 0 <= i < |result| ensures g.Exists(result[i].0) && g.Reachable(result[i].0) {
      assert Listed(result, result[i].0);
      ReachableExists(g, result[i].0);
    }
    errors := [];
    for i := 0 to |result|
      invariant forall e :: e in errors <==> exists k :: 0 <= k < i && result[k].0 == e.block && Misread(p, g, e)
    {
      var (block, incoming) := result[i];
      var found := CheckBlock(p, block, incoming);
      assert ExactSet(p, g, result[i].0, result[i].1);
      forall e ensures e in found <==> e.block == result[i].0 && Misread(p, g, e) {}
      errors := errors + found;
    }
    forall e | Misread(p, g, e) ensures exists k :: 0 <= k < |result| && result[k].0 == e.block {
      assert Listed(result, e.block);
    }
  }

  lemma ReachableExists(g: Graph, b: BlockId)
    requires g.Reachable(b)
    ensures g.Exists(b)
  {
    var run :| g.IsRun(run) && run[|run| - 1] == b;
    if |run| > 1 { g.ShortenRun(run); }
  }

  ghost predicate EntriesExist(p: Program) {
    forall f :: f in p.functions ==> f.entry < |p.blocks|
  }

  ghost predicate FunctionMisreads(p: Program, i: nat, e: ReadError)
    requires EntriesExist(p) && i < |p.functions|
  {
    Misread(p, Whole(p, p.functions[i].entry), e)
  }

  ghost predicate FunctionAccepted(p: Program, i: nat)
    requires EntriesExist(p) && i < |p.functions|
  {
    Accepted(p, Whole(p, p.functions[i].entry))
  }

  /** `errors` are what the first `n` functions misread. */
  ghost predicate Reports(errors: seq<ReadError>, n: nat, misreads: (nat, ReadError) -> bool) {
    forall e :: e in errors <==> exists i: nat :: i < n && misreads(i, e)
  }

  lemma ReportsNext(errors: seq<ReadError>, found: seq<ReadError>, n: nat, misreads: (nat, ReadError) -> bool)
    requires Reports(errors, n, misreads) && forall e :: e in found <==> misreads(n, e)
    ensures Reports(errors + found, n + 1, misreads)
  {
    forall e ensures e in errors + found <==> exists i: nat :: i < n + 1 && misreads(i, e) {}
  }

  lemma NoneReported(errors: seq<ReadError>, n: nat, misreads: (nat, ReadError) -> bool, accepted: nat -> bool)
    requires Reports(errors, n, misreads)
    requires forall i: nat :: i < n ==> (accepted(i) <==> forall e :: !misreads(i, e))
    ensures errors == [] <==> forall i: nat :: i < n ==> accepted(i)
  {
    if errors != [] {
      assert errors[0] in errors;
      var i: nat :| i < n && misreads(i, errors[0]);
      assert !accepted(i);
    } else {
      forall i: nat | i < n ensures accepted(i) {
        forall e ensures !misreads(i, e) { assert e !in errors; }
      }
    }
  }

  /** The check over all functions of a program. */
  method CheckValueDefinitions(p: Program) returns (errors: seq<ReadError>)
    requires EntriesExist(p)
    ensures forall e :: e in errors <==> exists i: nat :: i < |p.functions| && FunctionMisreads(p, i, e)
    ensures errors == [] <==> forall i: nat :: i < |p.functions| ==> FunctionAccepted(p, i)
  {
    ghost var misreads := (i: nat, e: ReadError) => i < |p.functions| && FunctionMisreads(p, i, e);
    errors := [];
    for i := 0 to |p.functions|
      invariant Reports(errors, i, misreads)
    {
      var found := CheckFunction(p, p.functions[i].entry);
      assert forall e :: e in found <==> misreads(i, e);
      ReportsNext(errors, found, i, misreads);
      errors := errors + found;
    }
    forall e ensures e in errors <==> exists i: nat :: i < |p.functions| && FunctionMisreads(p, i, e) {
      assert forall i: nat :: i < |p.functions| ==> (misreads(i, e) <==> FunctionMisreads(p, i, e));
    }
    ghost var accepted := (i: nat) => i < |p.functions| && FunctionAccepted(p, i);
    forall i: nat | i < |p.functions| ensures accepted(i) <==> forall e :: !misreads(i, e) {
      AcceptedHasNoMisread(p, Whole(p, p.functions[i].entry));
      assert forall e :: misreads(i, e) <==> Misread(p, Whole(p, p.functions[i].entry), e);
    }
    NoneReported(errors, |p.functions|, misreads, accepted);
    assert forall i: nat :: i < |p.functions| ==> (accepted(i) <==> FunctionAccepted(p, i));
  }

  // ---------------------------------------------------------------- what acceptance means

  /** The last block of the run reads nothing the run has not defined. */
  ghost predicate RunReadsDefined(p: Program, g: Graph, run: seq<BlockId>)
    requires |g.successors| == |p.blocks| && g.IsRun(run)
  {
    ReachableByRun(g, run);
    ReadsDefined(p, run[|run| - 1], DefinedBefore(p, run))
  }

  lemma ReachableByRun(g: Graph, run: seq<BlockId>)
    requires g.IsRun(run)
    ensures g.Reachable(run[|run| - 1]) && g.Exists(run[|run| - 1])
  {
    ReachableExists(g, run[|run| - 1]);
  }

  /** No run of the function reads a value it has not defined. */
  ghost predicate Safe(p: Program, g: Graph)
    requires |g.successors| == |p.blocks|
  {
    forall run {:trigger RunReadsDefined(p, g, run)} :: g.IsRun(run) ==> RunReadsDefined(p, g, run)
  }

  /** The check is exact but for the entry block, which a run can be in without having come along
      an edge: a function is safe exactly when it is accepted and its entry reads only what the
      entry itself defines. */
  lemma AcceptedIsSafe(p: Program, g: Graph)
    requires |g.successors| == |p.blocks| && g.Exists(g.entry)
    ensures Safe(p, g) <==> Accepted(p, g) && ReadsDefined(p, g.entry, {})
  {
    if Accepted(p, g) && ReadsDefined(p, g.entry, {}) {
      forall run | g.IsRun(run) ensures RunReadsDefined(p, g, run) {
        AcceptedRun(p, g, run);
      }
    }
    if Safe(p, g) {
      assert g.IsRun([g.entry]);
      assert RunReadsDefined(p, g, [g.entry]);
      forall b: BlockId, known | g.Exists(b) && g.Reachable(b) && ExactSet(p, g, b, known)
        ensures ReadsDefined(p, b, known)
      {
        SafeBlock(p, g, b, known);
      }
    }
  }

  lemma AcceptedRun(p: Program, g: Graph, run: seq<BlockId>)
    requires |g.successors| == |p.blocks| && g.Exists(g.entry)
    requires Accepted(p, g) && ReadsDefined(p, g.entry, {}) && g.IsRun(run)
    ensures RunReadsDefined(p, g, run)
  {
    var b := run[|run| - 1];
    ReachableByRun(g, run);
    if |run| > 1 {
      assert RunTo(g, run, b);
      var known := ExactSetOf(p, g, b);
      MoreIsDefined(p, b, known, DefinedBefore(p, run));
    }
  }

  lemma MoreIsDefined(p: Program, b: BlockId, known: set<ValueId>, more: set<ValueId>)
    requires b < |p.blocks| && known <= more && ReadsDefined(p, b, known)
    ensures ReadsDefined(p, b, more)
  {
    var block := p.blocks[b];
    forall k: nat | k < |block.instrs| ensures InstrReadsDefined(block, more, k) {
      assert InstrReadsDefined(block, known, k);
    }
  }

  lemma SafeBlock(p: Program, g: Graph, b: BlockId, known: set<ValueId>)
    requires |g.successors| == |p.blocks| && g.Exists(g.entry)
    requires Safe(p, g) && ReadsDefined(p, g.entry, {})
    requires g.Exists(b) && g.Reachable(b) && ExactSet(p, g, b, known)
    ensures ReadsDefined(p, b, known)
  {
    if b == g.entry {
      MoreIsDefined(p, b, {}, known);
    } else {
      var some :| g.IsRun(some) && some[|some| - 1] == b;
      assert RunTo(g, some, b) && |some| > 1;
      SafeBlockInstrs(p, g, b, known);
      forall v | v in ReadsOfAll(p.blocks[b].term.Operands()) && v !in known ensures v in DefinitionsIn(p, b) {
        var defined := MissingFrom(p, g, b, known, v);
      }
    }
  }

  lemma SafeBlockInstrs(p: Program, g: Graph, b: BlockId, known: set<ValueId>)
    requires |g.successors| == |p.blocks| && Safe(p, g) && g.Exists(b) && Entered(g, b) && ExactSet(p, g, b, known)
    ensures InstrsReadDefined(p.blocks[b], known, |p.blocks[b].instrs|)
  {
    var block := p.blocks[b];
    forall k: nat | k < |block.instrs| ensures InstrReadsDefined(block, known, k) {
      forall v | v in InstrReads(block.instrs[k]) && v !in known
        ensures v in Params(block.params) + Results(block.instrs, k)
      {
        var defined := MissingFrom(p, g, b, known, v);
        assert InstrReadsDefined(block, defined, k);
      }
    }
  }

  /** A value outside the exact set is missing at the end of some run, which reads nothing undefined. */
  lemma MissingFrom(p: Program, g: Graph, b: BlockId, known: set<ValueId>, v: ValueId) returns (defined: set<ValueId>)
    requires |g.successors| == |p.blocks| && Safe(p, g) && g.Exists(b)
    requires Entered(g, b) && ExactSet(p, g, b, known) && v !in known
    ensures v !in defined && ReadsDefined(p, b, defined)
  {
    assert !AlwaysDefined(p, g, b, v);
    var run :| RunTo(g, run, b) && |run| > 1 && v !in DefinedBefore(p, run);
    assert RunReadsDefined(p, g, run);
    defined := DefinedBefore(p, run);
  }

  /** Lowering gives every function an entry no edge comes into; there acceptance alone is safety. */
  lemma AcceptedIsSafeAtFreshEntry(p: Program, g: Graph)
    requires |g.successors| == |p.blocks| && g.Exists(g.entry) && !Entered(g, g.entry)
    ensures Safe(p, g) <==> Accepted(p, g)
  {
    AcceptedIsSafe(p, g);
    if Accepted(p, g) {
      ReachableByRun(g, [g.entry]);
      assert ExactSet(p, g, g.entry, {});
    }
  }

  /** The entry loops to itself and reads at its top what it defines at its bottom. */
  function LoopingEntry(): Program {
    Program([Function([], 0)],
            [Block([], [Let(1, Value(0)), Let(0, Literal(Unit))], Goto(0, []))])
  }

  /** It is accepted, although its very first visit reads an undefined value. */
  lemma LoopingEntryIsUnsafe()
    ensures Accepted(LoopingEntry(), Whole(LoopingEntry(), 0)) && !Safe(LoopingEntry(), Whole(LoopingEntry(), 0))
  {
    var p := LoopingEntry();
    var g := Whole(p, 0);
    var block := p.blocks[0];
    assert g.successors == [[0]];
    assert Params(block.params) == {} && InstrReads(block.instrs[0]) == {0} && InstrReads(block.instrs[1]) == {};
    forall b: BlockId, known | g.Exists(b) && g.Reachable(b) && ExactSet(p, g, b, known)
      ensures ReadsDefined(p, b, known)
    {
      LoopDefines(p, g);
      assert 0 in known;
      forall k: nat | k < |block.instrs| ensures InstrReadsDefined(block, known, k) {}
      assert block.term.Operands() == [];
    }
    assert g.IsRun([0]);
    AcceptedIsSafe(p, g);
    assert Results(block.instrs, 0) == {};
    assert !InstrReadsDefined(block, {}, 0);
  }

  lemma LoopDefines(p: Program, g: Graph)
    requires p == LoopingEntry() && g == Whole(p, 0) && g.successors == [[0]]
    ensures Entered(g, 0) && AlwaysDefined(p, g, 0, 0)
  {
    var block := p.blocks[0];
    assert block.instrs[1] == Let(0, Literal(Unit));
    assert g.StepAt([0, 0], 1);
    assert RunTo(g, [0, 0], 0);
    forall run | RunTo(g, run, 0) && |run| > 1 ensures 0 in DefinedBefore(p, run) {
      var before := run[..|run| - 1];
      g.ShortenRun(run);
      ReachableByRun(g, before);
      assert before[|before| - 1] == 0;
      assert 0 in Results(block.instrs, 2);
      assert 0 in DefinitionsIn(p, 0);
    }
  }
}
