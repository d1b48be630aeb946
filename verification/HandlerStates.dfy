/** Which handlers are active where a block ends, as the backend finds out before it emits a function. */
module HandlerStates {
  import opened Cfg
  import opened CfgRun
  import Flow
  import Scopes

  /** Active handlers with their effects, the innermost last. */
  type Active = seq<(nat, nat)>

  /** Without the last entry of the handler, wherever it is. */
  function Removed(s: Active, handler: nat): Active {
    if s == [] then s
    else if s[|s| - 1].0 == handler then s[..|s| - 1]
    else Removed(s[..|s| - 1], handler) + [s[|s| - 1]]
  }

  function After(i: Instr, s: Active): Active {
    match i
    case HandlerEnter(handler, effect) => s + [(handler, effect)]
    case HandlerExit(handler, _) => Removed(s, handler)
    case _ => s
  }

  function Past(code: seq<Instr>, s: Active): Active {
    if code == [] then s else After(code[|code| - 1], Past(code[..|code| - 1], s))
  }

  /** What two stacks agree on from the bottom. */
  function Common(a: Active, b: Active): (c: Active)
    ensures c <= a && c <= b
  {
    if a == [] || b == [] || a[0] != b[0] then [] else
      var rest := Common(a[1..], b[1..]);
      assert a == [a[0]] + a[1..] && b == [a[0]] + b[1..];
      [a[0]] + rest
  }

  // ---------------------------------------------------------------- what is to be found

  /** One stack for each block, that every edge carries on. */
  ghost predicate Steady(p: Program, g: Flow.Graph, stacks: seq<Active>) {
    && |stacks| == |p.blocks| == |g.successors| && (g.Exists(g.entry) ==> stacks[g.entry] == [])
    && forall b: BlockId, c: BlockId {:trigger g.Edge(b, c)} :: g.Reachable(b) && g.Edge(b, c) ==>
      Carries(p, stacks, b, c)
  }

  ghost predicate Carries(p: Program, stacks: seq<Active>, b: BlockId, c: BlockId) {
    b < |p.blocks| && b < |stacks| && c < |stacks| && stacks[c] == Past(p.blocks[b].instrs, stacks[b])
  }

  type Known = map<BlockId, Active>

  /** Found so far: only what can be reached, and if there is one stack for each block, that one. */
  ghost predicate Faithful(p: Program, g: Flow.Graph, entries: Known) {
    && (forall b {:trigger b in entries} :: b in entries && g.Exists(b) ==> g.Reachable(b))
    && forall stacks {:trigger Steady(p, g, stacks)} :: Steady(p, g, stacks) ==> Agrees(g, entries, stacks)
  }

  ghost predicate Agrees(g: Flow.Graph, entries: Known, stacks: seq<Active>) {
    forall b {:trigger entries[b]} :: b in entries && g.Exists(b) && b < |stacks| ==> entries[b] == stacks[b]
  }

  /** A block that does not wait to be visited has been, with what is known at it now. */
  ghost predicate Visited(p: Program, g: Flow.Graph, entries: Known, states: Known, waiting: seq<BlockId>) {
    forall b {:trigger Done(p, g, entries, states, b)} :: b in entries && g.Exists(b) && b !in waiting ==>
      Done(p, g, entries, states, b)
  }

  ghost predicate Done(p: Program, g: Flow.Graph, entries: Known, states: Known, b: BlockId) {
    && b in entries && b in states && b < |p.blocks| && states[b] == Past(p.blocks[b].instrs, entries[b])
    && forall c :: c in g.Successors(b) ==> c in entries
  }

  // ---------------------------------------------------------------- how it ends

  function Unknown(entries: Known, n: nat): nat {
    if n == 0 then 0 else Unknown(entries, n - 1) + if n - 1 in entries then 0 else 1
  }

  /** All stacks together. */
  function Depth(entries: Known, n: nat): nat {
    if n == 0 then 0 else Depth(entries, n - 1) + if n - 1 in entries then |entries[n - 1]| else 0
  }

  lemma {:induction false} MoreKnown(entries: Known, b: BlockId, s: Active, n: nat)
    requires b !in entries
    ensures Unknown(entries[b := s], n) == Unknown(entries, n) - if b < n then 1 else 0
  {
    if n > 0 { MoreKnown(entries, b, s, n - 1); }
  }

  lemma {:induction false} LessDeep(entries: Known, b: BlockId, s: Active, n: nat)
    requires b in entries
    ensures Unknown(entries[b := s], n) == Unknown(entries, n)
    ensures Depth(entries[b := s], n) == Depth(entries, n) - if b < n then |entries[b]| - |s| else 0
  {
    if n > 0 { LessDeep(entries, b, s, n - 1); }
  }

  function Largest(blocks: seq<BlockId>): (m: nat)
    ensures forall b :: b in blocks ==> b <= m
  {
    if blocks == [] then 0
    else
      var rest := Largest(blocks[..|blocks| - 1]);
      assert forall b :: b in blocks ==> b in blocks[..|blocks| - 1] || b == blocks[|blocks| - 1];
      if rest < blocks[|blocks| - 1] then blocks[|blocks| - 1] else rest
  }

  /** Every block any edge names is below this. */
  function Bound(lists: seq<seq<BlockId>>, entry: BlockId): (m: nat)
    ensures entry < m && forall i, b :: 0 <= i < |lists| && b in lists[i] ==> b < m
  {
    if lists == [] then entry + 1
    else
      var rest, own := Bound(lists[..|lists| - 1], entry), Largest(lists[|lists| - 1]) + 1;
      assert forall i :: 0 <= i < |lists| - 1 ==> lists[..|lists| - 1][i] == lists[i];
      if rest < own then own else rest
  }

  // ---------------------------------------------------------------- the search

  /** A block's stack reaches a successor: new there, or cut down to what agrees. */
  method Reach(p: Program, ghost g: Flow.Graph, b: BlockId, c: BlockId, state: Active, before: Known, ghost n: nat)
    returns (entries: Known, again: bool)
    requires g.Reachable(b) && c in g.Successors(b) && c < n && b in before
    requires |g.successors| == |p.blocks| && b < |p.blocks|
    requires Faithful(p, g, before) && forall stacks {:trigger Steady(p, g, stacks)} :: Steady(p, g, stacks) ==>
      state == Past(p.blocks[b].instrs, stacks[b])
    ensures Faithful(p, g, entries) && c in entries && before.Keys <= entries.Keys
    ensures forall d {:trigger d in entries} :: d in entries && d != c ==> d in before && entries[d] == before[d]
    ensures !again ==> entries == before
    ensures again ==>
      Unknown(entries, n) < Unknown(before, n)
        || (Unknown(entries, n) == Unknown(before, n) && Depth(entries, n) < Depth(before, n))
  {
    entries, again := before, false;
    if c !in before {
      entries, again := before[c := state], true;
      MoreKnown(before, c, state, n);
    } else if before[c] != state {
      var common := Common(before[c], state);
      if common != before[c] {
        entries, again := before[c := common], true;
        LessDeep(before, c, common, n);
      }
    }
    if g.Exists(c) {
      var run :| g.IsRun(run) && run[|run| - 1] == b;
      g.ExtendRun(run, c);
      assert (run + [c])[|run + [c]| - 1] == c;
      forall stacks | Steady(p, g, stacks) ensures Agrees(g, entries, stacks) {
        assert g.Edge(b, c) && Carries(p, stacks, b, c) && Agrees(g, before, stacks);
        CommonSame(state);
      }
    }
  }

  lemma {:induction false} CommonSame(a: Active)
    ensures Common(a, a) == a
  {
    if a != [] { CommonSame(a[1..]); }
  }

  method ActiveHandlerStates(p: Program, entry: BlockId, tails: set<BlockId>) returns (states: Known)
    ensures var g := Flow.View(p, entry, tails);
      forall b :: b in states <==> g.Reachable(b)
    ensures forall stacks {:trigger Steady(p, Flow.View(p, entry, tails), stacks)} ::
      Steady(p, Flow.View(p, entry, tails), stacks) ==>
      forall b {:trigger states[b]} :: b in states && b < |stacks| ==> states[b] == Past(p.blocks[b].instrs, stacks[b])
  {
    var g := Flow.View(p, entry, tails);
    ghost var n := Bound(g.successors, entry);
    var entries: Known := map[entry := []];
    states := map[];
    var queue: seq<BlockId> := [entry];
    EntryFaithful(p, g, entries);
    while queue != []
      invariant Faithful(p, g, entries) && Visited(p, g, entries, states, queue) && entry in entries
      invariant forall b :: b in queue ==> b in entries
      invariant forall b :: b in states ==> b in entries && g.Exists(b)
      decreases Unknown(entries, n), Depth(entries, n), |queue|
    {
      var b: BlockId := queue[0];
      assert forall c :: c in queue ==> c == b || c in queue[1..];
      queue := queue[1..];
      if b < |p.blocks| {
        entries, states, queue := Visit(p, g, b, entries, states, queue, n);
      }
    }
    AllFound(p, g, entries, states);
  }

  lemma EntryFaithful(p: Program, g: Flow.Graph, entries: Known)
    requires entries == map[g.entry := []]
    ensures Faithful(p, g, entries)
  {
    if g.Exists(g.entry) {
      assert g.IsRun([g.entry]);
      assert [g.entry][|[g.entry]| - 1] == g.entry;
    }
  }

  method Visit(p: Program, g: Flow.Graph, b: BlockId, before: Known, seen: Known, waiting: seq<BlockId>, ghost n: nat)
    returns (entries: Known, states: Known, queue: seq<BlockId>)
    requires |g.successors| == |p.blocks| && b < |p.blocks| && b in before && g.entry in before
    requires forall i, c :: 0 <= i < |g.successors| && c in g.successors[i] ==> c < n
    requires Faithful(p, g, before) && Visited(p, g, before, seen, [b] + waiting)
    requires (forall c :: c in waiting ==> c in before) && forall c :: c in seen ==> c in before && g.Exists(c)
    ensures Faithful(p, g, entries) && Visited(p, g, entries, states, queue) && g.entry in entries
    ensures (forall c :: c in queue ==> c in entries) && forall c :: c in states ==> c in entries && g.Exists(c)
    ensures Unknown(entries, n) < Unknown(before, n)
      || (Unknown(entries, n) == Unknown(before, n)
        && (Depth(entries, n) < Depth(before, n) || (Depth(entries, n) == Depth(before, n) && queue == waiting)))
  {
    var state := Past(p.blocks[b].instrs, before[b]);
    entries, states, queue := before, seen[b := state], waiting;
    var successors := g.Successors(b);
    ghost var from := before;
    for i := 0 to |successors|
      invariant Faithful(p, g, entries) && before.Keys <= entries.Keys
      invariant forall c :: c in successors[..i] ==> c in entries
      invariant waiting <= queue && forall c :: c in queue ==> c in entries
      invariant forall c {:trigger entries[c]} :: c in entries && c !in queue ==> c in before && entries[c] == before[c]
      invariant Unknown(entries, n) < Unknown(before, n)
        || (Unknown(entries, n) == Unknown(before, n)
          && (Depth(entries, n) < Depth(before, n) || (Depth(entries, n) == Depth(before, n) && queue == waiting)))
    {
      forall stacks | Steady(p, g, stacks)
        ensures state == Past(p.blocks[b].instrs, stacks[b])
      {
        assert Agrees(g, before, stacks);
      }
      ghost var known := entries;
      var again;
      entries, again := Reach(p, g, b, successors[i], state, entries, n);
      forall c | c in entries && c !in queue && !(again && c == successors[i])
        ensures c in before && entries[c] == before[c]
      {
        if c == successors[i] { assert entries == known; }
      }
      if again { queue := queue + [successors[i]]; }
      assert successors[..i + 1] == successors[..i] + [successors[i]];
    }
    assert successors[..|successors|] == successors;
    forall c | c in entries && g.Exists(c) && c !in queue ensures Done(p, g, entries, states, c) {
      if c != b { assert Done(p, g, before, seen, c); }
    }
  }

  lemma AllFound(p: Program, g: Flow.Graph, entries: Known, states: Known)
    requires |g.successors| == |p.blocks| && Faithful(p, g, entries) && Visited(p, g, entries, states, [])
      && g.entry in entries
    requires forall b :: b in states ==> b in entries && g.Exists(b)
    ensures forall b :: b in states <==> g.Reachable(b)
    ensures forall stacks {:trigger Steady(p, g, stacks)} :: Steady(p, g, stacks) ==>
      forall b {:trigger states[b]} :: b in states && b < |stacks| ==> states[b] == Past(p.blocks[b].instrs, stacks[b])
  {
    forall b | g.Reachable(b) ensures b in states {
      var run :| g.IsRun(run) && run[|run| - 1] == b;
      RunFound(p, g, entries, states, run);
    }
    forall stacks, b | Steady(p, g, stacks) && b in states && b < |stacks|
      ensures states[b] == Past(p.blocks[b].instrs, stacks[b])
    {
      assert Agrees(g, entries, stacks) && Done(p, g, entries, states, b);
    }
  }

  lemma {:induction false} RunFound(p: Program, g: Flow.Graph, entries: Known, states: Known, run: seq<BlockId>)
    requires |g.successors| == |p.blocks| && Visited(p, g, entries, states, []) && g.entry in entries && g.IsRun(run)
    ensures run[|run| - 1] in entries && run[|run| - 1] in states
    decreases |run|
  {
    if |run| > 1 {
      g.ShortenRun(run);
      RunFound(p, g, entries, states, run[..|run| - 1]);
      assert Done(p, g, entries, states, run[|run| - 2]);
    }
    assert Done(p, g, entries, states, run[|run| - 1]);
  }

  // ---------------------------------------------------------------- lowered functions

  /** The handlers among the open scopes. */
  function Handlers(s: Scopes.Stack): Active {
    if s == [] then []
    else
      var last := s[|s| - 1];
      Handlers(s[..|s| - 1]) + if last.Handler? then [(last.handler, last.effect)] else []
  }

  lemma HandlersPush(s: Scopes.Stack, m: Scopes.Mark)
    ensures Handlers(s + [m]) == Handlers(s) + if m.Handler? then [(m.handler, m.effect)] else []
  {
    assert (s + [m])[..|s|] == s;
  }

  lemma {:induction false} HandlersThrough(code: seq<Instr>, s: Scopes.Stack)
    requires Scopes.Through(code, Some(s)).Some?
    ensures Handlers(Scopes.Through(code, Some(s)).value) == Past(code, Handlers(s))
    decreases |code|
  {
    if code != [] {
      var i, before := code[|code| - 1], Scopes.Through(code[..|code| - 1], Some(s));
      HandlersThrough(code[..|code| - 1], s);
      if Scopes.Opens(i).Some? {
        HandlersPush(before.value, Scopes.Opens(i).value);
      } else if Scopes.Closes(i).Some? {
        assert before.value == before.value[..|before.value| - 1] + [Scopes.Closes(i).value];
        HandlersPush(before.value[..|before.value| - 1], Scopes.Closes(i).value);
      }
    }
  }

  /** The one stack of each block of a function whose scopes nest. */
  ghost function StacksOf(blocks: seq<Block>): seq<Active>
    requires Descending(blocks)
  {
    seq(|blocks|, b requires 0 <= b < |blocks| =>
      var s := Scopes.Needed(blocks, b); if s.Some? then Handlers(s.value) else [])
  }

  /** So for every lowered function the search finds the handlers its scopes leave active. */
  lemma NestedIsSteady(p: Program, entry: BlockId, tails: set<BlockId>)
    requires Descending(p.blocks) && entry < |p.blocks| && Scopes.Needed(p.blocks, entry) == Some([])
    ensures Steady(p, Flow.View(p, entry, tails), StacksOf(p.blocks))
  {
    var g, stacks := Flow.View(p, entry, tails), StacksOf(p.blocks);
    forall b: BlockId, c: BlockId | g.Reachable(b) && g.Edge(b, c) ensures Carries(p, stacks, b, c) {
      var run :| g.IsRun(run) && run[|run| - 1] == b;
      NestedOn(p, g, entry, tails, run);
      Scopes.OneOn(p.blocks, b, c);
      HandlersThrough(p.blocks[b].instrs, Scopes.Needed(p.blocks, b).value);
    }
  }

  lemma {:induction false} NestedOn(p: Program, g: Flow.Graph, entry: BlockId, tails: set<BlockId>, run: seq<BlockId>)
    requires Descending(p.blocks) && entry < |p.blocks| && Scopes.Needed(p.blocks, entry) == Some([])
    requires g == Flow.View(p, entry, tails) && g.IsRun(run)
    ensures run[|run| - 1] < |p.blocks| && Scopes.Needed(p.blocks, run[|run| - 1]).Some?
    decreases |run|
  {
    if |run| > 1 {
      g.ShortenRun(run);
      NestedOn(p, g, entry, tails, run[..|run| - 1]);
      Scopes.OneOn(p.blocks, run[|run| - 2], run[|run| - 1]);
    }
  }

  /** The stacks the search is to find: after each reachable block, the handlers open on every way to its end. */
  ghost predicate FoundOpen(p: Program, entry: BlockId, tails: set<BlockId>, states: Known) {
    var g := Flow.View(p, entry, tails);
    && (forall b :: b in states <==> g.Reachable(b))
    && forall run {:trigger g.IsRun(run)} :: g.IsRun(run) ==> OpenAfter(p, run, states)
  }

  ghost predicate OpenAfter(p: Program, run: seq<BlockId>, states: Known) {
    && Scopes.Way(p.blocks, run) && run[|run| - 1] in states && Scopes.Spelled(p.blocks, run, |run|).Some?
    && states[run[|run| - 1]] == Handlers(Scopes.Spelled(p.blocks, run, |run|).value)
  }

  lemma {:induction false} RunIsWay(p: Program, entry: BlockId, tails: set<BlockId>, run: seq<BlockId>)
    requires Flow.View(p, entry, tails).IsRun(run)
    ensures Scopes.Way(p.blocks, run)
    decreases |run|
  {
    var g := Flow.View(p, entry, tails);
    if |run| > 1 {
      g.ShortenRun(run);
      RunIsWay(p, entry, tails, run[..|run| - 1]);
      assert run[..|run| - 1][|run| - 2] == run[|run| - 2];
      forall k | 0 <= k < |run| - 1 ensures run[k + 1] in p.blocks[run[k]].term.Successors() {
        if k < |run| - 2 {
          assert run[..|run| - 1][k + 1] in p.blocks[run[..|run| - 1][k]].term.Successors();
        }
      }
    }
  }

  /** Where nothing has to be open at the entry, what the search says of a block is what is open there,
      whichever way led to it. */
  lemma FindsOpen(p: Program, entry: BlockId, tails: set<BlockId>, states: Known, run: seq<BlockId>)
    requires Descending(p.blocks) && entry < |p.blocks| && Scopes.Needed(p.blocks, entry) == Some([])
    requires Flow.View(p, entry, tails).IsRun(run) && run[|run| - 1] in states
    requires forall b {:trigger states[b]} :: b in states && b < |p.blocks| ==>
      states[b] == Past(p.blocks[b].instrs, StacksOf(p.blocks)[b])
    ensures OpenAfter(p, run, states)
  {
    RunIsWay(p, entry, tails, run);
    var b := run[|run| - 1];
    Scopes.ScopesNest(p.blocks, run, |run| - 1);
    Scopes.NeededThrough(p.blocks, b);
    HandlersThrough(p.blocks[b].instrs, Scopes.Needed(p.blocks, b).value);
  }

  method StatesOf(p: Program, entry: BlockId, tails: set<BlockId>) returns (states: Known)
    requires Descending(p.blocks) && entry < |p.blocks| && Scopes.Needed(p.blocks, entry) == Some([])
    ensures FoundOpen(p, entry, tails, states)
  {
    states := ActiveHandlerStates(p, entry, tails);
    var g := Flow.View(p, entry, tails);
    NestedIsSteady(p, entry, tails);
    forall run | g.IsRun(run) ensures OpenAfter(p, run, states) {
      assert g.Reachable(run[|run| - 1]);
      FindsOpen(p, entry, tails, states, run);
    }
  }

  /** The search over every function of a program whose scopes nest. */
  method StatesOfAll(p: Program, tails: set<BlockId>) returns (states: seq<Known>)
    requires Descending(p.blocks) && forall f :: f in p.functions ==> Nested(p, f)
    ensures |states| == |p.functions|
    ensures forall i: nat {:trigger states[i]} :: i < |states| ==>
      FoundOpen(p, p.functions[i].entry, tails, states[i])
  {
    states := [];
    for i := 0 to |p.functions|
      invariant |states| == i
      invariant forall k: nat {:trigger states[k]} :: k < i ==> FoundOpen(p, p.functions[k].entry, tails, states[k])
    {
      assert Nested(p, p.functions[i]);
      var found := StatesOf(p, p.functions[i].entry, tails);
      states := states + [found];
    }
  }

  ghost predicate Nested(p: Program, f: Function)
    requires Descending(p.blocks)
  {
    f.entry < |p.blocks| && Scopes.Needed(p.blocks, f.entry) == Some([])
  }
}
