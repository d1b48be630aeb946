/** Finding the cycles of tail calls. */
module TailCycles {
  import opened Cfg
  import Flow

  // ---------------------------------------------------------------- which functions tail-call each other

  type Edges = seq<set<FuncId>>

  ghost predicate IsChain(edges: Edges, chain: seq<FuncId>) {
    |chain| > 1 && forall i: nat {:trigger LinkAt(edges, chain, i)} :: i < |chain| - 1 ==> LinkAt(edges, chain, i)
  }

  ghost predicate LinkAt(edges: Edges, chain: seq<FuncId>, i: nat)
    requires i < |chain| - 1
  {
    chain[i] < |edges| && chain[i + 1] in edges[chain[i]]
  }

  /** Along at least one call, `f` leads to `g`. */
  ghost predicate LeadsTo(edges: Edges, f: FuncId, g: FuncId) {
    exists chain :: IsChain(edges, chain) && chain[0] == f && chain[|chain| - 1] == g
  }

  lemma LeadsOne(edges: Edges, f: FuncId, g: FuncId)
    requires f < |edges| && g in edges[f]
    ensures LeadsTo(edges, f, g)
  {
    assert LinkAt(edges, [f, g], 0);
    assert IsChain(edges, [f, g]);
  }

  lemma LeadsOn(edges: Edges, f: FuncId, g: FuncId, h: FuncId)
    requires LeadsTo(edges, f, g) && LeadsTo(edges, g, h)
    ensures LeadsTo(edges, f, h)
  {
    var a :| IsChain(edges, a) && a[0] == f && a[|a| - 1] == g;
    var b :| IsChain(edges, b) && b[0] == g && b[|b| - 1] == h;
    var c := a + b[1..];
    forall i: nat | i < |c| - 1 ensures LinkAt(edges, c, i) {
      if i < |a| - 1 { assert LinkAt(edges, a, i); } else { assert LinkAt(edges, b, i - (|a| - 1)); }
    }
    assert c[0] == f && c[|c| - 1] == h;
  }

  /** Whatever is closed under the calls and holds a chain's second function holds its last. */
  lemma {:induction false} ChainStays(edges: Edges, chain: seq<FuncId>, held: set<FuncId>)
    requires IsChain(edges, chain) && chain[1] in held
    requires forall g: FuncId {:trigger edges[g]} :: g in held && g < |edges| ==> edges[g] <= held
    ensures chain[|chain| - 1] in held
    decreases |chain|
  {
    if |chain| > 2 {
      assert LinkAt(edges, chain, 1);
      var rest := chain[1..];
      forall i: nat | i < |rest| - 1 ensures LinkAt(edges, rest, i) { assert LinkAt(edges, chain, i + 1); }
      ChainStays(edges, rest, held);
    }
  }

  /** Everything `from` leads to, depth first; a callee outside the program leads nowhere. */
  method Transitive(edges: Edges, from: FuncId) returns (seen: set<FuncId>)
    requires from < |edges|
    ensures forall g: FuncId :: g in seen <==> LeadsTo(edges, from, g)
  {
    seen := {};
    var stack := edges[from];
    CalleesHold(edges, |edges|, from);
    forall g: FuncId | g in stack ensures LeadsTo(edges, from, g) { LeadsOne(edges, from, g); }
    while stack != {}
      invariant forall g: FuncId :: g in seen || g in stack ==> g in Callees(edges, |edges|) && LeadsTo(edges, from, g)
      invariant edges[from] <= seen + stack
      invariant forall g: FuncId {:trigger edges[g]} :: g in seen && g < |edges| ==> edges[g] <= seen + stack
      decreases |Callees(edges, |edges|) - seen|, |stack|
    {
      var next: FuncId :| next in stack;
      stack := stack - {next};
      if next !in seen {
        SmallerRest(Callees(edges, |edges|), seen, next);
        seen := seen + {next};
        if next < |edges| {
          forall g: FuncId | g in edges[next] ensures LeadsTo(edges, from, g) {
            LeadsOne(edges, next, g);
            LeadsOn(edges, from, next, g);
          }
          CalleesHold(edges, |edges|, next);
          stack := stack + edges[next];
        }
      }
    }
    forall g: FuncId | LeadsTo(edges, from, g) ensures g in seen {
      var chain :| IsChain(edges, chain) && chain[0] == from && chain[|chain| - 1] == g;
      assert LinkAt(edges, chain, 0);
      ChainStays(edges, chain, seen);
    }
  }

  function Callees(edges: Edges, n: nat): set<FuncId>
    requires n <= |edges|
  {
    if n == 0 then {} else Callees(edges, n - 1) + edges[n - 1]
  }

  lemma {:induction false} CalleesHold(edges: Edges, n: nat, f: FuncId)
    requires f < n <= |edges|
    ensures edges[f] <= Callees(edges, n)
  {
    if f < n - 1 { CalleesHold(edges, n - 1, f); }
  }

  lemma SmallerRest(all: set<FuncId>, seen: set<FuncId>, x: FuncId)
    requires x in all && x !in seen
    ensures |all - (seen + {x})| < |all - seen|
  {
    assert all - (seen + {x}) == (all - seen) - {x};
  }

  // ---------------------------------------------------------------- cycles

  ghost predicate Mutual(edges: Edges, f: FuncId, g: FuncId) { LeadsTo(edges, f, g) && LeadsTo(edges, g, f) }

  /** Exactly the functions in mutual recursion with each other, more than one of them. */
  ghost predicate IsCycle(edges: Edges, c: seq<FuncId>) {
    && |c| > 1 && Flow.Distinct(c)
    && forall f, g: FuncId :: f in c && g < |edges| && g != f ==> (g in c <==> Mutual(edges, f, g))
  }

  ghost predicate ReachIs(edges: Edges, reach: seq<set<FuncId>>, n: nat) {
    n <= |reach| && n <= |edges| && forall f: FuncId, g: FuncId {:trigger g in reach[f]} :: f < n ==>
      (g in reach[f] <==> LeadsTo(edges, f, g))
  }

  lemma SameClass(edges: Edges, f: FuncId, x: FuncId, g: FuncId)
    requires f == x || Mutual(edges, f, x)
    ensures Mutual(edges, f, g) && x != f ==> Mutual(edges, x, g)
    ensures Mutual(edges, x, g) && x != f ==> Mutual(edges, f, g)
  {
    if x != f {
      if Mutual(edges, f, g) { LeadsOn(edges, x, f, g); LeadsOn(edges, g, f, x); }
      if Mutual(edges, x, g) { LeadsOn(edges, f, x, g); LeadsOn(edges, g, x, f); }
    }
  }

  /** `f` first, then every function in mutual recursion with it. */
  method MembersOf(edges: Edges, reach: seq<set<FuncId>>, f: FuncId) returns (members: seq<FuncId>)
    requires f < |edges| == |reach| && ReachIs(edges, reach, |edges|)
    ensures Flow.Distinct(members) && f in members
    ensures forall g: FuncId :: g in members <==> g < |edges| && (g == f || Mutual(edges, f, g))
  {
    members := [f];
    for g := 0 to |edges|
      invariant Flow.Distinct(members) && f in members
      invariant forall h: FuncId :: h in members <==> h < |edges| && (h == f || (h < g && Mutual(edges, f, h)))
    {
      assert g in reach[f] <==> LeadsTo(edges, f, g);
      assert f in reach[g] <==> LeadsTo(edges, g, f);
      ghost var before := members;
      if g != f && g in reach[f] && f in reach[g] {
        assert g !in members;
        members := members + [g];
      }
      forall h: FuncId ensures h in members <==> h < |edges| && (h == f || (h < g + 1 && Mutual(edges, f, h))) {
        assert h in members <==> h in before || (h == g && g != f && Mutual(edges, f, g));
      }
    }
  }

  lemma MembersAreCycle(edges: Edges, members: seq<FuncId>, f: FuncId)
    requires |members| > 1 && Flow.Distinct(members)
    requires forall g: FuncId :: g in members <==> g < |edges| && (g == f || Mutual(edges, f, g))
    ensures IsCycle(edges, members)
  {
    forall x, g: FuncId | x in members && g < |edges| && g != x ensures g in members <==> Mutual(edges, x, g) {
      SameClass(edges, f, x, g);
    }
  }

  ghost predicate InSome(cycles: seq<seq<FuncId>>, f: FuncId) {
    exists i: nat {:trigger cycles[i]} :: i < |cycles| && f in cycles[i]
  }

  /** Cycles found so far: no two share a function. */
  ghost predicate Found(edges: Edges, cycles: seq<seq<FuncId>>) {
    && (forall i: nat {:trigger cycles[i]} :: i < |cycles| ==> IsCycle(edges, cycles[i]) && forall f ::
      f in cycles[i] ==> f < |edges|)
    && (forall i: nat, j: nat, f {:trigger f in cycles[i], f in cycles[j]} :: i < j < |cycles| && f in cycles[i] ==>
      f !in cycles[j])
  }

  /** The functions in mutual tail recursion, cycle by cycle: each such function in exactly one. */
  method Cycles(edges: Edges) returns (cycles: seq<seq<FuncId>>)
    ensures Found(edges, cycles)
    ensures forall f: FuncId, g: FuncId {:trigger Mutual(edges, f, g)} ::
      f < |edges| && g < |edges| && f != g && Mutual(edges, f, g) ==> InSome(cycles, f)
  {
    var reached: seq<set<FuncId>> := [];
    for f := 0 to |edges|
      invariant |reached| == f && ReachIs(edges, reached, f)
    {
      var seen := Transitive(edges, f);
      reached := reached + [seen];
    }
    cycles := [];
    var placed: set<FuncId> := {};
    for f := 0 to |edges|
      invariant Found(edges, cycles)
      invariant forall h: FuncId {:trigger h in placed} :: h in placed ==> h < f || InSome(cycles, h)
      invariant forall h: FuncId :: InSome(cycles, h) ==> h in placed
      invariant forall h: FuncId, g: FuncId {:trigger Mutual(edges, h, g)} ::
        h < f && g < |edges| && h != g && Mutual(edges, h, g) ==> InSome(cycles, h)
    {
      if f !in placed {
        var members := MembersOf(edges, reached, f);
        if |members| > 1 {
          MembersAreCycle(edges, members, f);
          placed := placed + (set g | g in members);
          AddCycle(edges, cycles, members, f);
          cycles := cycles + [members];
        } else {
          placed := placed + {f};
          assert members == [f];
          forall g: FuncId | g < |edges| && g != f ensures !Mutual(edges, f, g) { assert g !in members; }
        }
      }
    }
  }

  lemma AddCycle(edges: Edges, cycles: seq<seq<FuncId>>, members: seq<FuncId>, f: FuncId)
    requires Found(edges, cycles) && IsCycle(edges, members) && f in members && !InSome(cycles, f)
    requires forall g: FuncId :: g in members <==> g < |edges| && (g == f || Mutual(edges, f, g))
    ensures Found(edges, cycles + [members])
    ensures forall h: FuncId :: InSome(cycles + [members], h) <==> InSome(cycles, h) || h in members
  {
    var all := cycles + [members];
    forall i: nat, x | i < |cycles| && x in cycles[i] ensures x !in members {
      if x in members {
        assert IsCycle(edges, cycles[i]) && f !in cycles[i];
        SameClass(edges, f, x, f);
        assert x != f && Mutual(edges, x, f);
      }
    }
    forall h: FuncId ensures InSome(all, h) <==> InSome(cycles, h) || h in members {
      if InSome(cycles, h) {
        var i: nat :| i < |cycles| && h in cycles[i];
        assert all[i] == cycles[i];
      }
      if h in members { assert all[|cycles|] == members; }
    }
  }
}
