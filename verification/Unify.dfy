/** The unification solver: union-find with ranks and path compression, an occurs check, and
    applications that unify with interned instances.

    The solver's state is read as a set of solutions. `model` is the resolved tree of every
    variable; it is itself a solution, so the state is acyclic, and every other solution is an
    instance of it, so it is the most general one. */
module Unify {
  import Cfg
  import opened Terms

  datatype Result = Ok(ty: InferTy) | Mismatch(left: InferTy, right: InferTy)

  // ---------------------------------------------------------------- what a state means

  /** The representatives once the class of `child` joins that of `keep`. */
  function Redirect(root: seq<VarId>, keep: VarId, child: VarId): (root': seq<VarId>)
    ensures |root'| == |root|
    ensures forall v :: 0 <= v < |root| ==> root'[v] == if root[v] == child then keep else root[v]
  {
    seq(|root|, v requires 0 <= v < |root| => if root[v] == child then keep else root[v])
  }

  /** The constraints a state holds: which variables are one class, and what a class is bound to. */
  datatype Constraints = Constraints(m: Arena, root: seq<VarId>, binding: seq<Option<InferTy>>) {
    ghost predicate Valid() {
      && |binding| == |root| && m.Valid(|root|)
      && (forall v :: 0 <= v < |root| ==> root[v] < |root|)
      && (forall v :: 0 <= v < |root| ==> root[root[v]] == root[v])
      && (forall v :: 0 <= v < |root| && binding[v].Some? ==>
           root[v] == v && !binding[v].value.Var? && InArena(binding[v].value, |m.apps|, |root|))
    }

    ghost predicate In(ty: InferTy) { InArena(ty, |m.apps|, |root|) }

    ghost predicate InAll(left: seq<InferTy>, right: seq<InferTy>) {
      |left| == |right| && forall i :: 0 <= i < |left| ==> In(left[i]) && In(right[i])
    }

    ghost predicate Solves(s: Assignment)
      requires Valid()
    {
      && |s| == |root|
      && (forall v :: 0 <= v < |s| ==> s[v] == s[root[v]])
      && (forall v :: 0 <= v < |s| && binding[v].Some? ==> s[v] == Eval(m, s, binding[v].value))
    }

    /** Unbound classes stand for themselves. */
    ghost predicate Canonical(s: Assignment)
      requires Valid()
    {
      Solves(s) && forall v :: 0 <= v < |s| && Unbound(v) ==> s[v] == Free(v)
    }

    ghost predicate Unbound(v: VarId)
      requires |binding| == |root| && v < |root|
    {
      root[v] == v && binding[v].None?
    }

    ghost function Unknowns(): set<VarId>
      requires |binding| == |root|
    {
      set v: VarId {:trigger root[v]} | 0 <= v < |root| && Unbound(v)
    }

    /** Every solution is the canonical one with its variables replaced. */
    lemma {:induction false} MostGeneral(model: Assignment, s: Assignment, ty: InferTy)
      requires Valid() && Canonical(model) && Solves(s) && In(ty)
      ensures Apply(s, Eval(m, model, ty)) == Eval(m, s, ty)
      decreases Size(Eval(m, model, ty)), if ty.Var? then 2 else 1
    {
      match ty
      case Concrete(t) => ExpandClosed(m, |s|, t, 0, Atom(0), s);
      case Var(v) =>
        var r := root[v];
        if binding[r].Some? { MostGeneral(model, s, binding[r].value); }
      case App(a) => MostGeneralAll(model, s, a, |m.apps[a].args|);
    }

    lemma {:induction false} MostGeneralAll(model: Assignment, s: Assignment, a: AppId, n: nat)
      requires Valid() && Canonical(model) && Solves(s) && a < |m.apps| && n <= |m.apps[a].args|
      ensures ApplyAll(s, EvalAll(m, model, a, n)) == EvalAll(m, s, a, n)
      decreases Size(Eval(m, model, App(a))), 0, n
    {
      if n > 0 {
        var args := EvalAll(m, model, a, |m.apps[a].args|);
        EvalAllAt(m, model, a, |m.apps[a].args|);
        SizeMember(args, n - 1);
        MostGeneralAll(model, s, a, n - 1);
        MostGeneral(model, s, m.apps[a].args[n - 1]);
        assert EvalAll(m, model, a, n)[..n - 1] == EvalAll(m, model, a, n - 1);
      }
    }

    /** A class and a tree it occurs inside have no common solution. */
    lemma NoInfiniteTree(model: Assignment, s: Assignment, v: VarId, ty: InferTy)
      requires Valid() && Canonical(model) && Solves(s) && v < |root| && Unbound(v) && In(ty)
      requires Occurs(v, Eval(m, model, ty)) && Eval(m, model, ty) != Free(v)
      ensures s[v] != Eval(m, s, ty)
    {
      MostGeneral(model, s, ty);
      OccursGrows(s, v, Eval(m, model, ty));
    }

    // -------------------------------------------------------------- the two ways a state grows

    function Bind(v: VarId, ty: InferTy): Constraints
      requires v < |binding|
    {
      this.(binding := binding[v := Cfg.Some(ty)])
    }

    function Merge(keep: VarId, child: VarId): Constraints {
      this.(root := Redirect(root, keep, child))
    }

    ghost function Replace(model: Assignment, v: VarId, image: Term): (s: Assignment)
      ensures |s| == |model| && forall i :: 0 <= i < |s| ==> s[i] == Subst(v, image, model[i])
    {
      seq(|model|, i requires 0 <= i < |model| => Subst(v, image, model[i]))
    }

    lemma BindKeepsModel(model: Assignment, v: VarId, ty: InferTy)
      requires Valid() && Canonical(model) && v < |root| && Unbound(v) && In(ty) && !ty.Var?
      requires !Occurs(v, Eval(m, model, ty))
      ensures Bind(v, ty).Valid()
      ensures Bind(v, ty).Canonical(Replace(model, v, Eval(m, model, ty)))
    {
      var next, image := Bind(v, ty), Eval(m, model, ty);
      var s := Replace(model, v, image);
      forall u | 0 <= u < |s| && next.binding[u].Some? ensures s[u] == Eval(m, s, next.binding[u].value) {
        EvalSubst(m, model, s, v, image, next.binding[u].value);
        if u == v { SubstAbsent(v, image, image); }
      }
      forall u | 0 <= u < |s| && next.Unbound(u) ensures s[u] == Free(u) {
        assert Unbound(u);
      }
    }

    lemma BindSolutions(v: VarId, ty: InferTy)
      requires Valid() && v < |root| && Unbound(v) && In(ty) && !ty.Var? && Bind(v, ty).Valid()
      ensures forall s :: Bind(v, ty).Solves(s) <==> Solves(s) && s[v] == Eval(m, s, ty)
      ensures Bind(v, ty).Unknowns() == Unknowns() - {v} && v in Unknowns()
    {
      var next := Bind(v, ty);
      forall s: Assignment ensures next.Solves(s) <==> Solves(s) && s[v] == Eval(m, s, ty) {
        if next.Solves(s) {
          assert next.binding[v] == Cfg.Some(ty);
          forall u | 0 <= u < |s| && binding[u].Some? ensures s[u] == Eval(m, s, binding[u].value) {
            assert next.binding[u] == binding[u];
          }
        }
      }
      forall u: VarId ensures u in next.Unknowns() <==> u in Unknowns() - {v} {
        if u < |root| { assert next.Unbound(u) <==> Unbound(u) && u != v; }
      }
      assert root[v] == v;
    }

    lemma BindStep(model: Assignment, v: VarId, ty: InferTy)
      requires Valid() && Canonical(model) && v < |root| && Unbound(v) && In(ty) && !ty.Var?
      requires !Occurs(v, Eval(m, model, ty))
      ensures Bind(v, ty).Valid()
      ensures Bind(v, ty).Canonical(Replace(model, v, Eval(m, model, ty)))
      ensures forall s :: Bind(v, ty).Solves(s) <==> Solves(s) && s[v] == Eval(m, s, ty)
      ensures |Bind(v, ty).Unknowns()| < |Unknowns()|
    {
      BindKeepsModel(model, v, ty);
      BindSolutions(v, ty);
      assert |Unknowns() - {v}| < |Unknowns()|;
    }

    lemma MergeKeepsModel(model: Assignment, keep: VarId, child: VarId)
      requires Valid() && Canonical(model) && keep < |root| && child < |root| && keep != child
      requires Unbound(keep) && Unbound(child)
      ensures Merge(keep, child).Valid()
      ensures Merge(keep, child).Canonical(Replace(model, child, Free(keep)))
    {
      var next := Merge(keep, child);
      var s := Replace(model, child, Free(keep));
      forall u | 0 <= u < |s| && next.binding[u].Some? ensures s[u] == Eval(m, s, next.binding[u].value) {
        EvalSubst(m, model, s, child, Free(keep), next.binding[u].value);
      }
      forall u | 0 <= u < |s| ensures s[u] == s[next.root[u]] {
        assert model[u] == model[root[u]];
      }
      forall u | 0 <= u < |s| && next.Unbound(u) ensures s[u] == Free(u) {
        assert Unbound(u);
      }
    }

    lemma MergeStep(model: Assignment, keep: VarId, child: VarId)
      requires Valid() && Canonical(model) && keep < |root| && child < |root| && keep != child
      requires Unbound(keep) && Unbound(child)
      ensures Merge(keep, child).Valid()
      ensures Merge(keep, child).Canonical(Replace(model, child, Free(keep)))
      ensures forall s :: Merge(keep, child).Solves(s) <==> Solves(s) && s[keep] == s[child]
      ensures |Merge(keep, child).Unknowns()| < |Unknowns()|
    {
      MergeKeepsModel(model, keep, child);
      MergeSolutions(keep, child);
      assert |Unknowns() - {child}| < |Unknowns()|;
    }

    lemma MergeSolutions(keep: VarId, child: VarId)
      requires Valid() && keep < |root| && child < |root| && keep != child
      requires Unbound(keep) && Unbound(child) && Merge(keep, child).Valid()
      ensures forall s :: Merge(keep, child).Solves(s) <==> Solves(s) && s[keep] == s[child]
      ensures Merge(keep, child).Unknowns() == Unknowns() - {child} && child in Unknowns()
    {
      var next := Merge(keep, child);
      forall s: Assignment ensures next.Solves(s) <==> Solves(s) && s[keep] == s[child] {
        if next.Solves(s) {
          assert s[child] == s[next.root[child]];
          forall u | 0 <= u < |s| ensures s[u] == s[root[u]] {
            assert s[u] == s[next.root[u]];
          }
        }
        if Solves(s) && s[keep] == s[child] {
          forall u | 0 <= u < |s| ensures s[u] == s[next.root[u]] {
            assert s[u] == s[root[u]];
          }
        }
      }
      forall u: VarId ensures u in next.Unknowns() <==> u in Unknowns() - {child} {
        if u < |root| { assert next.Unbound(u) <==> Unbound(u) && u != child; }
      }
      assert root[child] == child;
    }
  }

  // ---------------------------------------------------------------- union-find

  const MAX_VARS: nat := 0x1_0000_0000

  function Pow2(r: nat): nat { if r == 0 then 1 else 2 * Pow2(r - 1) }

  lemma {:induction false} Pow2Grows(r: nat, n: nat)
    requires Pow2(r) <= n
    ensures r < n
  {
    if r > 0 {
      Pow2Positive(r - 1);
      Pow2Grows(r - 1, n - 1);
    }
  }

  lemma {:induction false} Pow2Positive(r: nat)
    ensures Pow2(r) >= 1
  {
    if r > 0 { Pow2Positive(r - 1); }
  }

  lemma {:induction false} Pow2Adds(r: nat, s: nat)
    ensures Pow2(r + s) == Pow2(r) * Pow2(s)
  {
    if s > 0 { Pow2Adds(r, s - 1); }
  }

  lemma {:induction false} Pow2Order(r: nat, s: nat)
    requires r < s
    ensures 2 * Pow2(r) <= Pow2(s)
  {
    if r + 1 < s { Pow2Order(r, s - 1); }
  }

  lemma Pow2Of32()
    ensures Pow2(32) == MAX_VARS
  {
    assert Pow2(4) == 16;
    Pow2Adds(4, 4);
    Pow2Adds(8, 8);
    Pow2Adds(16, 16);
  }

  ghost function Class(root: seq<VarId>, r: VarId): set<VarId> {
    set v: VarId {:trigger root[v]} | 0 <= v < |root| && root[v] == r
  }

  lemma ClassBounded(root: seq<VarId>, r: VarId)
    ensures |Class(root, r)| <= |root|
  {
    BoundedSet(Class(root, r), |root|);
  }

  lemma {:induction false} BoundedSet(s: set<VarId>, n: nat)
    requires forall v :: v in s ==> v < n
    ensures |s| <= n
  {
    if n > 0 {
      BoundedSet(s - {n - 1}, n - 1);
      if n - 1 in s { assert s == (s - {n - 1}) + {n - 1}; } else { assert s == s - {n - 1}; }
    } else {
      assert s == {};
    }
  }

  /** `parent` is a forest whose trees are the classes of `root`. Ranks rise towards the root, and
      a root of rank r has at least two to the r members. */
  ghost predicate Ranked(parent: seq<VarId>, rank: seq<nat>, root: seq<VarId>) {
    && |parent| == |rank| == |root| <= MAX_VARS
    && (forall v {:trigger Linked(parent, rank, root, v)} :: 0 <= v < |root| ==> Linked(parent, rank, root, v))
    && (forall v {:trigger Populous(rank, root, v)} :: 0 <= v < |root| && root[v] == v ==> Populous(rank, root, v))
  }

  ghost predicate Populous(rank: seq<nat>, root: seq<VarId>, v: VarId)
    requires v < |rank|
  {
    Pow2(rank[v]) <= |Class(root, v)|
  }

  ghost predicate Linked(parent: seq<VarId>, rank: seq<nat>, root: seq<VarId>, v: VarId)
    requires v < |parent| == |rank| == |root|
  {
    && root[v] < |root| && root[root[v]] == root[v]
    && parent[v] < |root| && root[parent[v]] == root[v]
    && (parent[v] == v <==> root[v] == v)
    && rank[v] < |root|
    && (parent[v] != v ==> rank[v] < rank[parent[v]])
  }

  /** With 32-bit variable ids a rank never passes 32, far below where its byte would saturate. */
  lemma RankIsSmall(parent: seq<VarId>, rank: seq<nat>, root: seq<VarId>, r: VarId)
    requires Ranked(parent, rank, root) && r < |root| && root[r] == r
    ensures rank[r] <= 32
  {
    assert Populous(rank, root, r);
    ClassBounded(root, r);
    if rank[r] > 32 {
      Pow2Order(32, rank[r]);
      Pow2Of32();
    }
  }

  /** The rank of a root that takes on another of the same rank; a byte, so it would stop at 255. */
  function RankAfter(rank: seq<nat>, top: VarId, rise: bool): seq<nat>
    requires top < |rank|
  {
    if rise then rank[top := if rank[top] < 255 then rank[top] + 1 else 255] else rank
  }

  lemma LinkStep(c: Constraints, model: Assignment, parent: seq<VarId>, rank: seq<nat>, top: VarId, child: VarId,
      rise: bool)
    requires Ranked(parent, rank, c.root) && c.Valid() && c.Canonical(model) && top < |parent| && child < |parent|
      && top != child
    requires c.Unbound(top) && c.Unbound(child) && rank[child] <= rank[top] && (rise <==> rank[child] == rank[top])
    ensures Ranked(parent[child := top], RankAfter(rank, top, rise), Redirect(c.root, top, child))
    ensures c.Merge(top, child).Valid() && c.Merge(top, child).Canonical(c.Replace(model, child, Free(top)))
    ensures forall s :: c.Merge(top, child).Solves(s) <==> c.Solves(s) && s[top] == s[child]
    ensures |c.Merge(top, child).Unknowns()| < |c.Unknowns()|
  {
    RankIsSmall(parent, rank, c.root, top);
    LinkKeepsRanks(parent, rank, c.root, top, child, RankAfter(rank, top, rise));
    c.MergeStep(model, top, child);
  }

  lemma MergedClasses(root: seq<VarId>, keep: VarId, child: VarId)
    requires keep != child
    ensures |Class(Redirect(root, keep, child), keep)| == |Class(root, keep)| + |Class(root, child)|
    ensures forall r {:trigger Class(Redirect(root, keep, child), r)} :: r != keep && r != child ==>
      Class(Redirect(root, keep, child), r) == Class(root, r)
  {
    var root' := Redirect(root, keep, child);
    assert Class(root', keep) == Class(root, keep) + Class(root, child);
    assert Class(root, keep) !! Class(root, child);
    forall r | r != keep && r != child ensures Class(root', r) == Class(root, r) {
      assert forall v :: v in Class(root', r) <==> v in Class(root, r);
    }
  }

  /** Linking one root below another of at least its rank. */
  lemma LinkKeepsRanks(parent: seq<VarId>, rank: seq<nat>, root: seq<VarId>, keep: VarId, child: VarId, rank': seq<nat>)
    requires Ranked(parent, rank, root) && keep < |root| && child < |root| && keep != child
    requires root[keep] == keep && root[child] == child && rank[child] <= rank[keep]
    requires rank' == if rank[child] == rank[keep] then rank[keep := rank[keep] + 1] else rank
    ensures Ranked(parent[child := keep], rank', Redirect(root, keep, child))
  {
    var parent', root' := parent[child := keep], Redirect(root, keep, child);
    assert Populous(rank, root, keep) && Populous(rank, root, child);
    MergedClasses(root, keep, child);
    assert Populous(rank', root', keep);
    ClassBounded(root', keep);
    Pow2Grows(rank'[keep], |root|);
    forall v: VarId | v < |root| ensures Linked(parent', rank', root', v) {
      assert Linked(parent, rank, root, v);
    }
    forall v: VarId | v < |root| && root'[v] == v ensures Populous(rank', root', v) {
      assert Linked(parent, rank, root, v);
      if v != keep { assert Populous(rank, root, v); }
    }
  }

  /** Of two classes the one on top names both, by its own declared name or else by the other's. */
  ghost predicate Relabelled(before: seq<Option<SymbolId>>, after: seq<Option<SymbolId>>, left: VarId, right: VarId,
      top: VarId) {
    && left < |before| && right < |before| && (top == left || top == right)
    && after == before[top := if before[top].Some? then before[top] else before[if top == left then right else left]]
  }

  // ---------------------------------------------------------------- the solver

  class InferState {
    var parent: seq<VarId>
    var rank: seq<nat>
    var binding: seq<Option<InferTy>>
    var labels: seq<Option<SymbolId>>
    var apps: seq<AppTy>
    var instanceShape: map<TypeId, Shape>

    /** The class representative of every variable, and the tree it resolves to. */
    ghost var root: seq<VarId>
    ghost var model: Assignment

    ghost function Held(): Constraints
      reads this
    {
      Constraints(Arena(apps, instanceShape), root, binding)
    }

    ghost predicate Valid()
      reads this
    {
      && |labels| == |parent|
      && Ranked(parent, rank, root)
      && Held().Valid()
      && Held().Canonical(model)
    }

    ghost predicate In(ty: InferTy)
      reads this
    {
      InArena(ty, |apps|, |parent|)
    }

    /** The tree a type resolves to. */
    ghost function Tree(ty: InferTy): Term
      requires Valid() && In(ty)
      reads this
    {
      Eval(Held().m, model, ty)
    }

    constructor (shapes: map<TypeId, Shape>)
      requires Arena([], shapes).Valid(0)
      ensures Valid() && parent == [] && apps == [] && instanceShape == shapes
    {
      parent, rank, binding, labels, apps := [], [], [], [], [];
      instanceShape := shapes;
      root, model := [], [];
    }

    method FreshVar() returns (v: VarId)
      requires Valid() && |parent| < MAX_VARS
      modifies `parent, `rank, `labels, `binding, `root, `model
      ensures Valid() && v == old(|parent|) && |parent| == v + 1 && labels == old(labels) + [Cfg.None]
      ensures Held().Unbound(v)
      ensures forall s, t :: Solves(s + [t]) <==> old(Held()).Solves(s)
      ensures forall ty :: old(In(ty)) ==> In(ty) && Tree(ty) == old(Tree(ty))
    {
      v := |parent|;
      ghost var before, was := Held(), model;
      FreshKeepsRanks(parent, rank, root);
      parent, rank, labels := parent + [v], rank + [0], labels + [Cfg.None];
      binding := binding + [Cfg.None];
      root, model := root + [v], model + [Free(v)];
      FreshSolutions(before, Held());
      forall ty | before.In(ty) ensures Eval(Held().m, model, ty) == Eval(before.m, was, ty) {
        EvalExtends(before.m, was, Free(v), ty);
      }
    }

    /** Records an application. It stands for the named type over what its arguments stand for, now and
        in every solution; nothing else the state says changes. */
    method MakeApp(name: SymbolId, args: seq<InferTy>) returns (ty: InferTy)
      requires Valid() && Held().InAll(args, args)
      modifies `apps
      ensures Valid() && ty == App(old(|apps|)) && In(ty)
      ensures Tree(ty).Node? && Tree(ty).name == name && |Tree(ty).args| == |args|
      ensures forall i :: 0 <= i < |args| ==> Tree(ty).args[i] == old(Tree(args[i]))
      ensures forall s :: Solves(s) ==> Eval(Held().m, s, ty) == Node(name, EvalEach(old(Held()).m, s, args))
      ensures forall s :: Solves(s) <==> old(Held()).Solves(s)
      ensures forall t :: old(In(t)) ==> In(t) && Tree(t) == old(Tree(t))
    {
      ghost var before := Held();
      ty := App(|apps|);
      apps := apps + [AppTy(name, args)];
      MoreApps(before, Held(), AppTy(name, args));
      forall t | before.In(t) ensures Eval(Held().m, model, t) == Eval(before.m, model, t) {
        EvalMoreApps(before.m, Held().m, model, t);
      }
      forall s | before.Solves(s) ensures Eval(Held().m, s, ty) == Node(name, EvalEach(before.m, s, args)) {
        EvalNewApp(before.m, Held().m, s, AppTy(name, args));
      }
    }

    /** The variable is on the way from `v` to its root. */
    ghost predicate OnTheWay(v: VarId, u: VarId)
      requires Ranked(parent, rank, root) && v < |parent|
      reads this`parent, this`rank, this`root
      decreases |parent| - rank[v]
    {
      assert Linked(parent, rank, root, v);
      u == v || (parent[v] != v && OnTheWay(parent[v], u))
    }

    /** Walks to the root of a class, pointing every variable on the way straight at it. */
    method Find(v: VarId) returns (r: VarId)
      requires Valid() && v < |parent|
      modifies `parent
      ensures Valid() && |parent| == old(|parent|)
      ensures r == root[v] && forall u :: 0 <= u < |parent| && old(OnTheWay(v, u)) ==> parent[u] == r
      ensures v != r ==> rank[v] < rank[r]
      ensures forall u :: 0 <= u < |parent| ==> parent[u] == old(parent[u]) || parent[u] == root[u]
      decreases |parent| - rank[v]
    {
      assert Linked(parent, rank, root, v);
      assert OnTheWay(v, v);
      if parent[v] == v { return v; }
      var up := parent[v];
      r := Find(up);
      ghost var before := parent;
      parent := parent[v := r];
      forall u: VarId | u < |parent| ensures Linked(parent, rank, root, u) {
        assert Linked(before, rank, root, u);
        assert Linked(before, rank, root, up);
      }
    }

    /** Follows bindings to an interned type, an unbound class root, or an application. */
    method Resolve(ty: InferTy) returns (r: InferTy)
      requires Valid() && In(ty)
      modifies `parent
      ensures Valid() && |parent| == old(|parent|) && In(r)
      ensures r.Var? ==> Held().Unbound(r.v)
      ensures !ty.Var? ==> r == ty
      ensures forall s :: Held().Solves(s) ==> Eval(Held().m, s, r) == Eval(Held().m, s, ty)
      decreases if ty.Var? then 1 else 0
    {
      match ty
      case Concrete(_) => return ty;
      case App(_) => return ty;
      case Var(v) =>
        var top := Find(v);
        match binding[top]
        case Some(bound) =>
          r := Resolve(bound);
        case None =>
          r := Var(top);
    }

    /** Whether an unbound class occurs in the tree a type resolves to. */
    method OccursIn(v: VarId, ty: InferTy) returns (found: bool)
      requires Valid() && v < |parent| && Held().Unbound(v) && In(ty)
      modifies `parent
      ensures Valid() && |parent| == old(|parent|)
      ensures found <==> Occurs(v, Tree(ty))
      decreases Size(Tree(ty)), 1
    {
      var head := Resolve(ty);
      assert Tree(head) == Tree(ty);
      match head
      case Concrete(t) =>
        ExpandClosed(Held().m, |model|, t, v, Atom(0), model);
        return false;
      case Var(u) =>
        return u == v;
      case App(a) =>
        found := OccursInArguments(v, a);
    }

    method OccursInArguments(v: VarId, a: AppId) returns (found: bool)
      requires Valid() && v < |parent| && Held().Unbound(v) && a < |apps|
      modifies `parent
      ensures Valid() && |parent| == old(|parent|)
      ensures found <==> Occurs(v, Tree(App(a)))
      decreases Size(Tree(App(a))), 0
    {
      var args := apps[a].args;
      ghost var trees := EvalAll(Held().m, model, a, |args|);
      EvalAllAt(Held().m, model, a, |args|);
      OccursMember(v, trees);
      for i := 0 to |args|
        invariant Valid() && |parent| == old(|parent|)
        invariant forall k :: 0 <= k < i ==> !Occurs(v, trees[k])
      {
        SizeMember(trees, i);
        var here := OccursIn(v, args[i]);
        if here { return true; }
      }
      return false;
    }

    ghost predicate Solves(s: Assignment)
      requires Held().Valid()
      reads this
    {
      Held().Solves(s)
    }

    /** Joins two classes, the lower-ranked root below the other. The joined class goes by a declared name if
        either did. */
    method UnionVars(left: VarId, right: VarId) returns (r: InferTy)
      requires Valid() && left < |parent| && right < |parent|
      requires Held().Unbound(root[left]) && Held().Unbound(root[right])
      modifies `parent, `rank, `labels, `root, `model
      ensures Valid() && |parent| == old(|parent|)
      ensures r.Var? && r.v < |parent|
      ensures forall s :: Solves(s) <==> old(Held()).Solves(s) && s[left] == s[right]
      ensures forall s :: Solves(s) ==> s[r.v] == s[left]
      ensures if old(root[left] == root[right]) then Held() == old(Held()) && model == old(model)
              else |Held().Unknowns()| < |old(Held()).Unknowns()|
      ensures Relabelled(old(labels), labels, old(root[left]), old(root[right]), r.v)
    {
      var leftRoot := Find(left);
      var rightRoot := Find(right);
      if leftRoot == rightRoot { return Var(leftRoot); }
      var top, child := leftRoot, rightRoot;
      var rise := false;
      if rank[leftRoot] < rank[rightRoot] {
        top, child := rightRoot, leftRoot;
      } else if rank[leftRoot] == rank[rightRoot] {
        rise := true;
      }
      Link(top, child, rise);
      r := Var(top);
    }

    method Link(top: VarId, child: VarId, rise: bool)
      requires Valid() && top < |parent| && child < |parent| && top != child
      requires Held().Unbound(top) && Held().Unbound(child)
      requires rank[child] <= rank[top] && (rise <==> rank[child] == rank[top])
      modifies `parent, `rank, `labels, `root, `model
      ensures Valid() && |parent| == old(|parent|)
      ensures forall s :: Solves(s) <==> old(Held()).Solves(s) && s[top] == s[child]
      ensures |Held().Unknowns()| < |old(Held()).Unknowns()|
      ensures labels == old(labels[top := if labels[top].None? then labels[child] else labels[top]])
    {
      ghost var before := Held();
      LinkStep(before, model, parent, rank, top, child, rise);
      rank := RankAfter(rank, top, rise);
      parent := parent[child := top];
      root, model := Redirect(root, top, child), before.Replace(model, child, Free(top));
      assert Held() == before.Merge(top, child);
      assert Ranked(parent, rank, root) && Held().Valid();
      labels := labels[top := if labels[top].None? then labels[child] else labels[top]];
    }

    /** Binds an unbound class to a tree it does not occur in. */
    method BindVar(v: VarId, ty: InferTy)
      requires Valid() && v < |parent| && Held().Unbound(v) && In(ty) && !ty.Var?
      requires !Occurs(v, Tree(ty))
      modifies `binding, `model
      ensures Valid() && |parent| == old(|parent|)
      ensures forall s :: Solves(s) <==> old(Held()).Solves(s) && s[v] == Eval(Held().m, s, ty)
      ensures |Held().Unknowns()| < |old(Held()).Unknowns()|
    {
      ghost var before := Held();
      before.BindStep(model, v, ty);
      model := before.Replace(model, v, Tree(ty));
      binding := binding[v := Cfg.Some(ty)];
      assert Held() == before.Bind(v, ty);
    }

    /** Makes two types equal. It succeeds exactly when some assignment that solves the present
        state makes them equal, and then keeps exactly those assignments. When it fails, the
        bindings it made on the way stay. */
    method Unify(left: InferTy, right: InferTy) returns (r: Result)
      requires Valid() && In(left) && In(right)
      modifies `parent, `rank, `labels, `binding, `root, `model
      ensures Valid() && |parent| == old(|parent|)
      ensures r.Ok? ==> In(r.ty) && Unified(old(Held()), Held(), left, right)
      ensures r.Ok? ==> Tree(left) == Tree(right) == Tree(r.ty)
      ensures r.Ok? <==> exists s ::
        old(Held()).Solves(s) && Eval(old(Held()).m, s, left) == Eval(old(Held()).m, s, right)
      ensures r.Mismatch? ==> NoSolution(old(Held()), left, right) && Narrowed(old(Held()), Held())
      ensures r.Mismatch? ==> Blamed(Held(), model, left, right, r.left, r.right)
      ensures Progress(old(Held()), old(model), Held(), model)
      decreases |Held().Unknowns()|, Size(Tree(left)) + Size(Tree(right)), 1
    {
      ghost var before := Held();
      var l := Resolve(left);
      var k := Resolve(right);
      assert Tree(l) == Tree(left) && Tree(k) == Tree(right);
      r := UnifyHeads(l, k);
      Transfer(before, Held(), left, right, l, k, r.Ok?);
    }

    /** As `Unify`, on types that are already resolved to their heads. */
    method UnifyHeads(l: InferTy, k: InferTy) returns (r: Result)
      requires Valid() && In(l) && In(k)
      requires (l.Var? ==> Held().Unbound(l.v)) && (k.Var? ==> Held().Unbound(k.v))
      modifies `parent, `rank, `labels, `binding, `root, `model
      ensures Valid() && |parent| == old(|parent|)
      ensures r.Ok? ==> In(r.ty) && Unified(old(Held()), Held(), l, k) && Tree(r.ty) == Tree(l)
      ensures r.Mismatch? ==> NoSolution(old(Held()), l, k) && Narrowed(old(Held()), Held())
      ensures r.Mismatch? ==> Blamed(Held(), model, l, k, r.left, r.right)
      ensures Progress(old(Held()), old(model), Held(), model)
      decreases |Held().Unknowns()|, Size(Tree(l)) + Size(Tree(k)), 0, 3
    {
      match (l, k) {
        case (Concrete(a), Concrete(b)) =>
          InstancesEqual(Held(), a, b);
          r := if a == b then Ok(l) else Mismatch(l, k);
        case (Var(a), _) =>
          r := UnifyFree(a, k);
        case (_, Var(b)) =>
          r := UnifyVar(b, l);
          if r.Mismatch? { BlamedFlips(Held(), model, k, l, r.left, r.right); }
        case _ =>
          r := UnifyShapes(l, k);
      }
    }

    /** An unbound variable and any head. */
    method UnifyFree(a: VarId, k: InferTy) returns (r: Result)
      requires Valid() && a < |parent| && In(k) && Held().Unbound(a) && (k.Var? ==> Held().Unbound(k.v))
      modifies `parent, `rank, `labels, `binding, `root, `model
      ensures Valid() && |parent| == old(|parent|)
      ensures r.Ok? ==> In(r.ty) && Unified(old(Held()), Held(), Var(a), k) && Tree(r.ty) == Tree(Var(a))
      ensures r.Mismatch? ==> NoSolution(old(Held()), Var(a), k) && Narrowed(old(Held()), Held())
      ensures r.Mismatch? ==> Blamed(Held(), model, Var(a), k, r.left, r.right)
      ensures Progress(old(Held()), old(model), Held(), model)
    {
      if k.Var? {
        var joined := UnionVars(a, k.v);
        r := Ok(joined);
      } else {
        r := UnifyVar(a, k);
      }
    }

    /** Two types that are not variables, not both instances. */
    method UnifyShapes(l: InferTy, k: InferTy) returns (r: Result)
      requires Valid() && In(l) && In(k) && !l.Var? && !k.Var? && (l.App? || k.App?)
      modifies `parent, `rank, `labels, `binding, `root, `model
      ensures Valid() && |parent| == old(|parent|)
      ensures r.Ok? ==> In(r.ty) && Unified(old(Held()), Held(), l, k) && Tree(r.ty) == Tree(l)
      ensures r.Mismatch? ==> NoSolution(old(Held()), l, k) && Narrowed(old(Held()), Held())
      ensures r.Mismatch? ==> Blamed(Held(), model, l, k, r.left, r.right)
      ensures Progress(old(Held()), old(model), Held(), model)
      decreases |Held().Unknowns()|, Size(Tree(l)) + Size(Tree(k)), 0, 2
    {
      match (l, k) {
        case (App(a), App(b)) =>
          r := UnifyApps(a, b);
        case (App(a), Concrete(b)) =>
          r := UnifyAppWithInstance(a, b);
        case (Concrete(a), App(b)) =>
          r := UnifyAppWithInstance(b, a);
          if r.Mismatch? { BlamedFlips(Held(), model, k, l, r.left, r.right); }
      }
    }

    method UnifyVar(v: VarId, ty: InferTy) returns (r: Result)
      requires Valid() && v < |parent| && Held().Unbound(v) && In(ty) && !ty.Var?
      modifies `parent, `binding, `model
      ensures Valid() && |parent| == old(|parent|)
      ensures r.Ok? ==> r.ty == ty && Unified(old(Held()), Held(), Var(v), ty)
      ensures r.Mismatch? ==> NoSolution(old(Held()), Var(v), ty) && Narrowed(old(Held()), Held())
      ensures r.Mismatch? ==> Blamed(Held(), model, Var(v), ty, r.left, r.right)
      ensures Progress(old(Held()), old(model), Held(), model)
    {
      var loops := OccursIn(v, ty);
      if loops {
        forall s | Held().Solves(s) ensures s[v] != Eval(Held().m, s, ty) {
          Held().NoInfiniteTree(model, s, v, ty);
        }
        return Mismatch(Var(v), ty);
      }
      BindVar(v, ty);
      return Ok(ty);
    }

    method UnifyApps(left: AppId, right: AppId) returns (r: Result)
      requires Valid() && left < |apps| && right < |apps|
      modifies `parent, `rank, `labels, `binding, `root, `model
      ensures Valid() && |parent| == old(|parent|)
      ensures r.Ok? ==> r.ty == App(left) && Unified(old(Held()), Held(), App(left), App(right))
      ensures r.Mismatch? ==> NoSolution(old(Held()), App(left), App(right)) && Narrowed(old(Held()), Held())
      ensures r.Mismatch? ==> Blamed(Held(), model, App(left), App(right), r.left, r.right)
      ensures Progress(old(Held()), old(model), Held(), model)
      decreases |Held().Unknowns()|, Size(Tree(App(left))) + Size(Tree(App(right))), 0, 1
    {
      var leftApp, rightApp := apps[left], apps[right];
      if leftApp.name != rightApp.name || |leftApp.args| != |rightApp.args| {
        return Mismatch(App(left), App(right));
      }
      ghost var before := Held();
      ArgumentSizes(before.m, model, left);
      ArgumentSizes(before.m, model, right);
      r := UnifyArguments(leftApp.args, rightApp.args, Size(Tree(App(left))) + Size(Tree(App(right))));
      forall s | before.Solves(s) ensures Eval(before.m, s, App(left)) == Eval(before.m, s, App(right))
        <==> SameArguments(before.m, s, leftApp.args, rightApp.args, |leftApp.args|)
      {
        AppsEqual(before.m, s, left, right);
      }
      if r.Mismatch? {
        BlameArguments(Held(), model, App(left), App(right), leftApp.args, rightApp.args, r.left, r.right);
      }
      if r.Ok? { r := Ok(App(left)); }
    }

    /** Takes an instance apart through its recorded arguments. */
    method UnifyAppWithInstance(app: AppId, instance: TypeId) returns (r: Result)
      requires Valid() && app < |apps|
      modifies `parent, `rank, `labels, `binding, `root, `model
      ensures Valid() && |parent| == old(|parent|)
      ensures r.Ok? ==> r.ty == Concrete(instance) && Unified(old(Held()), Held(), App(app), Concrete(instance))
      ensures r.Mismatch? ==> NoSolution(old(Held()), App(app), Concrete(instance)) && Narrowed(old(Held()), Held())
      ensures r.Mismatch? ==> Blamed(Held(), model, App(app), Concrete(instance), r.left, r.right)
      ensures Progress(old(Held()), old(model), Held(), model)
      decreases |Held().Unknowns()|, Size(Tree(App(app))) + Size(Tree(Concrete(instance))), 0, 1
    {
      if instance !in instanceShape { return Mismatch(App(app), Concrete(instance)); }
      var shape, pending := instanceShape[instance], apps[app];
      if pending.name != shape.name || |pending.args| != |shape.args| {
        return Mismatch(App(app), Concrete(instance));
      }
      ghost var before := Held();
      var args := seq(|shape.args|, i requires 0 <= i < |shape.args| => Concrete(shape.args[i]));
      ArgumentSizes(before.m, model, app);
      InstanceSizes(before.m, |model|, instance);
      r := UnifyArguments(pending.args, args, Size(Tree(App(app))) + Size(Tree(Concrete(instance))));
      InstanceDecided(before, Held(), app, instance, args, r.Ok?);
      if r.Mismatch? {
        BlameArguments(Held(), model, App(app), Concrete(instance), pending.args, args, r.left, r.right);
      }
      if r.Ok? { r := Ok(Concrete(instance)); }
    }

    method UnifyArguments(left: seq<InferTy>, right: seq<InferTy>, ghost bound: nat) returns (r: Result)
      requires Valid() && Held().InAll(left, right)
      requires forall i :: 0 <= i < |left| ==> Size(Tree(left[i])) + Size(Tree(right[i])) < bound
      modifies `parent, `rank, `labels, `binding, `root, `model
      ensures Valid() && |parent| == old(|parent|)
      ensures r.Ok? ==> UnifiedUpTo(old(Held()), Held(), left, right, |left|)
      ensures r.Mismatch? ==> NoCommonSolution(old(Held()), left, right) && Narrowed(old(Held()), Held())
      ensures r.Mismatch? ==> BlamedAmong(Held(), model, left, right, r.left, r.right)
      ensures Progress(old(Held()), old(model), Held(), model)
      decreases |Held().Unknowns()|, bound, 0, 0
    {
      ghost var before, was := Held(), model;
      for i := 0 to |left|
        invariant Valid() && |parent| == old(|parent|) && Progress(before, was, Held(), model)
        invariant UnifiedUpTo(before, Held(), left, right, i)
      {
        ghost var now := Held();
        assert In(left[i]) && In(right[i]);
        r := Unify(left[i], right[i]);
        NextArgument(before, now, Held(), left, right, i, r.Ok?);
        if r.Mismatch? { return; }
      }
      r := Ok(Concrete(0));
    }
  }

  lemma FreshKeepsRanks(parent: seq<VarId>, rank: seq<nat>, root: seq<VarId>)
    requires Ranked(parent, rank, root) && |root| < MAX_VARS
    ensures Ranked(parent + [|root|], rank + [0], root + [|root|])
  {
    var n := |root|;
    var parent', rank', root' := parent + [n], rank + [0], root + [n];
    forall v: VarId | v <= n ensures Linked(parent', rank', root', v) {
      if v < n { assert Linked(parent, rank, root, v); }
    }
    forall v: VarId | v <= n && root'[v] == v ensures Populous(rank', root', v) {
      if v < n {
        assert Populous(rank, root, v);
        assert Class(root', v) == Class(root, v);
      } else {
        forall u: VarId | u < n ensures root[u] != n { assert Linked(parent, rank, root, u); }
        assert Class(root', n) == {n};
      }
    }
  }

  lemma FreshSolutions(before: Constraints, after: Constraints)
    requires before.Valid() && after.m == before.m
    requires after.root == before.root + [|before.root|] && after.binding == before.binding + [Cfg.None]
    ensures after.Valid()
    ensures forall s, t :: after.Solves(s + [t]) <==> before.Solves(s)
  {
    forall s: Assignment, t ensures after.Solves(s + [t]) <==> before.Solves(s) {
      if |s| == |before.root| {
        forall v: VarId | v < |s| && before.binding[v].Some?
          ensures Eval(after.m, s + [t], after.binding[v].value) == Eval(before.m, s, before.binding[v].value)
        {
          EvalExtends(before.m, s, t, before.binding[v].value);
        }
        if after.Solves(s + [t]) {
          forall v: VarId | v < |s| ensures s[v] == s[before.root[v]] {
            assert (s + [t])[v] == (s + [t])[after.root[v]];
          }
          forall v: VarId | v < |s| && before.binding[v].Some?
            ensures s[v] == Eval(before.m, s, before.binding[v].value)
          {
            assert after.binding[v] == before.binding[v];
          }
        }
      }
    }
  }

  lemma MoreApps(before: Constraints, after: Constraints, app: AppTy)
    requires before.Valid() && after.root == before.root && after.binding == before.binding
    requires after.m == before.m.(apps := before.m.apps + [app])
    requires forall i :: 0 <= i < |app.args| ==> before.In(app.args[i])
    ensures after.Valid()
    ensures forall s :: after.Solves(s) <==> before.Solves(s)
  {
    forall s: Assignment ensures after.Solves(s) <==> before.Solves(s) {
      if |s| == |before.root| {
        forall v: VarId | v < |s| && before.binding[v].Some?
          ensures Eval(after.m, s, before.binding[v].value) == Eval(before.m, s, before.binding[v].value)
        {
          EvalMoreApps(before.m, after.m, s, before.binding[v].value);
        }
      }
    }
  }

  // ---------------------------------------------------------------- what a call promises

  ghost predicate Comparable(before: Constraints, after: Constraints) {
    before.Valid() && after.Valid() && before.m == after.m && |before.root| == |after.root|
  }

  /** The new solutions are the old ones that make the two types equal. */
  ghost predicate Unified(before: Constraints, after: Constraints, left: InferTy, right: InferTy) {
    && Comparable(before, after) && before.In(left) && before.In(right)
    && forall s :: after.Solves(s) <==> before.Solves(s) && Eval(before.m, s, left) == Eval(before.m, s, right)
  }

  /** No solution of the state makes the two types equal. */
  ghost predicate NoSolution(before: Constraints, left: InferTy, right: InferTy) {
    && before.Valid() && before.In(left) && before.In(right)
    && forall s :: before.Solves(s) ==> Eval(before.m, s, left) != Eval(before.m, s, right)
  }

  ghost predicate Narrowed(before: Constraints, after: Constraints) {
    Comparable(before, after) && forall s :: after.Solves(s) ==> before.Solves(s)
  }

  /** Walking down two trees in step comes to the two given ones, whichever side each is on. */
  ghost predicate Facing(left: Term, right: Term, a: Term, b: Term) {
    || (left == a && right == b)
    || (left == b && right == a)
    || (left.Node? && right.Node? && left.name == right.name && |left.args| == |right.args|
        && exists i :: 0 <= i < |left.args| && Facing(left.args[i], right.args[i], a, b))
  }

  /** Two heads nothing can make equal. */
  ghost predicate Clash(held: Constraints, model: Assignment, a: InferTy, b: InferTy)
    requires held.Valid() && |model| == |held.root| && held.In(a) && held.In(b)
  {
    match (a, b)
    case (Concrete(x), Concrete(y)) => x != y
    case (Var(v), _) => !b.Var? && held.Unbound(v) && Occurs(v, Eval(held.m, model, b))
    case (App(x), App(y)) =>
      held.m.apps[x].name != held.m.apps[y].name || |held.m.apps[x].args| != |held.m.apps[y].args|
    case (App(x), Concrete(y)) =>
      y in held.m.shapes ==>
        held.m.apps[x].name != held.m.shapes[y].name || |held.m.apps[x].args| != |held.m.shapes[y].args|
    case _ => false
  }

  /** What a mismatch names: two types that clash, facing each other inside the two that were to be made equal. */
  ghost predicate Blamed(held: Constraints, model: Assignment, left: InferTy, right: InferTy, a: InferTy, b: InferTy) {
    && held.Valid() && held.Canonical(model)
    && held.In(left) && held.In(right) && held.In(a) && held.In(b)
    && Clash(held, model, a, b)
    && Facing(Eval(held.m, model, left), Eval(held.m, model, right), Eval(held.m, model, a), Eval(held.m, model, b))
  }

  lemma BlamedFlips(held: Constraints, model: Assignment, left: InferTy, right: InferTy, a: InferTy, b: InferTy)
    requires Blamed(held, model, left, right, a, b)
    ensures Blamed(held, model, right, left, a, b)
  {
    FacingFlips(Eval(held.m, model, left), Eval(held.m, model, right), Eval(held.m, model, a), Eval(held.m, model, b));
  }

  lemma {:induction false} FacingFlips(left: Term, right: Term, a: Term, b: Term)
    requires Facing(left, right, a, b)
    ensures Facing(right, left, a, b)
  {
    if !(left == a && right == b) && !(left == b && right == a) {
      var i :| 0 <= i < |left.args| && Facing(left.args[i], right.args[i], a, b);
      FacingFlips(left.args[i], right.args[i], a, b);
    }
  }

  ghost predicate BlamedAmong(held: Constraints, model: Assignment, left: seq<InferTy>, right: seq<InferTy>,
      a: InferTy, b: InferTy) {
    |left| == |right| && exists i :: 0 <= i < |left| && Blamed(held, model, left[i], right[i], a, b)
  }

  /** A clash inside the arguments is a clash inside the two types. */
  lemma BlameArguments(held: Constraints, model: Assignment, left: InferTy, right: InferTy, ls: seq<InferTy>,
      rs: seq<InferTy>, a: InferTy, b: InferTy)
    requires BlamedAmong(held, model, ls, rs, a, b) && held.In(left) && held.In(right)
    requires left.App? && ls == held.m.apps[left.app].args
    requires match right
             case App(k) => rs == held.m.apps[k].args && held.m.apps[k].name == held.m.apps[left.app].name
             case Concrete(t) => t in held.m.shapes && held.m.shapes[t].name == held.m.apps[left.app].name
               && |rs| == |held.m.shapes[t].args|
               && forall i :: 0 <= i < |rs| ==> rs[i] == Concrete(held.m.shapes[t].args[i])
             case Var(_) => false
    ensures Blamed(held, model, left, right, a, b)
  {
    var i :| 0 <= i < |ls| && Blamed(held, model, ls[i], rs[i], a, b);
    EvalAllAt(held.m, model, left.app, |ls|);
    if right.App? { EvalAllAt(held.m, model, right.app, |rs|); } else { ExpandAllAt(held.m, |model|, right.ty, |rs|); }
    var l, r := Eval(held.m, model, left), Eval(held.m, model, right);
    assert Facing(l.args[i], r.args[i], Eval(held.m, model, a), Eval(held.m, model, b));
  }

  /** A call that changes the state at all leaves fewer unknowns. */
  ghost predicate Progress(before: Constraints, was: Assignment, after: Constraints, now: Assignment) {
    && Comparable(before, after)
    && (|after.Unknowns()| < |before.Unknowns()| || (after == before && now == was))
  }

  /** What holds of the heads holds of the types that resolve to them. */
  lemma Transfer(before: Constraints, after: Constraints, left: InferTy, right: InferTy, l: InferTy, k: InferTy,
      ok: bool)
    requires before.Valid() && before.In(left) && before.In(right) && before.In(l) && before.In(k)
    requires forall s :: before.Solves(s) ==> Eval(before.m, s, l) == Eval(before.m, s, left)
    requires forall s :: before.Solves(s) ==> Eval(before.m, s, k) == Eval(before.m, s, right)
    requires if ok then Unified(before, after, l, k) else NoSolution(before, l, k)
    ensures if ok then Unified(before, after, left, right) else NoSolution(before, left, right)
  {}

  lemma InstancesEqual(held: Constraints, a: TypeId, b: TypeId)
    requires held.Valid()
    ensures if a == b then Unified(held, held, Concrete(a), Concrete(b)) else NoSolution(held, Concrete(a), Concrete(b))
  {
    forall s | held.Solves(s) && Eval(held.m, s, Concrete(a)) == Eval(held.m, s, Concrete(b)) ensures a == b {
      ExpandInjective(held.m, |s|, a, b);
    }
  }

  ghost predicate UnifiedUpTo(before: Constraints, after: Constraints, left: seq<InferTy>, right: seq<InferTy>,
      n: nat) {
    && Comparable(before, after) && before.InAll(left, right) && n <= |left|
    && forall s :: after.Solves(s) <==> before.Solves(s) && SameArguments(before.m, s, left, right, n)
  }

  ghost predicate NoCommonSolution(before: Constraints, left: seq<InferTy>, right: seq<InferTy>) {
    && before.Valid() && before.InAll(left, right)
    && forall s :: before.Solves(s) ==> !SameArguments(before.m, s, left, right, |left|)
  }

  lemma NextArgument(before: Constraints, now: Constraints, after: Constraints, left: seq<InferTy>,
      right: seq<InferTy>, i: nat, ok: bool)
    requires i < |left| && UnifiedUpTo(before, now, left, right, i)
    requires if ok then Unified(now, after, left[i], right[i])
             else NoSolution(now, left[i], right[i]) && Narrowed(now, after)
    ensures if ok then UnifiedUpTo(before, after, left, right, i + 1)
            else NoCommonSolution(before, left, right) && Narrowed(before, after)
  {
    if ok {
      forall s ensures after.Solves(s) <==> before.Solves(s) && SameArguments(before.m, s, left, right, i + 1) {
        if before.Solves(s) && SameArguments(before.m, s, left, right, i + 1) {
          assert SameArguments(before.m, s, left, right, i);
        }
      }
    } else {
      forall s | before.Solves(s) ensures !SameArguments(before.m, s, left, right, |left|) {
        FewerArguments(before.m, s, left, right, i);
        assert now.Solves(s) <==> SameArguments(before.m, s, left, right, i);
      }
    }
  }

  /** The first `n` arguments agree under an assignment. */
  ghost predicate SameArguments(m: Arena, s: Assignment, left: seq<InferTy>, right: seq<InferTy>, n: nat)
    requires m.Valid(|s|) && n <= |left| == |right|
    requires forall i :: 0 <= i < |left| ==> InArena(left[i], |m.apps|, |s|) && InArena(right[i], |m.apps|, |s|)
  {
    forall i :: 0 <= i < n ==> Eval(m, s, left[i]) == Eval(m, s, right[i])
  }

  lemma FewerArguments(m: Arena, s: Assignment, left: seq<InferTy>, right: seq<InferTy>, n: nat)
    requires m.Valid(|s|) && n <= |left| == |right|
    requires forall i :: 0 <= i < |left| ==> InArena(left[i], |m.apps|, |s|) && InArena(right[i], |m.apps|, |s|)
    ensures SameArguments(m, s, left, right, |left|) ==> SameArguments(m, s, left, right, n)
  {}

  lemma ArgumentSizes(m: Arena, s: Assignment, a: AppId)
    requires m.Valid(|s|) && a < |m.apps|
    ensures forall i :: 0 <= i < |m.apps[a].args| ==> Size(Eval(m, s, m.apps[a].args[i])) < Size(Eval(m, s, App(a)))
  {
    var trees := EvalAll(m, s, a, |m.apps[a].args|);
    EvalAllAt(m, s, a, |m.apps[a].args|);
    forall i | 0 <= i < |trees| ensures Size(trees[i]) < Size(Eval(m, s, App(a))) { SizeMember(trees, i); }
  }

  lemma InstanceSizes(m: Arena, vars: nat, ty: TypeId)
    requires m.Valid(vars) && ty in m.shapes
    ensures forall i :: 0 <= i < |m.shapes[ty].args| ==>
      Size(Expand(m, vars, m.shapes[ty].args[i])) < Size(Expand(m, vars, ty))
  {
    var trees := ExpandAll(m, vars, ty, |m.shapes[ty].args|);
    ExpandAllAt(m, vars, ty, |m.shapes[ty].args|);
    forall i | 0 <= i < |trees| ensures Size(trees[i]) < Size(Expand(m, vars, ty)) { SizeMember(trees, i); }
  }

  lemma AppsEqual(m: Arena, s: Assignment, left: AppId, right: AppId)
    requires m.Valid(|s|) && left < |m.apps| && right < |m.apps|
    requires m.apps[left].name == m.apps[right].name && |m.apps[left].args| == |m.apps[right].args|
    ensures Eval(m, s, App(left)) == Eval(m, s, App(right))
      <==> SameArguments(m, s, m.apps[left].args, m.apps[right].args, |m.apps[left].args|)
  {
    EvalAllAt(m, s, left, |m.apps[left].args|);
    EvalAllAt(m, s, right, |m.apps[left].args|);
    var l, r := EvalAll(m, s, left, |m.apps[left].args|), EvalAll(m, s, right, |m.apps[left].args|);
    assert l == r <==> forall i :: 0 <= i < |l| ==> l[i] == r[i];
  }

  /** What the arguments come to decides for the application and the instance. */
  lemma InstanceDecided(before: Constraints, after: Constraints, app: AppId, ty: TypeId, args: seq<InferTy>, ok: bool)
    requires before.Valid() && before.In(App(app)) && ty in before.m.shapes && |args| == |before.m.shapes[ty].args|
    requires forall i :: 0 <= i < |args| ==> args[i] == Concrete(before.m.shapes[ty].args[i])
    requires before.m.apps[app].name == before.m.shapes[ty].name
    requires if ok then UnifiedUpTo(before, after, before.m.apps[app].args, args, |args|)
             else NoCommonSolution(before, before.m.apps[app].args, args)
    ensures if ok then Unified(before, after, App(app), Concrete(ty)) else NoSolution(before, App(app), Concrete(ty))
  {
    forall s | before.Solves(s) ensures Eval(before.m, s, App(app)) == Eval(before.m, s, Concrete(ty))
      <==> SameArguments(before.m, s, before.m.apps[app].args, args, |args|)
    {
      AppIsInstance(before.m, s, app, ty, args);
    }
  }

  lemma AppIsInstance(m: Arena, s: Assignment, app: AppId, ty: TypeId, args: seq<InferTy>)
    requires m.Valid(|s|) && app < |m.apps| && ty in m.shapes && |args| == |m.shapes[ty].args|
    requires forall i :: 0 <= i < |args| ==> args[i] == Concrete(m.shapes[ty].args[i])
    requires m.apps[app].name == m.shapes[ty].name && |m.apps[app].args| == |args|
    ensures Eval(m, s, App(app)) == Eval(m, s, Concrete(ty)) <==> SameArguments(m, s, m.apps[app].args, args, |args|)
  {
    EvalAllAt(m, s, app, |args|);
    ExpandAllAt(m, |s|, ty, |args|);
    var l, r := EvalAll(m, s, app, |args|), ExpandAll(m, |s|, ty, |args|);
    assert l == r <==> forall i :: 0 <= i < |l| ==> l[i] == r[i];
  }
}
