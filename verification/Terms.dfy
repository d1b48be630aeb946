/** Types as the solver sees them, and what they mean: finite trees over free variables.

    An assignment gives every inference variable a tree. `Eval` reads a solver type under an
    assignment; an interned instance stands for its expansion, because that is how the solver
    takes it apart. */
module Terms {
  import Cfg

  type VarId = nat
  type TypeId = nat
  type AppId = nat
  type SymbolId = nat

  type Option<+T> = Cfg.Option<T>

  datatype InferTy = Concrete(ty: TypeId) | Var(v: VarId) | App(app: AppId)

  /** `Name[..]` whose arguments are not all known yet. */
  datatype AppTy = AppTy(name: SymbolId, args: seq<InferTy>)

  /** Identity of an interned instance. */
  datatype Shape = Shape(name: SymbolId, args: seq<TypeId>)

  datatype Term = Free(v: VarId) | Atom(ty: TypeId) | Node(name: SymbolId, args: seq<Term>)

  type Assignment = seq<Term>

  /** The two arenas a type refers to. Both are filled children first, and an instance is
      interned once for its name and arguments. */
  datatype Arena = Arena(apps: seq<AppTy>, shapes: map<TypeId, Shape>) {
    ghost predicate Valid(vars: nat) {
      && (forall a, i :: 0 <= a < |apps| && 0 <= i < |apps[a].args| ==> InArena(apps[a].args[i], a, vars))
      && (forall t, i :: t in shapes && 0 <= i < |shapes[t].args| ==> shapes[t].args[i] < t)
      && (forall s, t :: s in shapes && t in shapes && shapes[s] == shapes[t] ==> s == t)
    }
  }

  predicate InArena(ty: InferTy, apps: nat, vars: nat) {
    match ty
    case Concrete(_) => true
    case Var(v) => v < vars
    case App(a) => a < apps
  }

  // ---------------------------------------------------------------- reading a type

  ghost function Expand(m: Arena, vars: nat, ty: TypeId): Term
    requires m.Valid(vars)
    decreases ty, 0
  {
    if ty in m.shapes then Node(m.shapes[ty].name, ExpandAll(m, vars, ty, |m.shapes[ty].args|)) else Atom(ty)
  }

  /** The first `n` arguments of the instance `ty`. */
  ghost function ExpandAll(m: Arena, vars: nat, ty: TypeId, n: nat): (terms: seq<Term>)
    requires m.Valid(vars) && ty in m.shapes && n <= |m.shapes[ty].args|
    ensures |terms| == n
    decreases ty, 0, n
  {
    if n == 0 then [] else ExpandAll(m, vars, ty, n - 1) + [Expand(m, vars, m.shapes[ty].args[n - 1])]
  }

  ghost function Eval(m: Arena, s: Assignment, ty: InferTy): Term
    requires m.Valid(|s|) && InArena(ty, |m.apps|, |s|)
    decreases if ty.App? then ty.app + 1 else 0, 0
  {
    match ty
    case Concrete(t) => Expand(m, |s|, t)
    case Var(v) => s[v]
    case App(a) => Node(m.apps[a].name, EvalAll(m, s, a, |m.apps[a].args|))
  }

  /** The first `n` arguments of the application `a`. */
  ghost function EvalAll(m: Arena, s: Assignment, a: AppId, n: nat): (terms: seq<Term>)
    requires m.Valid(|s|) && a < |m.apps| && n <= |m.apps[a].args|
    ensures |terms| == n
    decreases a + 1, 0, n
  {
    if n == 0 then [] else EvalAll(m, s, a, n - 1) + [Eval(m, s, m.apps[a].args[n - 1])]
  }

  lemma {:induction false} EvalAllAt(m: Arena, s: Assignment, a: AppId, n: nat)
    requires m.Valid(|s|) && a < |m.apps| && n <= |m.apps[a].args|
    ensures forall i :: 0 <= i < n ==> EvalAll(m, s, a, n)[i] == Eval(m, s, m.apps[a].args[i])
  {
    if n > 0 { EvalAllAt(m, s, a, n - 1); }
  }

  lemma {:induction false} ExpandAllAt(m: Arena, vars: nat, ty: TypeId, n: nat)
    requires m.Valid(vars) && ty in m.shapes && n <= |m.shapes[ty].args|
    ensures forall i :: 0 <= i < n ==> ExpandAll(m, vars, ty, n)[i] == Expand(m, vars, m.shapes[ty].args[i])
  {
    if n > 0 { ExpandAllAt(m, vars, ty, n - 1); }
  }

  /** Interned types are equal exactly when they mean the same tree. */
  lemma {:induction false} ExpandInjective(m: Arena, vars: nat, left: TypeId, right: TypeId)
    requires m.Valid(vars) && Expand(m, vars, left) == Expand(m, vars, right)
    ensures left == right
    decreases left
  {
    if left in m.shapes {
      var l, r := m.shapes[left], m.shapes[right];
      ExpandAllAt(m, vars, left, |l.args|);
      ExpandAllAt(m, vars, right, |r.args|);
      forall i | 0 <= i < |l.args| ensures l.args[i] == r.args[i] {
        assert ExpandAll(m, vars, left, |l.args|)[i] == ExpandAll(m, vars, right, |r.args|)[i];
        ExpandInjective(m, vars, l.args[i], r.args[i]);
      }
      assert l.args == r.args;
    }
  }

  // ---------------------------------------------------------------- substitution

  ghost function Size(t: Term): nat {
    if t.Node? then 1 + SizeAll(t.args) else 1
  }

  ghost function SizeAll(ts: seq<Term>): nat {
    if ts == [] then 0 else SizeAll(ts[..|ts| - 1]) + Size(ts[|ts| - 1])
  }

  ghost predicate Occurs(v: VarId, t: Term) {
    match t
    case Free(u) => u == v
    case Atom(_) => false
    case Node(_, args) => OccursAny(v, args)
  }

  ghost predicate OccursAny(v: VarId, ts: seq<Term>) {
    ts != [] && (OccursAny(v, ts[..|ts| - 1]) || Occurs(v, ts[|ts| - 1]))
  }

  ghost function Subst(v: VarId, image: Term, t: Term): Term {
    match t
    case Free(u) => if u == v then image else t
    case Atom(_) => t
    case Node(name, args) => Node(name, SubstAll(v, image, args))
  }

  ghost function SubstAll(v: VarId, image: Term, ts: seq<Term>): (r: seq<Term>)
    ensures |r| == |ts|
  {
    if ts == [] then [] else SubstAll(v, image, ts[..|ts| - 1]) + [Subst(v, image, ts[|ts| - 1])]
  }

  /** The simultaneous substitution an assignment stands for. */
  ghost function Apply(s: Assignment, t: Term): Term {
    match t
    case Free(v) => if v < |s| then s[v] else t
    case Atom(_) => t
    case Node(name, args) => Node(name, ApplyAll(s, args))
  }

  ghost function ApplyAll(s: Assignment, ts: seq<Term>): (r: seq<Term>)
    ensures |r| == |ts|
  {
    if ts == [] then [] else ApplyAll(s, ts[..|ts| - 1]) + [Apply(s, ts[|ts| - 1])]
  }

  lemma {:induction false} SubstAbsent(v: VarId, image: Term, t: Term)
    requires !Occurs(v, t)
    ensures Subst(v, image, t) == t
    decreases t
  {
    if t.Node? { SubstAbsentAll(v, image, t.args); }
  }

  lemma {:induction false} SubstAbsentAll(v: VarId, image: Term, ts: seq<Term>)
    requires !OccursAny(v, ts)
    ensures SubstAll(v, image, ts) == ts
    decreases ts
  {
    if ts != [] {
      var init, last := ts[..|ts| - 1], ts[|ts| - 1];
      SubstAbsentAll(v, image, init);
      SubstAbsent(v, image, last);
      assert SubstAll(v, image, ts) == init + [last] == ts;
    }
  }

  /** An interned type has no variables. */
  lemma {:induction false} ExpandClosed(m: Arena, vars: nat, ty: TypeId, v: VarId, image: Term, s: Assignment)
    requires m.Valid(vars)
    ensures Subst(v, image, Expand(m, vars, ty)) == Expand(m, vars, ty)
    ensures Apply(s, Expand(m, vars, ty)) == Expand(m, vars, ty)
    ensures !Occurs(v, Expand(m, vars, ty))
    decreases ty, 1
  {
    if ty in m.shapes { ExpandAllClosed(m, vars, ty, |m.shapes[ty].args|, v, image, s); }
  }

  lemma {:induction false} ExpandAllClosed(m: Arena, vars: nat, ty: TypeId, n: nat, v: VarId, image: Term,
      s: Assignment)
    requires m.Valid(vars) && ty in m.shapes && n <= |m.shapes[ty].args|
    ensures SubstAll(v, image, ExpandAll(m, vars, ty, n)) == ExpandAll(m, vars, ty, n)
    ensures ApplyAll(s, ExpandAll(m, vars, ty, n)) == ExpandAll(m, vars, ty, n)
    ensures !OccursAny(v, ExpandAll(m, vars, ty, n))
    decreases ty, 0, n
  {
    if n > 0 {
      var ts := ExpandAll(m, vars, ty, n);
      assert ts[..n - 1] == ExpandAll(m, vars, ty, n - 1);
      ExpandAllClosed(m, vars, ty, n - 1, v, image, s);
      ExpandClosed(m, vars, m.shapes[ty].args[n - 1], v, image, s);
    }
  }

  /** What an interned type means depends on the interned shapes alone. */
  lemma {:induction false} ExpandSame(m: Arena, vars: nat, m': Arena, vars': nat, ty: TypeId)
    requires m.Valid(vars) && m'.Valid(vars') && m'.shapes == m.shapes
    ensures Expand(m', vars', ty) == Expand(m, vars, ty)
    decreases ty, 1
  {
    if ty in m.shapes { ExpandAllSame(m, vars, m', vars', ty, |m.shapes[ty].args|); }
  }

  lemma {:induction false} ExpandAllSame(m: Arena, vars: nat, m': Arena, vars': nat, ty: TypeId, n: nat)
    requires m.Valid(vars) && m'.Valid(vars') && m'.shapes == m.shapes
    requires ty in m.shapes && n <= |m.shapes[ty].args|
    ensures ExpandAll(m', vars', ty, n) == ExpandAll(m, vars, ty, n)
    decreases ty, 0, n
  {
    if n > 0 {
      ExpandAllSame(m, vars, m', vars', ty, n - 1);
      ExpandSame(m, vars, m', vars', m.shapes[ty].args[n - 1]);
    }
  }

  /** Substituting in every entry of an assignment substitutes in what a type evaluates to. */
  lemma {:induction false} EvalSubst(m: Arena, s: Assignment, s': Assignment, v: VarId, image: Term, ty: InferTy)
    requires m.Valid(|s|) && InArena(ty, |m.apps|, |s|) && |s'| == |s|
    requires forall i :: 0 <= i < |s| ==> s'[i] == Subst(v, image, s[i])
    ensures Eval(m, s', ty) == Subst(v, image, Eval(m, s, ty))
    decreases if ty.App? then ty.app + 1 else 0, 1
  {
    match ty
    case Concrete(t) => ExpandClosed(m, |s|, t, v, image, s);
    case Var(_) =>
    case App(a) => EvalSubstAll(m, s, s', v, image, a, |m.apps[a].args|);
  }

  lemma {:induction false} EvalSubstAll(m: Arena, s: Assignment, s': Assignment, v: VarId, image: Term, a: AppId,
      n: nat)
    requires m.Valid(|s|) && a < |m.apps| && n <= |m.apps[a].args| && |s'| == |s|
    requires forall i :: 0 <= i < |s| ==> s'[i] == Subst(v, image, s[i])
    ensures EvalAll(m, s', a, n) == SubstAll(v, image, EvalAll(m, s, a, n))
    decreases a + 1, 0, n
  {
    if n > 0 {
      EvalSubstAll(m, s, s', v, image, a, n - 1);
      EvalSubst(m, s, s', v, image, m.apps[a].args[n - 1]);
      assert EvalAll(m, s, a, n)[..n - 1] == EvalAll(m, s, a, n - 1);
    }
  }

  lemma {:induction false} SizeMember(ts: seq<Term>, i: nat)
    requires i < |ts|
    ensures Size(ts[i]) <= SizeAll(ts)
  {
    if i < |ts| - 1 { SizeMember(ts[..|ts| - 1], i); }
  }

  lemma {:induction false} OccursMember(v: VarId, ts: seq<Term>)
    ensures OccursAny(v, ts) <==> exists i :: 0 <= i < |ts| && Occurs(v, ts[i])
  {
    if ts != [] { OccursMember(v, ts[..|ts| - 1]); }
  }

  /** A tree that properly contains a variable never becomes equal to what replaces it. */
  lemma {:induction false} OccursGrows(s: Assignment, v: VarId, t: Term)
    requires v < |s| && Occurs(v, t)
    ensures Size(Apply(s, t)) >= Size(s[v])
    ensures t != Free(v) ==> Size(Apply(s, t)) > Size(s[v])
    decreases t
  {
    if t.Node? { OccursAnyGrows(s, v, t.args); }
  }

  lemma {:induction false} OccursAnyGrows(s: Assignment, v: VarId, ts: seq<Term>)
    requires v < |s| && OccursAny(v, ts)
    ensures SizeAll(ApplyAll(s, ts)) >= Size(s[v])
    decreases ts
  {
    var last := |ts| - 1;
    assert ApplyAll(s, ts)[..last] == ApplyAll(s, ts[..last]);
    if OccursAny(v, ts[..last]) { OccursAnyGrows(s, v, ts[..last]); } else { OccursGrows(s, v, ts[last]); }
  }

  lemma {:induction false} EvalExtends(m: Arena, s: Assignment, t: Term, ty: InferTy)
    requires m.Valid(|s|) && InArena(ty, |m.apps|, |s|)
    ensures m.Valid(|s| + 1) && Eval(m, s + [t], ty) == Eval(m, s, ty)
    decreases if ty.App? then ty.app + 1 else 0, 1
  {
    match ty
    case Concrete(c) => ExpandSame(m, |s|, m, |s| + 1, c);
    case Var(_) =>
    case App(a) => EvalAllExtends(m, s, t, a, |m.apps[a].args|);
  }

  lemma {:induction false} EvalAllExtends(m: Arena, s: Assignment, t: Term, a: AppId, n: nat)
    requires m.Valid(|s|) && m.Valid(|s| + 1) && a < |m.apps| && n <= |m.apps[a].args|
    ensures EvalAll(m, s + [t], a, n) == EvalAll(m, s, a, n)
    decreases a + 1, 0, n
  {
    if n > 0 {
      EvalAllExtends(m, s, t, a, n - 1);
      EvalExtends(m, s, t, m.apps[a].args[n - 1]);
    }
  }

  lemma {:induction false} EvalMoreApps(m: Arena, m': Arena, s: Assignment, ty: InferTy)
    requires m.Valid(|s|) && m'.Valid(|s|) && m'.shapes == m.shapes && m.apps <= m'.apps
    requires InArena(ty, |m.apps|, |s|)
    ensures Eval(m', s, ty) == Eval(m, s, ty)
    decreases if ty.App? then ty.app + 1 else 0, 1
  {
    match ty
    case Concrete(c) => ExpandSame(m, |s|, m', |s|, c);
    case Var(_) =>
    case App(a) => EvalAllMoreApps(m, m', s, a, |m.apps[a].args|);
  }

  lemma {:induction false} EvalAllMoreApps(m: Arena, m': Arena, s: Assignment, a: AppId, n: nat)
    requires m.Valid(|s|) && m'.Valid(|s|) && m'.shapes == m.shapes && m.apps <= m'.apps
    requires a < |m.apps| && n <= |m.apps[a].args|
    ensures EvalAll(m', s, a, n) == EvalAll(m, s, a, n)
    decreases a + 1, 0, n
  {
    if n > 0 {
      EvalAllMoreApps(m, m', s, a, n - 1);
      EvalMoreApps(m, m', s, m.apps[a].args[n - 1]);
    }
  }

  /** What each of some types means. */
  ghost function EvalEach(m: Arena, s: Assignment, tys: seq<InferTy>): (terms: seq<Term>)
    requires m.Valid(|s|) && forall i :: 0 <= i < |tys| ==> InArena(tys[i], |m.apps|, |s|)
    ensures |terms| == |tys| && forall i :: 0 <= i < |tys| ==> terms[i] == Eval(m, s, tys[i])
  {
    seq(|tys|, i requires 0 <= i < |tys| => Eval(m, s, tys[i]))
  }

  /** An application just recorded means its name over what its arguments mean. */
  lemma EvalNewApp(m: Arena, m': Arena, s: Assignment, app: AppTy)
    requires m.Valid(|s|) && m'.Valid(|s|) && m' == m.(apps := m.apps + [app])
    requires forall i :: 0 <= i < |app.args| ==> InArena(app.args[i], |m.apps|, |s|)
    ensures Eval(m', s, App(|m.apps|)) == Node(app.name, EvalEach(m, s, app.args))
  {
    var n := |m.apps|;
    EvalAllAt(m', s, n, |app.args|);
    forall i | 0 <= i < |app.args| ensures EvalAll(m', s, n, |app.args|)[i] == Eval(m, s, app.args[i]) {
      EvalMoreApps(m, m', s, app.args[i]);
    }
    assert EvalAll(m', s, n, |app.args|) == EvalEach(m, s, app.args);
  }
}
