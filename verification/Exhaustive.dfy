/** When no match can be left without an arm: the rule the type checker has for matches without a
    default, over declared variants, and why no run of what passes it meets a constructor it has no
    arm for. */
module Exhaustive {
  import Cfg
  import opened Core

  type TypeId = nat

  /** Each type's constructors with the types of their fields, and the types of variables, of what
      functions, operations and primitives give, and of the handle expression. No type is any value. */
  datatype Signature = Signature(
    variants: map<TypeId, map<nat, seq<Option<TypeId>>>>,
    variables: map<VarId, TypeId>,
    calls: map<nat, TypeId>,
    operations: map<(nat, nat), TypeId>,
    prims: map<nat, TypeId>,
    handled: Option<TypeId>)
  {
    function Declared(v: VarId): Option<TypeId> { Get(variables, v) }

    function Answer(effect: nat, operation: nat): Option<TypeId> { Get(operations, (effect, operation)) }

    function TypeOf(e: Expr): Option<TypeId> {
      match e
      case Var(v) => Declared(v)
      case Prim(op, _) => Get(prims, op)
      case _ => Cfg.None
    }
  }

  function Get<K(==)>(m: map<K, TypeId>, key: K): Option<TypeId> {
    if key in m then Cfg.Some(m[key]) else Cfg.None
  }

  predicate Fits(found: Option<TypeId>, wanted: Option<TypeId>) { wanted.None? || found == wanted }

  /** The value is of the type, its fields of theirs. */
  predicate Has(sig: Signature, v: Value, ty: Option<TypeId>)
    decreases v
  {
    ty.None? || (v.Ctor? && IsVariant(sig, ty.value, v.tag) && |v.fields| == |sig.variants[ty.value][v.tag]| &&
      forall i :: 0 <= i < |v.fields| ==> Has(sig, v.fields[i], sig.variants[ty.value][v.tag][i]))
  }

  predicate IsVariant(sig: Signature, ty: TypeId, tag: nat) { ty in sig.variants && tag in sig.variants[ty] }

  ghost predicate Typed(sig: Signature, env: Env, vars: set<VarId>) {
    forall v :: v in vars ==> Has(sig, Lookup(env, v), sig.Declared(v))
  }

  /** The world answers and computes what its signature says. */
  ghost predicate Keeps(sig: Signature, w: World) {
    && (forall t: Trace, callee: nat, args: seq<Value> {:trigger w.answer(t, Called(callee, args))} ::
      Has(sig, w.answer(t, Called(callee, args)), Get(sig.calls, callee)))
    && (forall t: Trace, effect: nat, operation: nat,
      args: seq<Value> {:trigger w.answer(t, Performed(effect, operation, args))} ::
      Has(sig, w.answer(t, Performed(effect, operation, args)), sig.Answer(effect, operation)))
    && (forall op: nat, args: seq<Value> {:trigger w.prim(op, args)} :: Has(sig, w.prim(op, args), Get(sig.prims, op)))
  }

  /** The expression's values are of the type wanted. */
  predicate Yields(sig: Signature, e: Expr, wanted: Option<TypeId>) {
    if e.Literal? then Has(sig, e.value, wanted) else Fits(sig.TypeOf(e), wanted)
  }

  lemma ValueTyped(sig: Signature, w: World, e: Expr, env: Env)
    requires Keeps(sig, w) && Typed(sig, env, Reads(e))
    ensures Has(sig, Eval(w, e, env), sig.TypeOf(e))
    ensures forall wanted :: Yields(sig, e, wanted) ==> Has(sig, Eval(w, e, env), wanted)
  {}

  // ---------------------------------------------------------------- the rule

  /** Every constructor of the scrutinee's type has a case. */
  predicate CoversAll(sig: Signature, cases: seq<Case>, ty: Option<TypeId>) {
    ty.Some? && ty.value in sig.variants &&
      forall tag :: tag in sig.variants[ty.value] ==> exists i :: 0 <= i < |cases| && cases[i].tag == tag
  }

  /** The case names fields its constructor has, by their types. */
  predicate BindsFields(sig: Signature, c: Case, ty: Option<TypeId>) {
    forall j :: 0 <= j < |c.binders| && sig.Declared(c.binders[j]).Some? ==>
      ty.Some? && (IsVariant(sig, ty.value, c.tag) ==>
        j < |sig.variants[ty.value][c.tag]| && sig.variants[ty.value][c.tag][j] == sig.Declared(c.binders[j]))
  }

  /** The statement gives `wanted`, and every match in it has a default or an arm for every constructor
      of its scrutinee's type. */
  predicate Covered(sig: Signature, s: Stmt, resumed: Option<TypeId>, wanted: Option<TypeId>) {
    match s
    case Return(e) => Yields(sig, e, wanted)
    case Let(b, e, next) => Yields(sig, e, sig.Declared(b)) && Covered(sig, next, resumed, wanted)
    case Val(b, graph, next) =>
      Covered(sig, graph, resumed, sig.Declared(b)) && Covered(sig, next, resumed, wanted)
    case Call(r, callee, _, next) =>
      Fits(Get(sig.calls, callee), sig.Declared(r)) && Covered(sig, next, resumed, wanted)
    case If(_, x, y) => Covered(sig, x, resumed, wanted) && Covered(sig, y, resumed, wanted)
    case Perform(r, effect, operation, _, next) =>
      && (r.Some? ==> Fits(sig.Answer(effect, operation), sig.Declared(r.value)))
      && Covered(sig, next, resumed, wanted)
    case Resume(r, _, arg, next) =>
      && Yields(sig, arg, resumed) && Fits(sig.handled, sig.Declared(r))
      && Covered(sig, next, resumed, wanted)
    case Match(e, cases, default) =>
      && (default.Some? || CoversAll(sig, cases, sig.TypeOf(e)))
      && (forall i :: 0 <= i < |cases| ==>
        BindsFields(sig, cases[i], sig.TypeOf(e)) && Covered(sig, cases[i].body, resumed, wanted))
      && (default.Some? ==> Covered(sig, default.value, resumed, wanted))
  }

  /** The clause's parameters take what every perform of its operation hands it. */
  predicate ArgsFit(sig: Signature, h: Handler, s: Stmt) {
    match s
    case Return(_) => true
    case Let(_, _, next) => ArgsFit(sig, h, next)
    case Val(_, graph, next) => ArgsFit(sig, h, graph) && ArgsFit(sig, h, next)
    case Call(_, _, _, next) => ArgsFit(sig, h, next)
    case If(_, x, y) => ArgsFit(sig, h, x) && ArgsFit(sig, h, y)
    case Perform(_, effect, operation, args, next) =>
      && ArgsFit(sig, h, next)
      && (effect == h.effect ==>
        var i := Find(h.clauses, operation);
        i.Some? && |args| == |h.clauses[i.value].params| &&
          forall j :: 0 <= j < |args| ==> Yields(sig, args[j], sig.Declared(h.clauses[i.value].params[j])))
    case Resume(_, _, _, next) => ArgsFit(sig, h, next)
    case Match(_, _, _) => forall b :: b in Branches(s) ==> ArgsFit(sig, h, b)
  }

  /** The clauses and the return clause give what the handle expression does. */
  predicate HandlerCovered(sig: Signature, h: Handler) {
    && (forall c :: c in h.clauses ==> Covered(sig, c.body, sig.Answer(h.effect, c.operation), sig.handled))
    && Covered(sig, h.returnBody, Cfg.None, sig.handled) && ResumesOnly(h.returnBody, Cfg.None)
  }

  /** The whole handle expression passes. */
  predicate Passes(sig: Signature, h: Handler, body: Stmt) {
    && HandlerCovered(sig, h) && ArgsFit(sig, h, body)
    && Covered(sig, body, Cfg.None, sig.Declared(h.returnParam)) && ResumesOnly(body, Cfg.None)
  }

  // ---------------------------------------------------------------- typed environments

  lemma BindTyped(sig: Signature, env: Env, vars: set<VarId>, x: VarId, v: Value)
    requires Typed(sig, env, vars - {x}) && Has(sig, v, sig.Declared(x))
    ensures Typed(sig, env[x := v], vars)
  {
    forall y | y in vars ensures Has(sig, Lookup(env[x := v], y), sig.Declared(y)) {
      if y != x { assert y in vars - {x}; }
    }
  }

  lemma BindOptionTyped(sig: Signature, env: Env, vars: set<VarId>, x: Option<VarId>, v: Value)
    requires Typed(sig, env, vars - OptionSet(x)) && (x.Some? ==> Has(sig, v, sig.Declared(x.value)))
    ensures Typed(sig, BindOption(env, x, v), vars)
  {
    match x
    case None => assert vars - OptionSet(x) == vars;
    case Some(x) => BindTyped(sig, env, vars, x, v);
  }

  lemma {:induction false} BindAllTyped(sig: Signature, env: Env, vars: set<VarId>, params: seq<VarId>,
      values: seq<Value>, n: nat)
    requires n <= Paired(params, values) && Typed(sig, env, vars - Names(params[..n]))
    requires forall j :: 0 <= j < n ==> Has(sig, values[j], sig.Declared(params[j]))
    ensures Typed(sig, BindAll(env, params, values, n), vars)
  {
    if n == 0 {
      assert vars - Names(params[..0]) == vars;
    } else {
      assert vars - {params[n - 1]} - Names(params[..n - 1]) == vars - Names(params[..n]) by {
        assert params[..n] == params[..n - 1] + [params[n - 1]];
      }
      BindAllTyped(sig, env, vars - {params[n - 1]}, params, values, n - 1);
      BindTyped(sig, BindAll(env, params, values, n - 1), vars, params[n - 1], values[n - 1]);
    }
  }

  /** A match that passes has a branch to take, and enters it in a typed environment. */
  lemma TakenTyped(sig: Signature, w: World, s: Stmt, env: Env, resumed: Option<TypeId>, wanted: Option<TypeId>)
    requires s.Match? && Keeps(sig, w) && Typed(sig, env, Free(s)) && Covered(sig, s, resumed, wanted)
    ensures var (branch, inner) := Taken(w, s, env);
      branch.Some? && Covered(sig, branch.value, resumed, wanted) && Typed(sig, inner, Free(branch.value))
  {
    var Match(e, cases, default) := s;
    var v := Eval(w, e, env);
    ValueTyped(sig, w, e, env);
    var i := Selected(s, v);
    if i.Some? {
      ChosenIs(cases, v.tag, 0);
      FieldsTyped(sig, v, cases[i.value], sig.TypeOf(e));
      var c := cases[i.value];
      forall x | x in Free(c.body) - Names(c.binders) ensures x in Free(s) {
        assert 0 <= i.value < |cases| && x in Free(cases[i.value].body) - Names(cases[i.value].binders);
      }
      assert c.binders[..|c.binders|] == c.binders;
      BindAllTyped(sig, env, Free(c.body), c.binders, Padded(v.fields, |c.binders|), |c.binders|);
    } else if default.None? {
      ChosenIs(cases, v.tag, 0);
    }
  }

  lemma {:induction false} ChosenIs(cases: seq<Case>, tag: nat, i: nat)
    requires i <= |cases|
    ensures Chosen(cases, tag, i).None? ==> forall j :: i <= j < |cases| ==> cases[j].tag != tag
    decreases |cases| - i
  {
    if i < |cases| && cases[i].tag != tag { ChosenIs(cases, tag, i + 1); }
  }

  /** Each declared constructor of the type has a value. */
  ghost predicate Inhabited(sig: Signature, ty: TypeId) {
    ty in sig.variants && forall tag :: tag in sig.variants[ty] ==> HasValue(sig, ty, tag)
  }

  ghost predicate HasValue(sig: Signature, ty: TypeId, tag: nat) {
    exists v: Value :: Has(sig, v, Cfg.Some(ty)) && v.tag == tag
  }

  /** The rule is exact: cases without a default pass it just when every value of the type finds one of them. */
  lemma CoverageIsExact(sig: Signature, s: Stmt, ty: TypeId)
    requires s.Match? && Inhabited(sig, ty)
    ensures CoversAll(sig, s.cases, Cfg.Some(ty))
      <==> forall v: Value :: Has(sig, v, Cfg.Some(ty)) ==> Selected(s, v).Some?
  {
    if CoversAll(sig, s.cases, Cfg.Some(ty)) {
      forall v: Value | Has(sig, v, Cfg.Some(ty)) ensures Selected(s, v).Some? { ChosenIs(s.cases, v.tag, 0); }
    }
    if forall v: Value :: Has(sig, v, Cfg.Some(ty)) ==> Selected(s, v).Some? {
      forall tag | tag in sig.variants[ty] ensures exists i :: 0 <= i < |s.cases| && s.cases[i].tag == tag {
        assert HasValue(sig, ty, tag);
        var v: Value :| Has(sig, v, Cfg.Some(ty)) && v.tag == tag;
        var i := Selected(s, v).value;
        assert s.cases[i].tag == tag;
      }
    }
  }

  lemma FieldsTyped(sig: Signature, v: Value, c: Case, ty: Option<TypeId>)
    requires v.Ctor? && v.tag == c.tag && Has(sig, v, ty) && BindsFields(sig, c, ty)
    ensures forall j :: 0 <= j < |c.binders| ==>
      Has(sig, Padded(v.fields, |c.binders|)[j], sig.Declared(c.binders[j]))
  {}

  // ---------------------------------------------------------------- runs

  /** Handed a value of the type, the continuation leaves no match without an arm and gives `wanted`. */
  ghost predicate Goes(sig: Signature, k: Continuation, ty: Option<TypeId>, wanted: Option<TypeId>) {
    forall v: Value, t: Trace {:trigger k(v, t)} :: Has(sig, v, ty) && Matched(t) ==>
      Matched(k(v, t).trace) && Has(sig, k(v, t).value, wanted)
  }

  lemma {:induction false} DirectMatched(sig: Signature, w: World, s: Stmt, env: Env, resumption: Continuation,
      t: Trace, resumed: Option<TypeId>, wanted: Option<TypeId>)
    requires Keeps(sig, w) && Typed(sig, env, Free(s)) && Covered(sig, s, resumed, wanted)
    requires (ResumesOnly(s, Cfg.None) || Goes(sig, resumption, resumed, sig.handled)) && Matched(t)
    ensures var o := Direct(w, s, env, resumption, t); Matched(o.trace) && Has(sig, o.value, wanted)
    decreases s
  {
    match s
    case Return(e) => ValueTyped(sig, w, e, env);
    case Let(b, e, next) =>
      ValueTyped(sig, w, e, env);
      BindTyped(sig, env, Free(next), b, Eval(w, e, env));
      DirectMatched(sig, w, next, env[b := Eval(w, e, env)], resumption, t, resumed, wanted);
    case Val(b, graph, next) =>
      var o := Direct(w, graph, env, resumption, t);
      DirectMatched(sig, w, graph, env, resumption, t, resumed, sig.Declared(b));
      BindTyped(sig, env, Free(next), b, o.value);
      DirectMatched(sig, w, next, env[b := o.value], resumption, o.trace, resumed, wanted);
    case Call(r, callee, args, next) =>
      var event := Called(callee, EvalAll(w, args, env));
      BindTyped(sig, env, Free(next), r, w.answer(t, event));
      DirectMatched(sig, w, next, env[r := w.answer(t, event)], resumption, t + [event], resumed, wanted);
    case If(c, x, y) =>
      DirectMatched(sig, w, if IsTrue(Eval(w, c, env)) then x else y, env, resumption, t, resumed, wanted);
    case Perform(r, effect, operation, args, next) =>
      var event := Performed(effect, operation, EvalAll(w, args, env));
      BindOptionTyped(sig, env, Free(next), r, w.answer(t, event));
      DirectMatched(sig, w, next, BindOption(env, r, w.answer(t, event)), resumption, t + [event], resumed, wanted);
    case Resume(r, _, arg, next) =>
      ValueTyped(sig, w, arg, env);
      var o := resumption(Eval(w, arg, env), t);
      BindTyped(sig, env, Free(next), r, o.value);
      DirectMatched(sig, w, next, env[r := o.value], resumption, o.trace, resumed, wanted);
    case Match(_, _, _) =>
      TakenTyped(sig, w, s, env, resumed, wanted);
      var (branch, inner) := Taken(w, s, env);
      DirectMatched(sig, w, branch.value, inner, resumption, t, resumed, wanted);
  }

  lemma {:induction false} BodyMatched(sig: Signature, w: World, h: Handler, home: Env, s: Stmt, env: Env,
      k: Continuation, t: Trace, wanted: Option<TypeId>)
    requires Keeps(sig, w) && Typed(sig, env, Free(s)) && HandlerTyped(sig, h, home)
    requires Covered(sig, s, Cfg.None, wanted) && ArgsFit(sig, h, s) && ResumesOnly(s, Cfg.None)
    requires Goes(sig, k, wanted, sig.handled) && Matched(t)
    ensures var o := Body(w, h, home, s, env, k, t); Matched(o.trace) && Has(sig, o.value, sig.handled)
    decreases s, 0
  {
    match s
    case Return(e) => ValueTyped(sig, w, e, env);
    case Let(b, e, next) =>
      ValueTyped(sig, w, e, env);
      BindTyped(sig, env, Free(next), b, Eval(w, e, env));
      BodyMatched(sig, w, h, home, next, env[b := Eval(w, e, env)], k, t, wanted);
    case Val(b, graph, next) =>
      RestGoes(sig, w, h, home, Cfg.Some(b), next, env, k, sig.Declared(b), wanted);
      BodyMatched(sig, w, h, home, graph, env, Rest(w, h, home, Cfg.Some(b), next, env, k), t, sig.Declared(b));
    case Call(r, callee, args, next) =>
      var event := Called(callee, EvalAll(w, args, env));
      BindTyped(sig, env, Free(next), r, w.answer(t, event));
      BodyMatched(sig, w, h, home, next, env[r := w.answer(t, event)], k, t + [event], wanted);
    case If(c, x, y) =>
      BodyMatched(sig, w, h, home, if IsTrue(Eval(w, c, env)) then x else y, env, k, t, wanted);
    case Perform(_, _, _, _, _) => PerformMatched(sig, w, h, home, s, env, k, t, wanted);
    case Resume(_, _, _, _) => assert false;
    case Match(_, _, _) =>
      TakenTyped(sig, w, s, env, Cfg.None, wanted);
      var (branch, inner) := Taken(w, s, env);
      BodyMatched(sig, w, h, home, branch.value, inner, k, t, wanted);
  }

  /** The clauses pass, and what they read from outside is of its type. */
  ghost predicate HandlerTyped(sig: Signature, h: Handler, home: Env) {
    HandlerCovered(sig, h) && forall i :: 0 <= i < |h.clauses| ==>
      Typed(sig, home, Free(h.clauses[i].body) - Names(h.clauses[i].params))
  }

  lemma {:induction false} PerformMatched(sig: Signature, w: World, h: Handler, home: Env, s: Stmt, env: Env,
      k: Continuation, t: Trace, wanted: Option<TypeId>)
    requires Keeps(sig, w) && Typed(sig, env, Free(s)) && HandlerTyped(sig, h, home) && s.Perform?
    requires Covered(sig, s, Cfg.None, wanted) && ArgsFit(sig, h, s) && ResumesOnly(s, Cfg.None)
    requires Goes(sig, k, wanted, sig.handled) && Matched(t)
    ensures var o := Body(w, h, home, s, env, k, t); Matched(o.trace) && Has(sig, o.value, sig.handled)
    decreases s, 0, 0
  {
    var Perform(r, effect, operation, args, next) := s;
    var values := EvalAll(w, args, env);
    if effect == h.effect {
      var clause := h.clauses[Find(h.clauses, operation).value];
      var ty := sig.Answer(effect, operation);
      RestGoes(sig, w, h, home, r, next, env, k, ty, wanted);
      forall j | 0 <= j < |args| ensures Has(sig, values[j], sig.Declared(clause.params[j])) {
        assert Reads(args[j]) <= ReadsOfAll(args);
        ValueTyped(sig, w, args[j], env);
      }
      assert clause in h.clauses && clause.params[..|args|] == clause.params;
      BindAllTyped(sig, home, Free(clause.body), clause.params, values, |args|);
      DirectMatched(sig, w, clause.body, BindAll(home, clause.params, values, |args|),
        Rest(w, h, home, r, next, env, k), t, ty, sig.handled);
    } else {
      var event := Performed(effect, operation, values);
      BindOptionTyped(sig, env, Free(next), r, w.answer(t, event));
      BodyMatched(sig, w, h, home, next, BindOption(env, r, w.answer(t, event)), k, t + [event], wanted);
    }
  }

  lemma {:induction false} RestGoes(sig: Signature, w: World, h: Handler, home: Env, b: Option<VarId>, next: Stmt,
      env: Env, k: Continuation, ty: Option<TypeId>, wanted: Option<TypeId>)
    requires Keeps(sig, w) && Typed(sig, env, Free(next) - OptionSet(b)) && HandlerTyped(sig, h, home)
    requires Covered(sig, next, Cfg.None, wanted) && ArgsFit(sig, h, next) && ResumesOnly(next, Cfg.None)
    requires Goes(sig, k, wanted, sig.handled) && (b.Some? ==> Fits(ty, sig.Declared(b.value)))
    ensures Goes(sig, Rest(w, h, home, b, next, env, k), ty, sig.handled)
    decreases next, 2
  {
    forall v: Value, u: Trace | Has(sig, v, ty) && Matched(u)
      ensures var o := Body(w, h, home, next, BindOption(env, b, v), k, u);
        Matched(o.trace) && Has(sig, o.value, sig.handled)
    {
      if b.Some? { assert Has(sig, v, sig.Declared(b.value)); }
      RestMatched(sig, w, h, home, b, next, env, k, v, u, wanted);
    }
  }

  lemma {:induction false} RestMatched(sig: Signature, w: World, h: Handler, home: Env, b: Option<VarId>, next: Stmt,
      env: Env, k: Continuation, v: Value, u: Trace, wanted: Option<TypeId>)
    requires Keeps(sig, w) && Typed(sig, env, Free(next) - OptionSet(b)) && HandlerTyped(sig, h, home)
    requires Covered(sig, next, Cfg.None, wanted) && ArgsFit(sig, h, next) && ResumesOnly(next, Cfg.None)
    requires Goes(sig, k, wanted, sig.handled) && Matched(u) && (b.Some? ==> Has(sig, v, sig.Declared(b.value)))
    ensures var o := Body(w, h, home, next, BindOption(env, b, v), k, u);
      Matched(o.trace) && Has(sig, o.value, sig.handled)
    decreases next, 1
  {
    BindOptionTyped(sig, env, Free(next), b, v);
    BodyMatched(sig, w, h, home, next, BindOption(env, b, v), k, u, wanted);
  }

  /** No run of a handle expression that passes is left without an arm: in every world that keeps to the
      signature, in every environment that does. */
  lemma HandleIsMatched(sig: Signature, w: World, h: Handler, body: Stmt, env: Env, t: Trace)
    requires Passes(sig, h, body) && Keeps(sig, w) && Typed(sig, env, Free(body) + HomeReads(h)) && Matched(t)
    ensures Matched(Handled(w, h, body, env, t).trace) && Has(sig, Handled(w, h, body, env, t).value, sig.handled)
  {
    var k := ReturnClause(w, h, env);
    forall v: Value, u: Trace | Has(sig, v, sig.Declared(h.returnParam)) && Matched(u)
      ensures Matched(k(v, u).trace) && Has(sig, k(v, u).value, sig.handled)
    {
      BindTyped(sig, env, Free(h.returnBody), h.returnParam, v);
      DirectMatched(sig, w, h.returnBody, env[h.returnParam := v], Stop(), u, Cfg.None, sig.handled);
    }
    forall i | 0 <= i < |h.clauses|
      ensures Typed(sig, env, Free(h.clauses[i].body) - Names(h.clauses[i].params))
    {
      forall v | v in Free(h.clauses[i].body) - Names(h.clauses[i].params) ensures v in HomeReads(h) {}
    }
    BodyMatched(sig, w, h, env, body, env, k, t, sig.Declared(h.returnParam));
  }
}
