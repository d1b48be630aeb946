/** The direct-style Core fragment a handled body and its handler are written in, and what it
    means: a handled body is run in continuation-passing style, a clause directly, with `resume`
    calling the rest of the handled body. */
module Core {
  import Cfg

  type VarId = nat
  type Value = Cfg.Val
  type Option<+T> = Cfg.Option<T>

  // ---------------------------------------------------------------- expressions

  datatype Expr =
    | Var(id: VarId)
    | Literal(value: Value)
    | Unary(op: nat, operand: Expr)
    | Binary(op: nat, lhs: Expr, rhs: Expr)
    | Prim(op: nat, args: seq<Expr>)

  type Env = map<VarId, Value>

  /** Something the rest of the world can see a program do. */
  datatype Event =
    | Called(callee: nat, args: seq<Value>)
    | Performed(effect: nat, operation: nat, args: seq<Value>)
    | HandlerOpened(effect: nat)
    | HandlerClosed(effect: nat)
    | StageOpened(stage: nat)
    | StageClosed(stage: nat)
    | Unmatched

  type Trace = seq<Event>

  datatype Outcome = Outcome(value: Value, trace: Trace)

  /** The world: what operators compute, how it answers an event after a trace, and what the functions
      called inside an expression return, where they do. */
  datatype World = World(unary: (nat, Value) -> Value, binary: (nat, Value, Value) -> Value,
                         prim: (nat, seq<Value>) -> Value, answer: (Trace, Event) -> Value,
                         pure: imap<(nat, seq<Value>), Value>)

  type Continuation = (Value, Trace) -> Outcome

  /** No match was left without an arm; the type checker sees that none can be. */
  predicate Matched(t: Trace) { Unmatched !in t }

  /** A continuation only adds to what the world has seen. */
  ghost predicate Extends(k: Continuation) { forall v, u :: u <= k(v, u).trace }

  lemma MatchedBefore(t: Trace, u: Trace)
    requires t <= u && Matched(u)
    ensures Matched(t)
  {}

  function Lookup(env: Env, v: VarId): Value { if v in env then env[v] else Cfg.Unit }

  function Eval(w: World, e: Expr, env: Env): Value
    decreases e
  {
    match e
    case Var(v) => Lookup(env, v)
    case Literal(value) => value
    case Unary(op, operand) => w.unary(op, Eval(w, operand, env))
    case Binary(op, lhs, rhs) => w.binary(op, Eval(w, lhs, env), Eval(w, rhs, env))
    case Prim(op, args) => w.prim(op, EvalAll(w, args, env))
  }

  function EvalAll(w: World, es: seq<Expr>, env: Env): seq<Value>
    decreases es
  {
    seq(|es|, i requires 0 <= i < |es| => Eval(w, es[i], env))
  }

  predicate IsTrue(v: Value) { v.Int? && v.i != 0 }

  function Reads(e: Expr): set<VarId>
    decreases e
  {
    match e
    case Var(v) => {v}
    case Literal(_) => {}
    case Unary(_, operand) => Reads(operand)
    case Binary(_, lhs, rhs) => Reads(lhs) + Reads(rhs)
    case Prim(_, args) => ReadsOfAll(args)
  }

  function ReadsOfAll(es: seq<Expr>): set<VarId>
    decreases es
  {
    set i, v | 0 <= i < |es| && v in Reads(es[i]) :: v
  }

  ghost predicate Agree(a: Env, b: Env, vars: set<VarId>) {
    forall v :: v in vars ==> Lookup(a, v) == Lookup(b, v)
  }

  lemma {:induction false} EvalAgrees(w: World, e: Expr, a: Env, b: Env)
    requires Agree(a, b, Reads(e))
    ensures Eval(w, e, a) == Eval(w, e, b)
    decreases e
  {
    match e
    case Unary(_, operand) => EvalAgrees(w, operand, a, b);
    case Binary(_, lhs, rhs) => EvalAgrees(w, lhs, a, b); EvalAgrees(w, rhs, a, b);
    case Prim(_, args) => EvalAllAgrees(w, args, a, b);
    case _ =>
  }

  lemma {:induction false} EvalAllAgrees(w: World, es: seq<Expr>, a: Env, b: Env)
    requires Agree(a, b, ReadsOfAll(es))
    ensures EvalAll(w, es, a) == EvalAll(w, es, b)
    decreases es
  {
    forall i | 0 <= i < |es| ensures Eval(w, es[i], a) == Eval(w, es[i], b) {
      assert Reads(es[i]) <= ReadsOfAll(es);
      EvalAgrees(w, es[i], a, b);
    }
  }

  function BindOption(env: Env, v: Option<VarId>, value: Value): Env {
    match v
    case None => env
    case Some(v) => env[v := value]
  }

  /** Parameters are paired with arguments up to the shorter of the two. */
  function Paired(params: seq<VarId>, values: seq<Value>): nat {
    if |params| <= |values| then |params| else |values|
  }

  function BindAll(env: Env, params: seq<VarId>, values: seq<Value>, n: nat): Env
    requires n <= Paired(params, values)
  {
    if n == 0 then env else BindAll(env, params, values, n - 1)[params[n - 1] := values[n - 1]]
  }

  lemma AgreeBind(a: Env, b: Env, vars: set<VarId>, x: VarId, value: Value)
    requires Agree(a, b, vars - {x})
    ensures Agree(a[x := value], b[x := value], vars)
  {
    forall v | v in vars ensures Lookup(a[x := value], v) == Lookup(b[x := value], v) {
      if v != x { assert v in vars - {x}; }
    }
  }

  lemma AgreeBindOption(a: Env, b: Env, vars: set<VarId>, x: Option<VarId>, value: Value)
    requires Agree(a, b, vars - OptionSet(x))
    ensures Agree(BindOption(a, x, value), BindOption(b, x, value), vars)
  {
    match x
    case None => assert vars - OptionSet(x) == vars;
    case Some(x) => AgreeBind(a, b, vars, x, value);
  }

  lemma {:induction false} AgreeBindAll(a: Env, b: Env, vars: set<VarId>, params: seq<VarId>, values: seq<Value>,
      n: nat)
    requires n <= Paired(params, values) && Agree(a, b, vars - Names(params[..n]))
    ensures Agree(BindAll(a, params, values, n), BindAll(b, params, values, n), vars)
  {
    if n == 0 {
      assert vars - Names(params[..0]) == vars;
    } else {
      assert vars - {params[n - 1]} - Names(params[..n - 1]) == vars - Names(params[..n]) by {
        assert params[..n] == params[..n - 1] + [params[n - 1]];
      }
      AgreeBindAll(a, b, vars - {params[n - 1]}, params, values, n - 1);
      AgreeBind(BindAll(a, params, values, n - 1), BindAll(b, params, values, n - 1), vars, params[n - 1],
        values[n - 1]);
    }
  }

  lemma {:induction false} AgreeOutside(a: Env, b: Env, vars: set<VarId>, params: seq<VarId>, values: seq<Value>,
      n: nat)
    requires n <= Paired(params, values) && Agree(a, b, vars) && Names(params) !! vars
    ensures Agree(BindAll(a, params, values, n), b, vars)
  {
    if n > 0 {
      AgreeOutside(a, b, vars, params, values, n - 1);
      assert params[n - 1] in Names(params);
    }
  }

  /** One value for each of `n` binders, the missing ones unit. */
  function Padded(fields: seq<Value>, n: nat): seq<Value> {
    seq(n, i requires 0 <= i < n => if i < |fields| then fields[i] else Cfg.Unit)
  }

  function BindFields(env: Env, binders: seq<VarId>, fields: seq<Value>): Env {
    BindAll(env, binders, Padded(fields, |binders|), |binders|)
  }

  // ---------------------------------------------------------------- statements

  datatype Stmt =
    | Return(value: Expr)
    | Let(binding: VarId, bound: Expr, next: Stmt)
    | Val(binding: VarId, graph: Stmt, next: Stmt)
    | Call(result: VarId, callee: nat, args: seq<Expr>, next: Stmt)
    | If(cond: Expr, thenBranch: Stmt, elseBranch: Stmt)
    | Perform(answer: Option<VarId>, effect: nat, operation: nat, args: seq<Expr>, next: Stmt)
    | Resume(result: VarId, resume: VarId, arg: Expr, next: Stmt)
    | Match(scrutinee: Expr, cases: seq<Case>, default: Option<Stmt>)

  datatype Case = Case(tag: nat, binders: seq<VarId>, body: Stmt)

  datatype Clause = Clause(operation: nat, params: seq<VarId>, resumeParam: Option<VarId>, body: Stmt)

  datatype Handler = Handler(effect: nat, clauses: seq<Clause>, returnParam: VarId, returnBody: Stmt)

  function OptionSet(v: Option<VarId>): set<VarId> {
    match v
    case None => {}
    case Some(v) => {v}
  }

  function Names(vs: seq<VarId>): set<VarId> { set v | v in vs }

  /** The statements a match chooses from. */
  function Branches(s: Stmt): (branches: seq<Stmt>)
    requires s.Match?
    ensures forall b :: b in branches ==> b < s
    ensures forall i :: 0 <= i < |s.cases| ==> s.cases[i].body in branches
    ensures s.default.Some? ==> s.default.value in branches
    ensures forall b :: b in branches ==> s.default == Cfg.Some(b) || exists i ::
      0 <= i < |s.cases| && s.cases[i].body == b
  {
    var bodies := seq(|s.cases|, i requires 0 <= i < |s.cases| => s.cases[i].body);
    assert forall i :: 0 <= i < |s.cases| ==> s.cases[i].body == bodies[i];
    bodies + (if s.default.Some? then [s.default.value] else [])
  }

  /** Variables a statement reads from outside; the name of a resumption is not one. */
  function Free(s: Stmt): set<VarId> {
    match s
    case Return(e) => Reads(e)
    case Let(b, e, next) => Reads(e) + (Free(next) - {b})
    case Val(b, graph, next) => Free(graph) + (Free(next) - {b})
    case Call(r, _, args, next) => ReadsOfAll(args) + (Free(next) - {r})
    case If(c, x, y) => Reads(c) + Free(x) + Free(y)
    case Perform(r, _, _, args, next) => ReadsOfAll(args) + (Free(next) - OptionSet(r))
    case Resume(r, _, arg, next) => Reads(arg) + (Free(next) - {r})
    case Match(e, cases, default) =>
      Reads(e) + (set i, v | 0 <= i < |cases| && v in Free(cases[i].body) - Names(cases[i].binders) :: v)
      + (if default.Some? then Free(default.value) else {})
  }

  /** What the handler reads from where it stands. */
  function HomeReads(h: Handler): set<VarId> {
    (set i, v | 0 <= i < |h.clauses| && v in Free(h.clauses[i].body) - Names(h.clauses[i].params) :: v)
    + (Free(h.returnBody) - {h.returnParam})
  }

  function Binders(s: Stmt): set<VarId> {
    match s
    case Return(_) => {}
    case Let(b, _, next) => {b} + Binders(next)
    case Val(b, graph, next) => {b} + Binders(graph) + Binders(next)
    case Call(r, _, _, next) => {r} + Binders(next)
    case If(_, x, y) => Binders(x) + Binders(y)
    case Perform(r, _, _, _, next) => OptionSet(r) + Binders(next)
    case Resume(r, _, _, next) => {r} + Binders(next)
    case Match(_, cases, default) =>
      (set i, v | 0 <= i < |cases| && v in Names(cases[i].binders) + Binders(cases[i].body) :: v)
      + (if default.Some? then Binders(default.value) else {})
  }

  predicate Performs(s: Stmt, effect: nat) {
    match s
    case Return(_) => false
    case Let(_, _, next) => Performs(next, effect)
    case Val(_, graph, next) => Performs(graph, effect) || Performs(next, effect)
    case Call(_, _, _, next) => Performs(next, effect)
    case If(_, x, y) => Performs(x, effect) || Performs(y, effect)
    case Perform(_, e, _, _, next) => e == effect || Performs(next, effect)
    case Resume(_, _, _, next) => Performs(next, effect)
    case Match(_, _, _) => exists b :: b in Branches(s) && Performs(b, effect)
  }

  /** The statement holds a `resume` of `k`. */
  predicate Resumes(s: Stmt, k: VarId) {
    match s
    case Return(_) => false
    case Let(_, _, next) => Resumes(next, k)
    case Val(_, graph, next) => Resumes(graph, k) || Resumes(next, k)
    case Call(_, _, _, next) => Resumes(next, k)
    case If(_, x, y) => Resumes(x, k) || Resumes(y, k)
    case Perform(_, _, _, _, next) => Resumes(next, k)
    case Resume(_, r, _, next) => r == k || Resumes(next, k)
    case Match(_, _, _) => exists b :: b in Branches(s) && Resumes(b, k)
  }

  /** Every `resume` in the statement is of `k`; with no `k`, there is none. */
  predicate ResumesOnly(s: Stmt, k: Option<VarId>) {
    match s
    case Return(_) => true
    case Let(_, _, next) => ResumesOnly(next, k)
    case Val(_, graph, next) => ResumesOnly(graph, k) && ResumesOnly(next, k)
    case Call(_, _, _, next) => ResumesOnly(next, k)
    case If(_, x, y) => ResumesOnly(x, k) && ResumesOnly(y, k)
    case Perform(_, _, _, _, next) => ResumesOnly(next, k)
    case Resume(_, r, _, next) => k == Cfg.Some(r) && ResumesOnly(next, k)
    case Match(_, _, _) => forall b :: b in Branches(s) ==> ResumesOnly(b, k)
  }

  /** Nothing bound inside a `Val`'s graph is what the code after the `Val` means by that name. */
  predicate Tidy(s: Stmt) {
    match s
    case Return(_) => true
    case Let(_, _, next) => Tidy(next)
    case Val(b, graph, next) => Tidy(graph) && Tidy(next) && Binders(graph) !! (Free(next) - {b})
    case Call(_, _, _, next) => Tidy(next)
    case If(_, x, y) => Tidy(x) && Tidy(y)
    case Perform(_, _, _, _, next) => Tidy(next)
    case Resume(_, _, _, next) => Tidy(next)
    case Match(_, _, _) => forall b :: b in Branches(s) ==> Tidy(b)
  }

  /** The clause that answers an operation is the first that names it. */
  function Find(clauses: seq<Clause>, operation: nat): Option<nat> {
    FindFrom(clauses, operation, 0)
  }

  function FindFrom(clauses: seq<Clause>, operation: nat, i: nat): (r: Option<nat>)
    requires i <= |clauses|
    ensures r.Some? ==> i <= r.value < |clauses| && clauses[r.value].operation == operation
    ensures r.Some? ==> forall k :: i <= k < r.value ==> clauses[k].operation != operation
    ensures r.None? ==> forall k :: i <= k < |clauses| ==> clauses[k].operation != operation
    decreases |clauses| - i
  {
    if i == |clauses| then Cfg.None
    else if clauses[i].operation == operation then Cfg.Some(i)
    else FindFrom(clauses, operation, i + 1)
  }

  /** The first case for the constructor, if any. */
  function Chosen(cases: seq<Case>, tag: nat, i: nat): (r: Option<nat>)
    requires i <= |cases|
    ensures r.Some? ==> i <= r.value < |cases| && cases[r.value].tag == tag
    decreases |cases| - i
  {
    if i == |cases| then Cfg.None else if cases[i].tag == tag then Cfg.Some(i) else Chosen(cases, tag, i + 1)
  }

  function Selected(s: Stmt, v: Value): (r: Option<nat>)
    requires s.Match?
    ensures r.Some? ==> r.value < |s.cases|
  {
    if v.Ctor? then Chosen(s.cases, v.tag, 0) else Cfg.None
  }

  /** With the selected case's fields bound. */
  function Entered(s: Stmt, v: Value, env: Env): Env
    requires s.Match?
  {
    var i := Selected(s, v);
    if i.Some? then BindFields(env, s.cases[i.value].binders, v.fields) else env
  }

  /** The branch a match goes on with, and its environment. */
  function Taken(w: World, s: Stmt, env: Env): (r: (Option<Stmt>, Env))
    requires s.Match?
    ensures r.0.Some? ==> r.0.value in Branches(s) && r.0.value < s
  {
    var v := Eval(w, s.scrutinee, env);
    var i := Selected(s, v);
    (if i.Some? then Cfg.Some(s.cases[i.value].body) else s.default, Entered(s, v, env))
  }

  /** Two environments a match cannot tell apart, its branch cannot either. */
  lemma TakenAgrees(w: World, s: Stmt, a: Env, b: Env)
    requires s.Match? && Agree(a, b, Free(s)) && Taken(w, s, b).0.Some?
    ensures Eval(w, s.scrutinee, a) == Eval(w, s.scrutinee, b)
    ensures Agree(Entered(s, Eval(w, s.scrutinee, b), a), Taken(w, s, b).1, Free(Taken(w, s, b).0.value))
  {
    EvalAgrees(w, s.scrutinee, a, b);
    var v := Eval(w, s.scrutinee, b);
    if Selected(s, v).Some? {
      var c := s.cases[Selected(s, v).value];
      forall x | x in Free(c.body) - Names(c.binders) ensures x in Free(s) {}
      assert c.binders[..|c.binders|] == c.binders;
      AgreeBindAll(a, b, Free(c.body), c.binders, Padded(v.fields, |c.binders|), |c.binders|);
    }
  }

  lemma CaseBinders(s: Stmt, i: nat)
    requires s.Match? && i < |s.cases|
    ensures Names(s.cases[i].binders) + Binders(s.cases[i].body) <= Binders(s)
  {
    forall x | x in Names(s.cases[i].binders) + Binders(s.cases[i].body) ensures x in Binders(s) {
      assert 0 <= i < |s.cases| && x in Names(s.cases[i].binders) + Binders(s.cases[i].body);
    }
  }

  /** A branch reads what the match does, and fields the match binds. */
  lemma BranchReads(s: Stmt, b: Stmt)
    requires s.Match? && b in Branches(s)
    ensures Free(b) <= Free(s) + Binders(s)
  {
    if s.default != Cfg.Some(b) {
      var i :| 0 <= i < |s.cases| && s.cases[i].body == b;
      CaseBinders(s, i);
      forall x | x in Free(b) - Names(s.cases[i].binders) ensures x in Free(s) {
        assert 0 <= i < |s.cases| && x in Free(s.cases[i].body) - Names(s.cases[i].binders);
      }
    }
  }

  /** A branch's fields are among what the match binds. */
  lemma EnteredOutside(s: Stmt, v: Value, a: Env, b: Env, vars: set<VarId>)
    requires s.Match? && Agree(a, b, vars) && Binders(s) !! vars
    ensures Agree(Entered(s, v, a), b, vars)
  {
    if Selected(s, v).Some? {
      var c := s.cases[Selected(s, v).value];
      CaseBinders(s, Selected(s, v).value);
      AgreeOutside(a, b, vars, c.binders, Padded(v.fields, |c.binders|), |c.binders|);
    }
  }

  lemma BranchBinders(s: Stmt, b: Stmt)
    requires s.Match? && b in Branches(s)
    ensures Binders(b) <= Binders(s)
  {
    if s.default != Cfg.Some(b) {
      var i :| 0 <= i < |s.cases| && s.cases[i].body == b;
      CaseBinders(s, i);
    }
  }

  // ---------------------------------------------------------------- meaning

  /** Run a clause, or any code that performs nothing handled: `resume` runs the rest of the handled
      body and comes back with the handle's value. */
  ghost function Direct(w: World, s: Stmt, env: Env, resumption: Continuation, t: Trace): Outcome
    decreases s
  {
    match s
    case Return(e) => Outcome(Eval(w, e, env), t)
    case Let(b, e, next) => Direct(w, next, env[b := Eval(w, e, env)], resumption, t)
    case Val(b, graph, next) =>
      var o := Direct(w, graph, env, resumption, t);
      Direct(w, next, env[b := o.value], resumption, o.trace)
    case Call(r, callee, args, next) =>
      var event := Called(callee, EvalAll(w, args, env));
      Direct(w, next, env[r := w.answer(t, event)], resumption, t + [event])
    case If(c, x, y) =>
      if IsTrue(Eval(w, c, env)) then Direct(w, x, env, resumption, t) else Direct(w, y, env, resumption, t)
    case Perform(r, effect, operation, args, next) =>
      var event := Performed(effect, operation, EvalAll(w, args, env));
      Direct(w, next, BindOption(env, r, w.answer(t, event)), resumption, t + [event])
    case Resume(r, _, arg, next) =>
      var o := resumption(Eval(w, arg, env), t);
      Direct(w, next, env[r := o.value], resumption, o.trace)
    case Match(_, _, _) =>
      var (branch, inner) := Taken(w, s, env);
      if branch.Some? then Direct(w, branch.value, inner, resumption, t) else Outcome(Cfg.Unit, t + [Unmatched])
  }

  /** Run a handled body; `k` takes its value on to the handler's return clause. A perform hands
      its clause the rest of the body, up to and including the return clause, as the resumption. */
  ghost function Body(w: World, h: Handler, home: Env, s: Stmt, env: Env, k: Continuation, t: Trace): Outcome
    decreases s, 0
  {
    match s
    case Return(e) => k(Eval(w, e, env), t)
    case Let(b, e, next) => Body(w, h, home, next, env[b := Eval(w, e, env)], k, t)
    case Val(b, graph, next) =>
      Body(w, h, home, graph, env, Rest(w, h, home, Cfg.Some(b), next, env, k), t)
    case Call(r, callee, args, next) =>
      var event := Called(callee, EvalAll(w, args, env));
      Body(w, h, home, next, env[r := w.answer(t, event)], k, t + [event])
    case If(c, x, y) =>
      if IsTrue(Eval(w, c, env)) then Body(w, h, home, x, env, k, t) else Body(w, h, home, y, env, k, t)
    case Perform(r, effect, operation, args, next) =>
      if effect == h.effect then
        var i := Find(h.clauses, operation);
        if i.None? then Body(w, h, home, next, env, k, t)
        else Answered(w, h.clauses[i.value], home, EvalAll(w, args, env), Rest(w, h, home, r, next, env, k), t)
      else
        var event := Performed(effect, operation, EvalAll(w, args, env));
        Body(w, h, home, next, BindOption(env, r, w.answer(t, event)), k, t + [event])
    case Resume(_, _, _, next) => Body(w, h, home, next, env, k, t)
    case Match(_, _, _) =>
      var (branch, inner) := Taken(w, s, env);
      if branch.Some? then Body(w, h, home, branch.value, inner, k, t) else k(Cfg.Unit, t + [Unmatched])
  }

  /** What is still to run once a value arrives: bind it, then the rest of the handled body. */
  ghost function Rest(w: World, h: Handler, home: Env, b: Option<VarId>, next: Stmt, env: Env,
      k: Continuation): Continuation
    decreases next, 1
  {
    (a: Value, u: Trace) => Body(w, h, home, next, BindOption(env, b, a), k, u)
  }

  /** A clause runs in the environment of its handler, extended with its arguments. */
  ghost function Answered(w: World, clause: Clause, home: Env, values: seq<Value>, resumption: Continuation,
      t: Trace): Outcome {
    Direct(w, clause.body, BindAll(home, clause.params, values, Paired(clause.params, values)), resumption, t)
  }

  ghost function Stop(): Continuation { (a: Value, u: Trace) => Outcome(a, u) }

  ghost function ReturnClause(w: World, h: Handler, home: Env): Continuation {
    (a: Value, u: Trace) => Direct(w, h.returnBody, home[h.returnParam := a], Stop(), u)
  }

  /** The handle expression, run where it stands. */
  ghost function Handled(w: World, h: Handler, body: Stmt, env: Env, t: Trace): Outcome {
    Body(w, h, env, body, env, ReturnClause(w, h, env), t)
  }

  /** Code that performs nothing handled and resumes nothing only hands its value on. */
  lemma {:induction false} BodyIsDirect(w: World, h: Handler, home: Env, s: Stmt, env: Env, k: Continuation, t: Trace)
    requires !Performs(s, h.effect) && ResumesOnly(s, Cfg.None)
    ensures var o := Direct(w, s, env, Stop(), t); Body(w, h, home, s, env, k, t) == k(o.value, o.trace)
    decreases s
  {
    match s
    case Return(_) =>
    case Let(b, e, next) => BodyIsDirect(w, h, home, next, env[b := Eval(w, e, env)], k, t);
    case Val(b, graph, next) =>
      var o := Direct(w, graph, env, Stop(), t);
      BodyIsDirect(w, h, home, graph, env, Rest(w, h, home, Cfg.Some(b), next, env, k), t);
      BodyIsDirect(w, h, home, next, env[b := o.value], k, o.trace);
      assert BindOption(env, Cfg.Some(b), o.value) == env[b := o.value];
    case Call(r, callee, args, next) =>
      var event := Called(callee, EvalAll(w, args, env));
      BodyIsDirect(w, h, home, next, env[r := w.answer(t, event)], k, t + [event]);
    case If(c, x, y) =>
      BodyIsDirect(w, h, home, x, env, k, t);
      BodyIsDirect(w, h, home, y, env, k, t);
    case Perform(r, effect, operation, args, next) =>
      var event := Performed(effect, operation, EvalAll(w, args, env));
      BodyIsDirect(w, h, home, next, BindOption(env, r, w.answer(t, event)), k, t + [event]);
    case Resume(_, _, _, _) => assert false;
    case Match(_, _, _) =>
      var (branch, inner) := Taken(w, s, env);
      if branch.Some? { BodyIsDirect(w, h, home, branch.value, inner, k, t); }
  }

  /** Running code only adds to what the world has seen. */
  lemma {:induction false} DirectExtends(w: World, s: Stmt, env: Env, resumption: Continuation, t: Trace)
    requires Extends(resumption)
    ensures t <= Direct(w, s, env, resumption, t).trace
    decreases s
  {
    match s
    case Return(_) =>
    case Let(b, e, next) => DirectExtends(w, next, env[b := Eval(w, e, env)], resumption, t);
    case Val(b, graph, next) =>
      var o := Direct(w, graph, env, resumption, t);
      DirectExtends(w, graph, env, resumption, t);
      DirectExtends(w, next, env[b := o.value], resumption, o.trace);
    case Call(r, callee, args, next) =>
      var event := Called(callee, EvalAll(w, args, env));
      DirectExtends(w, next, env[r := w.answer(t, event)], resumption, t + [event]);
    case If(c, x, y) =>
      DirectExtends(w, x, env, resumption, t);
      DirectExtends(w, y, env, resumption, t);
    case Perform(r, effect, operation, args, next) =>
      var event := Performed(effect, operation, EvalAll(w, args, env));
      DirectExtends(w, next, BindOption(env, r, w.answer(t, event)), resumption, t + [event]);
    case Resume(r, _, arg, next) =>
      var o := resumption(Eval(w, arg, env), t);
      DirectExtends(w, next, env[r := o.value], resumption, o.trace);
    case Match(_, _, _) =>
      var (branch, inner) := Taken(w, s, env);
      if branch.Some? { DirectExtends(w, branch.value, inner, resumption, t); }
  }

  lemma {:induction false} BodyExtends(w: World, h: Handler, home: Env, s: Stmt, env: Env, k: Continuation, t: Trace)
    requires Extends(k)
    ensures t <= Body(w, h, home, s, env, k, t).trace
    decreases s, 0
  {
    match s
    case Return(_) =>
    case Let(b, e, next) => BodyExtends(w, h, home, next, env[b := Eval(w, e, env)], k, t);
    case Val(b, graph, next) =>
      RestExtends(w, h, home, Cfg.Some(b), next, env, k);
      BodyExtends(w, h, home, graph, env, Rest(w, h, home, Cfg.Some(b), next, env, k), t);
    case Call(r, callee, args, next) =>
      var event := Called(callee, EvalAll(w, args, env));
      BodyExtends(w, h, home, next, env[r := w.answer(t, event)], k, t + [event]);
    case If(c, x, y) =>
      BodyExtends(w, h, home, x, env, k, t);
      BodyExtends(w, h, home, y, env, k, t);
    case Perform(r, effect, operation, args, next) =>
      var values := EvalAll(w, args, env);
      if effect == h.effect {
        var i := Find(h.clauses, operation);
        if i.None? {
          BodyExtends(w, h, home, next, env, k, t);
        } else {
          var clause := h.clauses[i.value];
          RestExtends(w, h, home, r, next, env, k);
          DirectExtends(w, clause.body, BindAll(home, clause.params, values, Paired(clause.params, values)),
            Rest(w, h, home, r, next, env, k), t);
        }
      } else {
        var event := Performed(effect, operation, values);
        BodyExtends(w, h, home, next, BindOption(env, r, w.answer(t, event)), k, t + [event]);
      }
    case Resume(_, _, _, next) => BodyExtends(w, h, home, next, env, k, t);
    case Match(_, _, _) =>
      var (branch, inner) := Taken(w, s, env);
      if branch.Some? { BodyExtends(w, h, home, branch.value, inner, k, t); }
      else { assert t + [Unmatched] <= k(Cfg.Unit, t + [Unmatched]).trace; }
  }

  lemma {:induction false} RestExtends(w: World, h: Handler, home: Env, b: Option<VarId>, next: Stmt, env: Env,
      k: Continuation)
    requires Extends(k)
    ensures Extends(Rest(w, h, home, b, next, env, k))
    decreases next, 1
  {
    forall a: Value, u: Trace ensures u <= Rest(w, h, home, b, next, env, k)(a, u).trace {
      BodyExtends(w, h, home, next, BindOption(env, b, a), k, u);
    }
  }
}
