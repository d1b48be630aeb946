/** What sharing one continuation asks of a clause: the code after a site is entered from a frame every
    site comes back to, so it can rely only on what every site has bound. */
module SharedFrame {
  import Cfg
  import opened Core
  import opened ClauseAnalysis
  import opened Sharing

  /** How a clause's code left off: its value, and whether it resumed on the way. */
  datatype Left = Left(value: Value, trace: Trace, resumed: bool)

  /** The variables every site has bound. */
  ghost function Kept(sites: set<Site>): iset<VarId> { iset v | BoundAtAll(sites, v) }

  ghost predicate BoundAtAll(sites: set<Site>, v: VarId) { forall site :: site in sites ==> v in site.scope }

  /** The frame once the shared continuation is done: what is not kept may hold anything. */
  ghost function Frame(env: Env, kept: iset<VarId>, stale: Env): Env {
    map v | v in env.Keys + stale.Keys :: if v in kept then Lookup(env, v) else Lookup(stale, v)
  }

  ghost predicate Inside(vars: set<VarId>, kept: iset<VarId>) { forall v :: v in vars ==> v in kept }

  lemma FrameAgrees(env: Env, kept: iset<VarId>, stale: Env, vars: set<VarId>)
    requires Inside(vars, kept)
    ensures Agree(Frame(env, kept, stale), env, vars)
  {}

  /** Runs a clause whose sites share their continuation: after a `resume` of `k`, code still to run finds
      the frame, `stale` filling what is not kept. */
  ghost function Shared(w: World, s: Stmt, env: Env, k: VarId, resumption: Continuation, kept: iset<VarId>,
      stale: Trace -> Env, t: Trace): Left
    decreases s
  {
    match s
    case Return(e) => Left(Eval(w, e, env), t, false)
    case Let(b, e, next) => Shared(w, next, env[b := Eval(w, e, env)], k, resumption, kept, stale, t)
    case Val(b, graph, next) =>
      var o := Shared(w, graph, env, k, resumption, kept, stale, t);
      After(o.resumed,
        Shared(w, next, Onwards(env, o, kept, stale)[b := o.value], k, resumption, kept, stale, o.trace))
    case Call(r, callee, args, next) =>
      var event := Called(callee, EvalAll(w, args, env));
      Shared(w, next, env[r := w.answer(t, event)], k, resumption, kept, stale, t + [event])
    case If(c, x, y) =>
      if IsTrue(Eval(w, c, env)) then Shared(w, x, env, k, resumption, kept, stale, t)
      else Shared(w, y, env, k, resumption, kept, stale, t)
    case Perform(r, effect, operation, args, next) =>
      var event := Performed(effect, operation, EvalAll(w, args, env));
      Shared(w, next, BindOption(env, r, w.answer(t, event)), k, resumption, kept, stale, t + [event])
    case Resume(r, resume, arg, next) =>
      var o := resumption(Eval(w, arg, env), t);
      var inner := if resume == k then Frame(env, kept, stale(o.trace)) else env;
      After(resume == k, Shared(w, next, inner[r := o.value], k, resumption, kept, stale, o.trace))
    case Match(_, _, _) =>
      var (branch, inner) := Taken(w, s, env);
      if branch.Some? then Shared(w, branch.value, inner, k, resumption, kept, stale, t)
      else Left(Cfg.Unit, t + [Unmatched], false)
  }

  function After(resumed: bool, o: Left): Left { o.(resumed := o.resumed || resumed) }

  /** The environment the code after a `Val`'s graph starts in. */
  ghost function Onwards(env: Env, o: Left, kept: iset<VarId>, stale: Trace -> Env): Env {
    if o.resumed then Frame(env, kept, stale(o.trace)) else env
  }

  /** All that is owed at any site is kept. */
  ghost predicate Owes(sites: set<Site>, kept: iset<VarId>) {
    forall site :: site in sites ==> Inside(site.pending, kept)
  }

  lemma OwesMore(sites: set<Site>, vars: set<VarId>, kept: iset<VarId>)
    requires Owes(Owing(sites, vars), kept)
    ensures Owes(sites, kept) && (sites != {} ==> Inside(vars, kept))
  {
    forall site | site in sites ensures Inside(site.pending, kept) && Inside(vars, kept) {
      assert Site(site.scope, site.pending + vars) in Owing(sites, vars);
    }
  }

  /** Where all that is owed is kept, whatever else the frame holds, the clause does what it says. */
  lemma {:induction false} SharedRuns(w: World, s: Stmt, env: Env, frame: Env, k: VarId, resumption: Continuation,
      scope: set<VarId>, kept: iset<VarId>, stale: Trace -> Env, t: Trace)
    requires Owes(AllSites(s, k, scope), kept) && Agree(frame, env, Needs(s))
    ensures var o, u := Direct(w, s, env, resumption, t), Shared(w, s, frame, k, resumption, kept, stale, t);
      u.value == o.value && u.trace == o.trace && (u.resumed ==> Resumes(s, k))
    decreases s
  {
    match s
    case Return(e) => EvalAgrees(w, e, frame, env);
    case Let(b, e, next) =>
      EvalAgrees(w, e, frame, env);
      AgreeBind(frame, env, Needs(next), b, Eval(w, e, env));
      SharedRuns(w, next, env[b := Eval(w, e, env)], frame[b := Eval(w, e, env)], k, resumption, scope + {b}, kept,
        stale, t);
    case Val(_, _, _) => SharedVal(w, s, env, frame, k, resumption, scope, kept, stale, t);
    case Call(r, callee, args, next) =>
      EvalAllAgrees(w, args, frame, env);
      var event := Called(callee, EvalAll(w, args, env));
      var v := w.answer(t, event);
      AgreeBind(frame, env, Needs(next), r, v);
      SharedRuns(w, next, env[r := v], frame[r := v], k, resumption, scope + {r}, kept, stale, t + [event]);
    case If(c, x, y) =>
      EvalAgrees(w, c, frame, env);
      SharedRuns(w, if IsTrue(Eval(w, c, env)) then x else y, env, frame, k, resumption, scope, kept, stale, t);
    case Perform(r, effect, operation, args, next) =>
      EvalAllAgrees(w, args, frame, env);
      var event := Performed(effect, operation, EvalAll(w, args, env));
      var v := w.answer(t, event);
      AgreeBindOption(frame, env, Needs(next), r, v);
      SharedRuns(w, next, BindOption(env, r, v), BindOption(frame, r, v), k, resumption, scope + OptionSet(r), kept,
        stale, t + [event]);
    case Resume(_, _, _, _) => SharedResume(w, s, env, frame, k, resumption, scope, kept, stale, t);
    case Match(_, _, _) => SharedMatch(w, s, env, frame, k, resumption, scope, kept, stale, t);
  }

  lemma {:induction false} SharedVal(w: World, s: Stmt, env: Env, frame: Env, k: VarId, resumption: Continuation,
      scope: set<VarId>, kept: iset<VarId>, stale: Trace -> Env, t: Trace)
    requires Owes(AllSites(s, k, scope), kept) && Agree(frame, env, Needs(s)) && s.Val?
    ensures var o, u := Direct(w, s, env, resumption, t), Shared(w, s, frame, k, resumption, kept, stale, t);
      u.value == o.value && u.trace == o.trace && (u.resumed ==> Resumes(s, k))
    decreases s, 0
  {
    var Val(b, graph, next) := s;
    var owed := Needs(next) - {b};
    OwesMore(AllSites(graph, k, scope), owed, kept);
    SharedRuns(w, graph, env, frame, k, resumption, scope, kept, stale, t);
    var o := Shared(w, graph, frame, k, resumption, kept, stale, t);
    SitesAreResumes(graph, k, scope);
    var later := Onwards(frame, o, kept, stale);
    if o.resumed { FrameAgrees(frame, kept, stale(o.trace), owed); }
    AgreeBind(later, env, Needs(next), b, o.value);
    SharedRuns(w, next, env[b := o.value], later[b := o.value], k, resumption, scope + {b}, kept, stale, o.trace);
  }

  lemma {:induction false} SharedResume(w: World, s: Stmt, env: Env, frame: Env, k: VarId, resumption: Continuation,
      scope: set<VarId>, kept: iset<VarId>, stale: Trace -> Env, t: Trace)
    requires Owes(AllSites(s, k, scope), kept) && Agree(frame, env, Needs(s)) && s.Resume?
    ensures var o, u := Direct(w, s, env, resumption, t), Shared(w, s, frame, k, resumption, kept, stale, t);
      u.value == o.value && u.trace == o.trace && (u.resumed ==> Resumes(s, k))
    decreases s, 0
  {
    var Resume(r, resume, arg, next) := s;
    EvalAgrees(w, arg, frame, env);
    var o := resumption(Eval(w, arg, env), t);
    var inner := if resume == k then Frame(frame, kept, stale(o.trace)) else frame;
    if resume == k {
      assert Site(scope, Needs(next) - {r}) in AllSites(s, k, scope);
      FrameAgrees(frame, kept, stale(o.trace), Needs(next) - {r});
    }
    AgreeBind(inner, env, Needs(next), r, o.value);
    SharedRuns(w, next, env[r := o.value], inner[r := o.value], k, resumption, scope + {r}, kept, stale, o.trace);
  }

  lemma {:induction false} SharedMatch(w: World, s: Stmt, env: Env, frame: Env, k: VarId, resumption: Continuation,
      scope: set<VarId>, kept: iset<VarId>, stale: Trace -> Env, t: Trace)
    requires Owes(AllSites(s, k, scope), kept) && Agree(frame, env, Needs(s)) && s.Match?
    ensures var o, u := Direct(w, s, env, resumption, t), Shared(w, s, frame, k, resumption, kept, stale, t);
      u.value == o.value && u.trace == o.trace && (u.resumed ==> Resumes(s, k))
    decreases s, 0
  {
    var (branch, inner) := Taken(w, s, env);
    EvalAgrees(w, s.scrutinee, frame, env);
    MatchSites(s, k, scope);
    if branch.Some? {
      NeedsTaken(w, s, frame, env);
      var i := Selected(s, Eval(w, s.scrutinee, env));
      var bound := if i.Some? then scope + Names(s.cases[i.value].binders) else scope;
      SharedRuns(w, branch.value, inner, Taken(w, s, frame).1, k, resumption, bound, kept, stale, t);
    }
  }

  /** Frames a match cannot tell apart, its branch cannot either. */
  lemma NeedsTaken(w: World, s: Stmt, frame: Env, env: Env)
    requires s.Match? && Agree(frame, env, Needs(s)) && Taken(w, s, env).0.Some?
    ensures Taken(w, s, frame).0 == Taken(w, s, env).0
    ensures Agree(Taken(w, s, frame).1, Taken(w, s, env).1, Needs(Taken(w, s, env).0.value))
  {
    EvalAgrees(w, s.scrutinee, frame, env);
    var v := Eval(w, s.scrutinee, env);
    if Selected(s, v).Some? {
      var c := s.cases[Selected(s, v).value];
      forall x | x in Needs(c.body) - Names(c.binders) ensures x in Needs(s) {}
      assert c.binders[..|c.binders|] == c.binders;
      AgreeBindAll(frame, env, Needs(c.body), c.binders, Padded(v.fields, |c.binders|), |c.binders|);
    }
  }

  // ---------------------------------------------------------------- accepted clauses

  /** A clause accepted for sharing does in the frame its sites share what it does as it stands, for every
      resumption and whatever the other sites left in that frame. */
  lemma AcceptedRunsShared(w: World, c: Clause, env: Env, resumption: Continuation, stale: Trace -> Env, t: Trace)
    requires Defunctionalisable(c) && Qualify(c) != Multi && ForeignIdentity(c.body, c.resumeParam.value)
    ensures var k := c.resumeParam.value;
      var o, u := Direct(w, c.body, env, resumption, t),
        Shared(w, c.body, env, k, resumption, Kept(AllSites(c.body, k, Given(c))), stale, t);
      u.value == o.value && u.trace == o.trace
  {
    var k := c.resumeParam.value;
    var sites := AllSites(c.body, k, Given(c));
    SharedSitesAreBound(c);
    forall site | site in sites ensures Inside(site.pending, Kept(sites)) {}
    SharedRuns(w, c.body, env, env, k, resumption, Given(c), Kept(sites), stale, t);
  }

  // ---------------------------------------------------------------- a refused clause

  /** What a site's code reads of `a` once it is resumed. */
  lemma ReadsBack(w: World, s: Stmt, op: nat, a: VarId, env: Env, k: VarId, resumption: Continuation,
      kept: iset<VarId>, stale: Trace -> Env, t: Trace)
    requires ResumesThenReturns(s, k) && s.next.value == Binary(op, Var(a), Var(s.binding)) && a != s.binding
    ensures var o := resumption(Eval(w, s.graph.arg, env), t);
      && Direct(w, s, env, resumption, t).value == w.binary(op, Lookup(env, a), o.value)
      && Shared(w, s, env, k, resumption, kept, stale, t).value
        == w.binary(op, Lookup(Frame(env, kept, stale(o.trace)), a), o.value)
  {
    var site, o := s.graph, resumption(Eval(w, s.graph.arg, env), t);
    assert Direct(w, site, env, resumption, t) == Outcome(o.value, o.trace);
    assert Shared(w, site, env, k, resumption, kept, stale, t) == Left(o.value, o.trace, true);
    SumOf(w, s.next.value, op, a, s.binding, env, o.value);
    SumOf(w, s.next.value, op, a, s.binding, Frame(env, kept, stale(o.trace)), o.value);
  }

  lemma SumOf(w: World, e: Expr, op: nat, a: VarId, b: VarId, env: Env, v: Value)
    requires e == Binary(op, Var(a), Var(b)) && a != b
    ensures Eval(w, e, env[b := v]) == w.binary(op, Lookup(env, a), v)
  {
    assert Eval(w, Var(a), env[b := v]) == Lookup(env, a) && Eval(w, Var(b), env[b := v]) == v;
  }

  /** The refused clause of `Sharing.PrivateBinding` would not: what its first branch bound for itself is
      whatever the frame holds by then. */
  lemma PrivateBindingReadsStale(p: VarId, w: World, env: Env, resumption: Continuation, stale: Trace -> Env, t: Trace)
    requires IsTrue(Lookup(env, p))
    ensures var c, o := PrivateBinding(p), resumption(Lookup(env, p), t);
      && Direct(w, c.body, env, resumption, t).value == w.binary(p, Lookup(env, p), o.value)
      && Shared(w, c.body, env, p + 1, resumption, Kept(AllSites(c.body, p + 1, Given(c))), stale, t).value
        == w.binary(p, Lookup(stale(o.trace), p + 2), o.value)
  {
    var c, k, given := PrivateBinding(p), p + 1, {p, p + 1};
    var x, y := c.body.thenBranch, c.body.elseBranch;
    assert Given(c) == given;
    var other := Site(given, Needs(y.graph.next) - {p + 6});
    assert other in AllSites(y.graph, k, given);
    assert Site(given, other.pending + (Needs(y.next) - {p + 5})) in AllSites(y, k, given);
    var kept := Kept(AllSites(c.body, k, given));
    assert !BoundAtAll(AllSites(c.body, k, given), p + 2);
    ReadsBack(w, x.next, p, p + 2, env[p + 2 := Lookup(env, p)], k, resumption, kept, stale, t);
    assert Shared(w, x, env, k, resumption, kept, stale, t)
      == Shared(w, x.next, env[p + 2 := Lookup(env, p)], k, resumption, kept, stale, t);
    assert Direct(w, x, env, resumption, t) == Direct(w, x.next, env[p + 2 := Lookup(env, p)], resumption, t);
  }
}
