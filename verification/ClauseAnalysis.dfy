/** What is known of a handler clause before it is erased: how often it resumes, whether it resumes
    in tail position, whether its sites can share one continuation, and so how it is erased. */
module ClauseAnalysis {
  import Cfg
  import opened Core

  // ---------------------------------------------------------------- how often a clause resumes

  datatype UseBound = Zero | One | Many {
    function Plus(other: UseBound): UseBound {
      match (this, other)
      case (Many, _) => Many
      case (_, Many) => Many
      case (One, One) => Many
      case (One, Zero) => One
      case (Zero, One) => One
      case (Zero, Zero) => Zero
    }

    function Max(other: UseBound): UseBound {
      match (this, other)
      case (Many, _) => Many
      case (_, Many) => Many
      case (One, _) => One
      case (_, One) => One
      case (Zero, Zero) => Zero
    }

    function Min(other: UseBound): UseBound {
      match (this, other)
      case (Zero, _) => Zero
      case (_, Zero) => Zero
      case (One, _) => One
      case (_, One) => One
      case (Many, Many) => Many
    }

    /** `n` uses are within the bound. */
    predicate Allows(n: nat) {
      match this
      case Zero => n == 0
      case One => n <= 1
      case Many => true
    }

    predicate Demands(n: nat) {
      match this
      case Zero => true
      case One => n >= 1
      case Many => n >= 2
    }
  }

  datatype UseRange = UseRange(min: UseBound, max: UseBound) {
    function Plus(other: UseRange): UseRange { UseRange(min.Plus(other.min), max.Plus(other.max)) }

    function Join(other: UseRange): UseRange { UseRange(min.Min(other.min), max.Max(other.max)) }
  }

  function Uses(s: Stmt, k: VarId): UseRange
    decreases s
  {
    match s
    case Return(_) => UseRange(Zero, Zero)
    case Let(_, _, next) => Uses(next, k)
    case Val(_, graph, next) => Uses(graph, k).Plus(Uses(next, k))
    case Call(_, _, _, next) => Uses(next, k)
    case If(_, x, y) => Uses(x, k).Join(Uses(y, k))
    case Perform(_, _, _, _, next) => Uses(next, k)
    case Resume(_, r, _, next) => (if r == k then UseRange(One, One) else UseRange(Zero, Zero)).Plus(Uses(next, k))
    case Match(_, cases, default) =>
      var range := CaseUses(s, k, |cases|);
      if default.Some? then range.Join(Uses(default.value, k)) else range
  }

  /** Over the first `n` cases. The fold starts from no use at all, so a match's lower bound is zero. */
  function CaseUses(s: Stmt, k: VarId, n: nat): UseRange
    requires s.Match? && n <= |s.cases|
    decreases s, n
  {
    if n == 0 then UseRange(Zero, Zero) else CaseUses(s, k, n - 1).Join(Uses(s.cases[n - 1].body, k))
  }

  lemma {:induction false} CaseUsesCover(s: Stmt, k: VarId, n: nat)
    requires s.Match? && n <= |s.cases|
    ensures CaseUses(s, k, n).min == Zero
    ensures forall i :: 0 <= i < n ==> CaseUses(s, k, n).max == CaseUses(s, k, n).max.Max(Uses(s.cases[i].body, k).max)
    ensures CaseUses(s, k, n).max == Zero <==> forall i :: 0 <= i < n ==> Uses(s.cases[i].body, k).max == Zero
  {
    if n > 0 { CaseUsesCover(s, k, n - 1); }
  }

  /** A match's range covers every branch's. */
  lemma BranchUses(s: Stmt, k: VarId, b: Stmt)
    requires s.Match? && b in Branches(s)
    ensures Uses(s, k).min == Zero && forall n :: Uses(b, k).max.Allows(n) ==> Uses(s, k).max.Allows(n)
    ensures Uses(s, k).max != Many ==> Uses(b, k).max != Many
  {
    CaseUsesCover(s, k, |s.cases|);
  }

  /** How often one run of the code resumes `k`. */
  ghost function RunUses(w: World, s: Stmt, env: Env, k: VarId, resumption: Continuation, t: Trace): nat
    decreases s
  {
    match s
    case Return(_) => 0
    case Let(b, e, next) => RunUses(w, next, env[b := Eval(w, e, env)], k, resumption, t)
    case Val(b, graph, next) =>
      var o := Direct(w, graph, env, resumption, t);
      RunUses(w, graph, env, k, resumption, t) + RunUses(w, next, env[b := o.value], k, resumption, o.trace)
    case Call(r, callee, args, next) =>
      var event := Called(callee, EvalAll(w, args, env));
      RunUses(w, next, env[r := w.answer(t, event)], k, resumption, t + [event])
    case If(c, x, y) =>
      if IsTrue(Eval(w, c, env)) then RunUses(w, x, env, k, resumption, t) else RunUses(w, y, env, k, resumption, t)
    case Perform(r, effect, operation, args, next) =>
      var event := Performed(effect, operation, EvalAll(w, args, env));
      RunUses(w, next, BindOption(env, r, w.answer(t, event)), k, resumption, t + [event])
    case Resume(r, resume, arg, next) =>
      var o := resumption(Eval(w, arg, env), t);
      (if resume == k then 1 else 0) + RunUses(w, next, env[r := o.value], k, resumption, o.trace)
    case Match(_, _, _) =>
      var (branch, inner) := Taken(w, s, env);
      if branch.Some? then RunUses(w, branch.value, inner, k, resumption, t) else 0
  }

  /** The range bounds every run. */
  lemma {:induction false} UsesBoundRuns(w: World, s: Stmt, env: Env, k: VarId, resumption: Continuation, t: Trace)
    ensures Uses(s, k).min.Demands(RunUses(w, s, env, k, resumption, t))
    ensures Uses(s, k).max.Allows(RunUses(w, s, env, k, resumption, t))
    decreases s
  {
    match s
    case Return(_) =>
    case Let(b, e, next) => UsesBoundRuns(w, next, env[b := Eval(w, e, env)], k, resumption, t);
    case Val(b, graph, next) =>
      var o := Direct(w, graph, env, resumption, t);
      UsesBoundRuns(w, graph, env, k, resumption, t);
      UsesBoundRuns(w, next, env[b := o.value], k, resumption, o.trace);
    case Call(r, callee, args, next) =>
      var event := Called(callee, EvalAll(w, args, env));
      UsesBoundRuns(w, next, env[r := w.answer(t, event)], k, resumption, t + [event]);
    case If(c, x, y) =>
      if IsTrue(Eval(w, c, env)) {
        UsesBoundRuns(w, x, env, k, resumption, t);
      } else {
        UsesBoundRuns(w, y, env, k, resumption, t);
      }
    case Perform(r, effect, operation, args, next) =>
      var event := Performed(effect, operation, EvalAll(w, args, env));
      UsesBoundRuns(w, next, BindOption(env, r, w.answer(t, event)), k, resumption, t + [event]);
    case Resume(r, resume, arg, next) =>
      var o := resumption(Eval(w, arg, env), t);
      UsesBoundRuns(w, next, env[r := o.value], k, resumption, o.trace);
    case Match(_, _, _) =>
      CaseUsesCover(s, k, |s.cases|);
      var (branch, inner) := Taken(w, s, env);
      if branch.Some? {
        UsesBoundRuns(w, branch.value, inner, k, resumption, t);
        BranchUses(s, k, branch.value);
      }
  }

  lemma {:induction false} NoUseNoSite(s: Stmt, k: VarId)
    ensures Uses(s, k).max == Zero <==> !Resumes(s, k)
  {
    match s
    case Return(_) =>
    case Let(_, _, next) => NoUseNoSite(next, k);
    case Val(_, graph, next) => NoUseNoSite(graph, k); NoUseNoSite(next, k);
    case Call(_, _, _, next) => NoUseNoSite(next, k);
    case If(_, x, y) => NoUseNoSite(x, k); NoUseNoSite(y, k);
    case Perform(_, _, _, _, next) => NoUseNoSite(next, k);
    case Resume(_, _, _, next) => NoUseNoSite(next, k);
    case Match(_, _, _) =>
      CaseUsesCover(s, k, |s.cases|);
      forall b | b in Branches(s) ensures Uses(b, k).max == Zero <==> !Resumes(b, k) { NoUseNoSite(b, k); }
  }

  lemma {:induction false} ResumesNothing(s: Stmt, k: VarId)
    requires ResumesOnly(s, Cfg.Some(k)) && !Resumes(s, k)
    ensures ResumesOnly(s, Cfg.None)
  {
    match s
    case Return(_) =>
    case Let(_, _, next) => ResumesNothing(next, k);
    case Val(_, graph, next) => ResumesNothing(graph, k); ResumesNothing(next, k);
    case Call(_, _, _, next) => ResumesNothing(next, k);
    case If(_, x, y) => ResumesNothing(x, k); ResumesNothing(y, k);
    case Perform(_, _, _, _, next) => ResumesNothing(next, k);
    case Resume(_, _, _, next) =>
    case Match(_, _, _) =>
      forall b | b in Branches(s) ensures ResumesOnly(b, Cfg.None) { ResumesNothing(b, k); }
  }

  function Sites(s: Stmt, k: VarId): nat
    decreases s
  {
    match s
    case Return(_) => 0
    case Let(_, _, next) => Sites(next, k)
    case Val(_, graph, next) => Sites(graph, k) + Sites(next, k)
    case Call(_, _, _, next) => Sites(next, k)
    case If(_, x, y) => Sites(x, k) + Sites(y, k)
    case Perform(_, _, _, _, next) => Sites(next, k)
    case Resume(_, r, _, next) => (if r == k then 1 else 0) + Sites(next, k)
    case Match(_, cases, default) =>
      CaseSites(s, k, |cases|) + if default.Some? then Sites(default.value, k) else 0
  }

  function CaseSites(s: Stmt, k: VarId, n: nat): nat
    requires s.Match? && n <= |s.cases|
    decreases s, n
  {
    if n == 0 then 0 else CaseSites(s, k, n - 1) + Sites(s.cases[n - 1].body, k)
  }

  lemma {:induction false} CaseSitesCover(s: Stmt, k: VarId, n: nat)
    requires s.Match? && n <= |s.cases|
    ensures forall i :: 0 <= i < n ==> Sites(s.cases[i].body, k) <= CaseSites(s, k, n)
    ensures CaseSites(s, k, n) == 0 <==> forall i :: 0 <= i < n ==> Sites(s.cases[i].body, k) == 0
  {
    if n > 0 { CaseSitesCover(s, k, n - 1); }
  }

  /** There is a site for each time a run resumes. */
  lemma {:induction false} SitesBoundRuns(w: World, s: Stmt, env: Env, k: VarId, resumption: Continuation, t: Trace)
    ensures RunUses(w, s, env, k, resumption, t) <= Sites(s, k)
    decreases s
  {
    match s
    case Return(_) =>
    case Let(b, e, next) => SitesBoundRuns(w, next, env[b := Eval(w, e, env)], k, resumption, t);
    case Val(b, graph, next) =>
      var o := Direct(w, graph, env, resumption, t);
      SitesBoundRuns(w, graph, env, k, resumption, t);
      SitesBoundRuns(w, next, env[b := o.value], k, resumption, o.trace);
    case Call(r, callee, args, next) =>
      var event := Called(callee, EvalAll(w, args, env));
      SitesBoundRuns(w, next, env[r := w.answer(t, event)], k, resumption, t + [event]);
    case If(c, x, y) =>
      SitesBoundRuns(w, if IsTrue(Eval(w, c, env)) then x else y, env, k, resumption, t);
    case Perform(r, effect, operation, args, next) =>
      var event := Performed(effect, operation, EvalAll(w, args, env));
      SitesBoundRuns(w, next, BindOption(env, r, w.answer(t, event)), k, resumption, t + [event]);
    case Resume(r, resume, arg, next) =>
      var o := resumption(Eval(w, arg, env), t);
      SitesBoundRuns(w, next, env[r := o.value], k, resumption, o.trace);
    case Match(_, _, _) =>
      CaseSitesCover(s, k, |s.cases|);
      var (branch, inner) := Taken(w, s, env);
      if branch.Some? { SitesBoundRuns(w, branch.value, inner, k, resumption, t); }
  }

  lemma {:induction false} NoSiteNoResume(s: Stmt, k: VarId)
    ensures Sites(s, k) == 0 <==> !Resumes(s, k)
  {
    match s
    case Return(_) =>
    case Let(_, _, next) => NoSiteNoResume(next, k);
    case Val(_, graph, next) => NoSiteNoResume(graph, k); NoSiteNoResume(next, k);
    case Call(_, _, _, next) => NoSiteNoResume(next, k);
    case If(_, x, y) => NoSiteNoResume(x, k); NoSiteNoResume(y, k);
    case Perform(_, _, _, _, next) => NoSiteNoResume(next, k);
    case Resume(_, _, _, next) => NoSiteNoResume(next, k);
    case Match(_, _, _) =>
      CaseSitesCover(s, k, |s.cases|);
      forall b | b in Branches(s) ensures Sites(b, k) == 0 <==> !Resumes(b, k) { NoSiteNoResume(b, k); }
  }

  /** The statements a statement is made of, in their order. */
  function Parts(s: Stmt): (parts: seq<Stmt>)
    ensures forall p :: p in parts ==> p < s
  {
    match s
    case Return(_) => []
    case Let(_, _, next) => [next]
    case Val(_, graph, next) => [graph, next]
    case Call(_, _, _, next) => [next]
    case If(_, x, y) => [x, y]
    case Perform(_, _, _, _, next) => [next]
    case Resume(_, _, _, next) => [next]
    case Match(_, cases, default) =>
      seq(|cases|, i requires 0 <= i < |cases| => cases[i].body) + if default.Some? then [default.value] else []
  }

  /** A `resume` of `k` stands where the path leads. */
  predicate ResumeAt(s: Stmt, k: VarId, path: seq<nat>)
    decreases |path|
  {
    if path == [] then s.Resume? && s.resume == k
    else path[0] < |Parts(s)| && ResumeAt(Parts(s)[path[0]], k, path[1..])
  }

  predicate ResumeAtBoth(s: Stmt, k: VarId, one: seq<nat>, other: seq<nat>) {
    ResumeAt(s, k, one) && ResumeAt(s, k, other) && one != other
  }

  function PartSites(parts: seq<Stmt>, k: VarId): nat
    decreases parts
  {
    if parts == [] then 0 else PartSites(parts[..|parts| - 1], k) + Sites(parts[|parts| - 1], k)
  }

  lemma {:induction false} CasePartSites(s: Stmt, k: VarId, n: nat)
    requires s.Match? && n <= |s.cases|
    ensures PartSites(seq(n, i requires 0 <= i < n => s.cases[i].body), k) == CaseSites(s, k, n)
  {
    if n > 0 {
      CasePartSites(s, k, n - 1);
      var parts := seq(n, i requires 0 <= i < n => s.cases[i].body);
      assert parts[..n - 1] == seq(n - 1, i requires 0 <= i < n - 1 => s.cases[i].body);
    }
  }

  lemma SitesOfParts(s: Stmt, k: VarId)
    ensures Sites(s, k) == PartSites(Parts(s), k) + if s.Resume? && s.resume == k then 1 else 0
  {
    if s.Match? {
      var bodies := seq(|s.cases|, i requires 0 <= i < |s.cases| => s.cases[i].body);
      CasePartSites(s, k, |s.cases|);
      if s.default.Some? {
        assert (bodies + [s.default.value])[..|bodies|] == bodies;
      } else {
        assert bodies + [] == bodies;
      }
    } else if s.Val? {
      TwoPartSites(s.graph, s.next, k);
    } else if s.If? {
      TwoPartSites(s.thenBranch, s.elseBranch, k);
    } else if !s.Return? {
      OnePartSites(s.next, k);
    }
  }

  lemma OnePartSites(x: Stmt, k: VarId)
    ensures PartSites([x], k) == Sites(x, k)
  {
    assert [x][..0] == [];
  }

  lemma TwoPartSites(x: Stmt, y: Stmt, k: VarId)
    ensures PartSites([x, y], k) == Sites(x, k) + Sites(y, k)
  {
    assert [x, y][..1] == [x];
    OnePartSites(x, k);
  }

  /** A path to a site. */
  lemma {:induction false} SiteFound(s: Stmt, k: VarId) returns (path: seq<nat>)
    requires Sites(s, k) > 0
    ensures ResumeAt(s, k, path)
  {
    SitesOfParts(s, k);
    if s.Resume? && s.resume == k {
      path := [];
    } else {
      var i := PartFound(Parts(s), k);
      var rest := SiteFound(Parts(s)[i], k);
      path := [i] + rest;
    }
  }

  lemma {:induction false} PartFound(parts: seq<Stmt>, k: VarId) returns (i: nat)
    requires PartSites(parts, k) > 0
    ensures i < |parts| && Sites(parts[i], k) > 0
    decreases parts
  {
    var last := |parts| - 1;
    if Sites(parts[last], k) > 0 { i := last; } else { i := PartFound(parts[..last], k); }
  }

  lemma {:induction false} PartCounts(parts: seq<Stmt>, k: VarId, i: nat)
    requires i < |parts|
    ensures Sites(parts[i], k) <= PartSites(parts, k)
    ensures forall j :: 0 <= j < |parts| && j != i ==> Sites(parts[i], k) + Sites(parts[j], k) <= PartSites(parts, k)
    decreases parts
  {
    var last := |parts| - 1;
    forall j | 0 <= j < last ensures Sites(parts[j], k) <= PartSites(parts[..last], k) {
      PartCounts(parts[..last], k, j);
    }
    if i < last { PartCounts(parts[..last], k, i); }
  }

  lemma {:induction false} SiteCounted(s: Stmt, k: VarId, path: seq<nat>)
    requires ResumeAt(s, k, path)
    ensures Sites(s, k) > 0
    decreases |path|
  {
    SitesOfParts(s, k);
    if path != [] {
      SiteCounted(Parts(s)[path[0]], k, path[1..]);
      PartCounts(Parts(s), k, path[0]);
    }
  }

  /** Sites are counted as the places in the code that resume: there is more than one just if two differ. */
  lemma SeveralSites(s: Stmt, k: VarId)
    ensures Sites(s, k) > 1 <==> exists one, other :: ResumeAtBoth(s, k, one, other)
  {
    if Sites(s, k) > 1 {
      var one, other := TwoSites(s, k);
      assert ResumeAtBoth(s, k, one, other);
    }
    if one, other :| ResumeAtBoth(s, k, one, other) { TwoCounted(s, k, one, other); }
  }

  lemma {:induction false} TwoSites(s: Stmt, k: VarId) returns (one: seq<nat>, other: seq<nat>)
    requires Sites(s, k) > 1
    ensures ResumeAt(s, k, one) && ResumeAt(s, k, other) && one != other
    decreases s
  {
    SitesOfParts(s, k);
    var parts := Parts(s);
    var i := PartFound(parts, k);
    var p := SiteFound(parts[i], k);
    one := [i] + p;
    if s.Resume? && s.resume == k {
      other := [];
    } else if Sites(parts[i], k) > 1 {
      var q, r := TwoSites(parts[i], k);
      one, other := [i] + q, [i] + r;
      assert one[1..] == q && other[1..] == r;
    } else {
      var j := OtherPart(parts, k, i);
      var q := SiteFound(parts[j], k);
      other := [j] + q;
    }
  }

  lemma {:induction false} OtherPart(parts: seq<Stmt>, k: VarId, i: nat) returns (j: nat)
    requires i < |parts| && Sites(parts[i], k) < PartSites(parts, k)
    ensures j < |parts| && j != i && Sites(parts[j], k) > 0
    decreases parts
  {
    var last := |parts| - 1;
    if i == last {
      j := PartFound(parts[..last], k);
    } else if Sites(parts[last], k) > 0 {
      j := last;
    } else {
      j := OtherPart(parts[..last], k, i);
    }
  }

  lemma {:induction false} TwoCounted(s: Stmt, k: VarId, one: seq<nat>, other: seq<nat>)
    requires ResumeAt(s, k, one) && ResumeAt(s, k, other) && one != other
    ensures Sites(s, k) > 1
    decreases s
  {
    SitesOfParts(s, k);
    var parts := Parts(s);
    if one == [] {
      SiteCounted(parts[other[0]], k, other[1..]);
      PartCounts(parts, k, other[0]);
    } else if other == [] {
      SiteCounted(parts[one[0]], k, one[1..]);
      PartCounts(parts, k, one[0]);
    } else if one[0] == other[0] {
      assert one == [one[0]] + one[1..] && other == [other[0]] + other[1..];
      TwoCounted(parts[one[0]], k, one[1..], other[1..]);
      PartCounts(parts, k, one[0]);
    } else {
      SiteCounted(parts[one[0]], k, one[1..]);
      SiteCounted(parts[other[0]], k, other[1..]);
      PartCounts(parts, k, one[0]);
    }
  }

  // ---------------------------------------------------------------- tail resumption

  predicate IsIdentityReturn(s: Stmt, v: VarId) { s == Return(Var(v)) }

  predicate Mentions(s: Stmt, v: VarId) {
    match s
    case Return(e) => v in Reads(e)
    case Let(_, e, next) => v in Reads(e) || Mentions(next, v)
    case Val(_, graph, next) => Mentions(graph, v) || Mentions(next, v)
    case Call(_, _, args, next) => v in ReadsOfAll(args) || Mentions(next, v)
    case If(c, x, y) => v in Reads(c) || Mentions(x, v) || Mentions(y, v)
    case Perform(_, _, _, args, next) => v in ReadsOfAll(args) || Mentions(next, v)
    case Resume(_, r, arg, next) => r == v || v in Reads(arg) || Mentions(next, v)
    case Match(e, _, _) => v in Reads(e) || exists b :: b in Branches(s) && Mentions(b, v)
  }

  lemma {:induction false} UnmentionedNotResumed(s: Stmt, k: VarId)
    requires !Mentions(s, k)
    ensures !Resumes(s, k)
  {
    match s
    case Return(_) =>
    case Let(_, _, next) => UnmentionedNotResumed(next, k);
    case Val(_, graph, next) => UnmentionedNotResumed(graph, k); UnmentionedNotResumed(next, k);
    case Call(_, _, _, next) => UnmentionedNotResumed(next, k);
    case If(_, x, y) => UnmentionedNotResumed(x, k); UnmentionedNotResumed(y, k);
    case Perform(_, _, _, _, next) => UnmentionedNotResumed(next, k);
    case Resume(_, _, _, next) => UnmentionedNotResumed(next, k);
    case Match(_, _, _) =>
      forall b | b in Branches(s) ensures !Resumes(b, k) { UnmentionedNotResumed(b, k); }
  }

  predicate TailResumptive(s: Stmt, k: VarId) {
    match s
    case Return(_) => false
    case Let(_, e, next) => k !in Reads(e) && TailResumptive(next, k)
    case Val(b, graph, next) =>
      if IsIdentityReturn(next, b) then TailResumptive(graph, k)
      else !Mentions(graph, k) && TailResumptive(next, k)
    case Call(_, _, _, _) => false
    case If(c, x, y) => k !in Reads(c) && TailResumptive(x, k) && TailResumptive(y, k)
    case Perform(_, _, _, _, _) => false
    case Resume(r, resume, arg, next) => resume == k && k !in Reads(arg) && IsIdentityReturn(next, r)
    case Match(e, _, _) => k !in Reads(e) && forall b :: b in Branches(s) ==> TailResumptive(b, k)
  }

  /** What a tail-resumptive clause hands its resumption, and the trace it has left by then. */
  ghost function Handed(w: World, s: Stmt, env: Env, t: Trace): Outcome
    decreases s
  {
    match s
    case Let(b, e, next) => Handed(w, next, env[b := Eval(w, e, env)], t)
    case Val(b, graph, next) =>
      if IsIdentityReturn(next, b) then Handed(w, graph, env, t)
      else
        var o := Direct(w, graph, env, Stop(), t);
        Handed(w, next, env[b := o.value], o.trace)
    case If(c, x, y) =>
      if IsTrue(Eval(w, c, env)) then Handed(w, x, env, t) else Handed(w, y, env, t)
    case Resume(_, _, arg, _) => Outcome(Eval(w, arg, env), t)
    case Match(_, _, _) =>
      var (branch, inner) := Taken(w, s, env);
      if branch.Some? then Handed(w, branch.value, inner, t) else Outcome(Cfg.Unit, t + [Unmatched])
    case _ => Outcome(Cfg.Unit, t)
  }

  lemma {:induction false} HandedExtends(w: World, s: Stmt, env: Env, t: Trace)
    ensures t <= Handed(w, s, env, t).trace
    decreases s
  {
    match s
    case Let(b, e, next) => HandedExtends(w, next, env[b := Eval(w, e, env)], t);
    case Val(b, graph, next) =>
      if IsIdentityReturn(next, b) {
        HandedExtends(w, graph, env, t);
      } else {
        var o := Direct(w, graph, env, Stop(), t);
        DirectExtends(w, graph, env, Stop(), t);
        HandedExtends(w, next, env[b := o.value], o.trace);
      }
    case If(c, x, y) => HandedExtends(w, x, env, t); HandedExtends(w, y, env, t);
    case Match(_, _, _) =>
      var (branch, inner) := Taken(w, s, env);
      if branch.Some? { HandedExtends(w, branch.value, inner, t); }
    case _ =>
  }

  /** A tail-resumptive clause is its resumption applied to what it hands it: the value the clause
      answers is the value of the resumption. Every match it goes through has to have an arm. */
  lemma {:induction false} TailHandsOver(w: World, s: Stmt, k: VarId, env: Env, resumption: Continuation, t: Trace)
    requires TailResumptive(s, k) && ResumesOnly(s, Cfg.Some(k)) && Matched(Handed(w, s, env, t).trace)
    ensures var o := Handed(w, s, env, t); Direct(w, s, env, resumption, t) == resumption(o.value, o.trace)
    decreases s
  {
    match s
    case Let(b, e, next) => TailHandsOver(w, next, k, env[b := Eval(w, e, env)], resumption, t);
    case Val(b, graph, next) =>
      if IsIdentityReturn(next, b) {
        TailHandsOver(w, graph, k, env, resumption, t);
      } else {
        UnmentionedNotResumed(graph, k);
        ResumesNothing(graph, k);
        NoResumptionNeeded(w, graph, env, resumption, Stop(), t);
        var o := Direct(w, graph, env, Stop(), t);
        TailHandsOver(w, next, k, env[b := o.value], resumption, o.trace);
      }
    case If(c, x, y) =>
      if IsTrue(Eval(w, c, env)) {
        TailHandsOver(w, x, k, env, resumption, t);
      } else {
        TailHandsOver(w, y, k, env, resumption, t);
      }
    case Resume(_, _, _, _) =>
    case Match(_, _, _) =>
      var (branch, inner) := Taken(w, s, env);
      if branch.Some? { TailHandsOver(w, branch.value, k, inner, resumption, t); }
  }

  /** What is handed over was reached before whatever the resumption did. */
  lemma {:induction false} HandedBefore(w: World, s: Stmt, k: VarId, env: Env, resumption: Continuation, t: Trace)
    requires TailResumptive(s, k) && ResumesOnly(s, Cfg.Some(k)) && Extends(resumption)
    ensures Handed(w, s, env, t).trace <= Direct(w, s, env, resumption, t).trace
    decreases s
  {
    match s
    case Let(b, e, next) => HandedBefore(w, next, k, env[b := Eval(w, e, env)], resumption, t);
    case Val(b, graph, next) =>
      if IsIdentityReturn(next, b) {
        HandedBefore(w, graph, k, env, resumption, t);
      } else {
        UnmentionedNotResumed(graph, k);
        ResumesNothing(graph, k);
        NoResumptionNeeded(w, graph, env, resumption, Stop(), t);
        var o := Direct(w, graph, env, Stop(), t);
        HandedBefore(w, next, k, env[b := o.value], resumption, o.trace);
      }
    case If(c, x, y) =>
      if IsTrue(Eval(w, c, env)) {
        HandedBefore(w, x, k, env, resumption, t);
      } else {
        HandedBefore(w, y, k, env, resumption, t);
      }
    case Resume(_, _, _, _) =>
    case Match(_, _, _) =>
      var (branch, inner) := Taken(w, s, env);
      if branch.Some? { HandedBefore(w, branch.value, k, inner, resumption, t); }
  }

  /** A tail-resumptive clause that gets through its matches holds a `resume`. */
  lemma {:induction false} TailResumes(w: World, s: Stmt, k: VarId, env: Env, t: Trace)
    requires TailResumptive(s, k) && Matched(Handed(w, s, env, t).trace)
    ensures Resumes(s, k)
    decreases s
  {
    match s
    case Let(b, e, next) => TailResumes(w, next, k, env[b := Eval(w, e, env)], t);
    case Val(b, graph, next) =>
      if IsIdentityReturn(next, b) {
        TailResumes(w, graph, k, env, t);
      } else {
        var o := Direct(w, graph, env, Stop(), t);
        TailResumes(w, next, k, env[b := o.value], o.trace);
      }
    case If(c, x, y) =>
      if IsTrue(Eval(w, c, env)) { TailResumes(w, x, k, env, t); } else { TailResumes(w, y, k, env, t); }
    case Resume(_, _, _, _) =>
    case Match(_, _, _) =>
      var (branch, inner) := Taken(w, s, env);
      if branch.Some? { TailResumes(w, branch.value, k, inner, t); }
  }

  lemma {:induction false} NoResumptionNeeded(w: World, s: Stmt, env: Env, r1: Continuation, r2: Continuation, t: Trace)
    requires ResumesOnly(s, Cfg.None)
    ensures Direct(w, s, env, r1, t) == Direct(w, s, env, r2, t)
    decreases s
  {
    match s
    case Return(_) =>
    case Let(b, e, next) => NoResumptionNeeded(w, next, env[b := Eval(w, e, env)], r1, r2, t);
    case Val(b, graph, next) =>
      NoResumptionNeeded(w, graph, env, r1, r2, t);
      var o := Direct(w, graph, env, r1, t);
      NoResumptionNeeded(w, next, env[b := o.value], r1, r2, o.trace);
    case Call(r, callee, args, next) =>
      var event := Called(callee, EvalAll(w, args, env));
      NoResumptionNeeded(w, next, env[r := w.answer(t, event)], r1, r2, t + [event]);
    case If(c, x, y) =>
      NoResumptionNeeded(w, x, env, r1, r2, t);
      NoResumptionNeeded(w, y, env, r1, r2, t);
    case Perform(r, effect, operation, args, next) =>
      var event := Performed(effect, operation, EvalAll(w, args, env));
      NoResumptionNeeded(w, next, BindOption(env, r, w.answer(t, event)), r1, r2, t + [event]);
    case Resume(_, _, _, _) => assert false;
    case Match(_, _, _) =>
      var (branch, inner) := Taken(w, s, env);
      if branch.Some? { NoResumptionNeeded(w, branch.value, inner, r1, r2, t); }
  }

  // ---------------------------------------------------------------- sharing one continuation

  /** The code reads a variable that neither `bound` nor a binder on the way in introduces. */
  predicate ReadsOutside(s: Stmt, bound: set<VarId>) {
    match s
    case Return(e) => !(Reads(e) <= bound)
    case Let(b, e, next) => !(Reads(e) <= bound) || ReadsOutside(next, bound + {b})
    case Val(b, graph, next) => ReadsOutside(graph, bound) || ReadsOutside(next, bound + {b})
    case Call(r, _, args, next) => !(ReadsOfAll(args) <= bound) || ReadsOutside(next, bound + {r})
    case If(c, x, y) => !(Reads(c) <= bound) || ReadsOutside(x, bound) || ReadsOutside(y, bound)
    case Perform(r, _, _, args, next) => !(ReadsOfAll(args) <= bound) || ReadsOutside(next, bound + OptionSet(r))
    case Resume(r, resume, arg, next) => resume !in bound || !(Reads(arg) <= bound) || ReadsOutside(next, bound + {r})
    case Match(e, cases, default) =>
      || !(Reads(e) <= bound)
      || (exists i :: 0 <= i < |cases| && ReadsOutside(cases[i].body, bound + Names(cases[i].binders)))
      || (default.Some? && ReadsOutside(default.value, bound))
  }

  /** `None` when code after a `resume` reads a variable only one site's path binds; otherwise
      whether there is a site at all. `shared` grows only before the first branch. */
  function SitesCanShare(s: Stmt, k: VarId, shared: set<VarId>, branched: bool): Option<bool> {
    match s
    case Return(_) => Cfg.Some(false)
    case Let(b, _, next) => SitesCanShare(next, k, if branched then shared else shared + {b}, branched)
    case Call(r, _, _, next) => SitesCanShare(next, k, if branched then shared else shared + {r}, branched)
    case Perform(r, _, _, _, next) =>
      SitesCanShare(next, k, if branched then shared else shared + OptionSet(r), branched)
    case Val(b, graph, next) =>
      var inGraph := SitesCanShare(graph, k, shared, branched);
      if inGraph.None? then Cfg.None
      else if inGraph.value && ReadsOutside(next, shared + {b}) then Cfg.None
      else
        var inNext := SitesCanShare(next, k, if inGraph.value || !branched then shared + {b} else shared, branched);
        if inNext.None? then Cfg.None else Cfg.Some(inGraph.value || inNext.value)
    case Resume(r, resume, _, next) =>
      if resume == k && ReadsOutside(next, shared + {r}) then Cfg.None
      else
        var inNext := SitesCanShare(next, k, shared + {r}, branched);
        if inNext.None? then Cfg.None else Cfg.Some(resume == k || inNext.value)
    case If(_, x, y) =>
      var inThen := SitesCanShare(x, k, shared, true);
      var inElse := SitesCanShare(y, k, shared, true);
      if inThen.None? || inElse.None? then Cfg.None else Cfg.Some(inThen.value || inElse.value)
    case Match(_, _, _) =>
      if exists b :: b in Branches(s) && SitesCanShare(b, k, shared, true).None? then Cfg.None
      else Cfg.Some(exists b :: b in Branches(s) && SitesCanShare(b, k, shared, true) == Cfg.Some(true))
  }

  /** Bound before the clause starts. */
  function Given(c: Clause): set<VarId> { (set p | p in c.params) + OptionSet(c.resumeParam) }

  predicate Defunctionalisable(c: Clause) {
    c.resumeParam.Some? && SitesCanShare(c.body, c.resumeParam.value, Given(c), false).Some?
  }

  // ---------------------------------------------------------------- the choice

  datatype Policy = Inline | Join | Defunctionalise

  datatype Convention = Pure | Straight | Control

  datatype Qualifier = Abortive | Affine | Linear | Multi

  function Qualify(c: Clause): Qualifier {
    if c.resumeParam.None? then Abortive
    else
      var range := Uses(c.body, c.resumeParam.value);
      if range.max == Many then Multi
      else if range.max == Zero then Abortive
      else if range.min == One then Linear
      else Affine
  }

  function Convene(c: Clause): Convention {
    if c.resumeParam.None? then Pure
    else match Qualify(c)
      case Multi => Control
      case Abortive => Straight
      case _ => if TailResumptive(c.body, c.resumeParam.value) then Straight else Control
  }

  function ErasePolicy(c: Clause): Policy {
    if c.resumeParam.None? || Sites(c.body, c.resumeParam.value) <= 1 then Inline
    else if TailResumptive(c.body, c.resumeParam.value) then Join
    else if Qualify(c) == Multi then Inline
    else if Defunctionalisable(c) then Defunctionalise
    else Inline
  }

  /** The qualifier says how often a run of the clause resumes, whichever way it goes. */
  lemma QualifierBoundsRuns(w: World, c: Clause, k: VarId, env: Env, resumption: Continuation, t: Trace)
    requires c.resumeParam == Cfg.Some(k)
    ensures var n := RunUses(w, c.body, env, k, resumption, t);
      match Qualify(c)
      case Abortive => n == 0
      case Affine => n <= 1
      case Linear => n == 1
      case Multi => Uses(c.body, k).max == Many
  {
    UsesBoundRuns(w, c.body, env, k, resumption, t);
  }

  /** A straight clause either never resumes, so that it comes to the same whatever its resumption is, or it ends
      by resuming with a value of its own. Any other clause that has a resumption needs control of it. */
  lemma ConventionHolds(w: World, c: Clause, k: VarId, env: Env, r1: Continuation, r2: Continuation, t: Trace)
    requires c.resumeParam == Cfg.Some(k) && ResumesOnly(c.body, Cfg.Some(k))
    requires Matched(Handed(w, c.body, env, t).trace)
    ensures var o := Handed(w, c.body, env, t);
      Convene(c) == Straight ==>
        || Direct(w, c.body, env, r1, t) == Direct(w, c.body, env, r2, t)
        || (Direct(w, c.body, env, r1, t) == r1(o.value, o.trace)
          && Direct(w, c.body, env, r2, t) == r2(o.value, o.trace))
    ensures Convene(c) == Control ==> Resumes(c.body, k) && (TailResumptive(c.body, k) ==> Uses(c.body, k).max == Many)
  {
    NoUseNoSite(c.body, k);
    if Convene(c) == Straight && Qualify(c) == Abortive {
      ResumesNothing(c.body, k);
      NoResumptionNeeded(w, c.body, env, r1, r2, t);
    } else if Convene(c) == Straight {
      TailHandsOver(w, c.body, k, env, r1, t);
      TailHandsOver(w, c.body, k, env, r2, t);
    }
  }
}
