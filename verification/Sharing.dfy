/** Sharing one continuation among the sites of a clause makes the code after each site reachable
    from every other one, so what that code reads must be bound at all of them. */
module Sharing {
  import Cfg
  import opened Core
  import opened ClauseAnalysis

  /** Variables a statement reads from outside, counting the names of its resumptions. */
  function Needs(s: Stmt): set<VarId> {
    match s
    case Return(e) => Reads(e)
    case Let(b, e, next) => Reads(e) + (Needs(next) - {b})
    case Val(b, graph, next) => Needs(graph) + (Needs(next) - {b})
    case Call(r, _, args, next) => ReadsOfAll(args) + (Needs(next) - {r})
    case If(c, x, y) => Reads(c) + Needs(x) + Needs(y)
    case Perform(r, _, _, args, next) => ReadsOfAll(args) + (Needs(next) - OptionSet(r))
    case Resume(r, resume, arg, next) => {resume} + Reads(arg) + (Needs(next) - {r})
    case Match(e, cases, default) =>
      Reads(e) + (set i, v | 0 <= i < |cases| && v in Needs(cases[i].body) - Names(cases[i].binders) :: v)
      + (if default.Some? then Needs(default.value) else {})
  }

  lemma {:induction false} ReadsOutsideIsNeeds(s: Stmt, bound: set<VarId>)
    ensures ReadsOutside(s, bound) <==> !(Needs(s) <= bound)
    decreases s
  {
    match s
    case Return(_) =>
    case Let(b, _, next) => ReadsOutsideIsNeeds(next, bound + {b});
    case Val(b, graph, next) => ReadsOutsideIsNeeds(graph, bound); ReadsOutsideIsNeeds(next, bound + {b});
    case Call(r, _, _, next) => ReadsOutsideIsNeeds(next, bound + {r});
    case If(_, x, y) => ReadsOutsideIsNeeds(x, bound); ReadsOutsideIsNeeds(y, bound);
    case Perform(r, _, _, _, next) => ReadsOutsideIsNeeds(next, bound + OptionSet(r));
    case Resume(r, _, _, next) => ReadsOutsideIsNeeds(next, bound + {r});
    case Match(_, _, _) => MatchReadsOutside(s, bound);
  }

  lemma {:induction false} MatchReadsOutside(s: Stmt, bound: set<VarId>)
    requires s.Match?
    ensures ReadsOutside(s, bound) <==> !(Needs(s) <= bound)
    decreases s, 0
  {
    var Match(e, cases, default) := s;
    var inCases := set i, v | 0 <= i < |cases| && v in Needs(cases[i].body) - Names(cases[i].binders) :: v;
    forall i | 0 <= i < |cases|
      ensures ReadsOutside(cases[i].body, bound + Names(cases[i].binders)) <==>
        !(Needs(cases[i].body) - Names(cases[i].binders) <= bound)
    {
      ReadsOutsideIsNeeds(cases[i].body, bound + Names(cases[i].binders));
    }
    assert inCases <= bound <==> forall i :: 0 <= i < |cases| ==>
      Needs(cases[i].body) - Names(cases[i].binders) <= bound by {
      if inCases <= bound {
        forall i, v | 0 <= i < |cases| && v in Needs(cases[i].body) - Names(cases[i].binders)
          ensures v in bound
        {
          assert v in inCases;
        }
      }
    }
    if default.Some? { ReadsOutsideIsNeeds(default.value, bound); }
  }

  /** A `resume`: what is bound when it is reached, and what the code still to run after it reads. */
  datatype Site = Site(scope: set<VarId>, pending: set<VarId>)

  function AllSites(s: Stmt, k: VarId, scope: set<VarId>): set<Site>
    decreases s
  {
    match s
    case Return(_) => {}
    case Let(b, _, next) => AllSites(next, k, scope + {b})
    case Val(b, graph, next) => Owing(AllSites(graph, k, scope), Needs(next) - {b}) + AllSites(next, k, scope + {b})
    case Call(r, _, _, next) => AllSites(next, k, scope + {r})
    case If(_, x, y) => AllSites(x, k, scope) + AllSites(y, k, scope)
    case Perform(r, _, _, _, next) => AllSites(next, k, scope + OptionSet(r))
    case Resume(r, resume, _, next) =>
      (if resume == k then {Site(scope, Needs(next) - {r})} else {}) + AllSites(next, k, scope + {r})
    case Match(_, cases, default) =>
      (set i, site | 0 <= i < |cases| && site in AllSites(cases[i].body, k, scope + Names(cases[i].binders)) :: site)
      + (if default.Some? then AllSites(default.value, k, scope) else {})
  }

  function Owing(sites: set<Site>, vars: set<VarId>): set<Site> {
    set site | site in sites :: Site(site.scope, site.pending + vars)
  }

  lemma {:induction false} SitesAreResumes(s: Stmt, k: VarId, scope: set<VarId>)
    ensures AllSites(s, k, scope) != {} <==> Resumes(s, k)
    decreases s
  {
    match s
    case Return(_) =>
    case Let(b, _, next) => SitesAreResumes(next, k, scope + {b});
    case Val(b, graph, next) =>
      SitesAreResumes(graph, k, scope);
      SitesAreResumes(next, k, scope + {b});
      var sites, vars := AllSites(graph, k, scope), Needs(next) - {b};
      if sites != {} {
        var site :| site in sites;
        assert Site(site.scope, site.pending + vars) in Owing(sites, vars);
      }
    case Call(r, _, _, next) => SitesAreResumes(next, k, scope + {r});
    case If(_, x, y) => SitesAreResumes(x, k, scope); SitesAreResumes(y, k, scope);
    case Perform(r, _, _, _, next) => SitesAreResumes(next, k, scope + OptionSet(r));
    case Resume(r, resume, _, next) =>
      SitesAreResumes(next, k, scope + {r});
      if resume == k { assert Site(scope, Needs(next) - {r}) in AllSites(s, k, scope); }
    case Match(_, cases, default) =>
      forall i | 0 <= i < |cases|
        ensures AllSites(cases[i].body, k, scope + Names(cases[i].binders)) != {} <==> Resumes(cases[i].body, k)
      {
        SitesAreResumes(cases[i].body, k, scope + Names(cases[i].binders));
      }
      if default.Some? { SitesAreResumes(default.value, k, scope); }
      MatchSites(s, k, scope);
  }

  /** A match's sites are its branches'. */
  lemma MatchSites(s: Stmt, k: VarId, scope: set<VarId>)
    requires s.Match?
    ensures forall i :: 0 <= i < |s.cases| ==>
      AllSites(s.cases[i].body, k, scope + Names(s.cases[i].binders)) <= AllSites(s, k, scope)
    ensures s.default.Some? ==> AllSites(s.default.value, k, scope) <= AllSites(s, k, scope)
    ensures forall site :: site in AllSites(s, k, scope) ==>
      || (exists i :: 0 <= i < |s.cases| && site in AllSites(s.cases[i].body, k, scope + Names(s.cases[i].binders)))
      || (s.default.Some? && site in AllSites(s.default.value, k, scope))
  {}

  /** Lowering gives every `resume` the identity continuation; here only those of other clauses need it. */
  predicate ForeignIdentity(s: Stmt, k: VarId) {
    match s
    case Return(_) => true
    case Let(_, _, next) => ForeignIdentity(next, k)
    case Val(_, graph, next) => ForeignIdentity(graph, k) && ForeignIdentity(next, k)
    case Call(_, _, _, next) => ForeignIdentity(next, k)
    case If(_, x, y) => ForeignIdentity(x, k) && ForeignIdentity(y, k)
    case Perform(_, _, _, _, next) => ForeignIdentity(next, k)
    case Resume(r, resume, _, next) => if resume == k then ForeignIdentity(next, k) else IsIdentityReturn(next, r)
    case Match(_, _, _) => forall b :: b in Branches(s) ==> ForeignIdentity(b, k)
  }

  /** Whatever is pending at one site is bound at every site. */
  ghost predicate Interchangeable(sites: set<Site>) {
    forall a, b :: a in sites && b in sites ==> a.pending <= b.scope
  }

  /** Every site is inside `scope`, and once the clause has branched needs only what is shared. */
  ghost predicate Shares(sites: set<Site>, scope: set<VarId>, shared: set<VarId>, branched: bool) {
    && Interchangeable(sites)
    && (forall a :: a in sites ==> scope <= a.scope)
    && (branched ==> forall a :: a in sites ==> a.pending <= shared)
  }

  lemma {:induction false} AcceptedShares(s: Stmt, k: VarId, scope: set<VarId>, shared: set<VarId>, branched: bool)
    requires SitesCanShare(s, k, shared, branched).Some? && Uses(s, k).max != Many && ForeignIdentity(s, k)
    requires shared <= scope
    ensures Shares(AllSites(s, k, scope), scope, shared, branched)
    ensures SitesCanShare(s, k, shared, branched).value == Resumes(s, k)
    decreases s
  {
    match s
    case Return(_) =>
    case Let(b, _, next) => AcceptedShares(next, k, scope + {b}, if branched then shared else shared + {b}, branched);
    case Call(r, _, _, next) =>
      AcceptedShares(next, k, scope + {r}, if branched then shared else shared + {r}, branched);
    case Perform(r, _, _, _, next) =>
      AcceptedShares(next, k, scope + OptionSet(r), if branched then shared else shared + OptionSet(r), branched);
    case If(_, x, y) =>
      AcceptedShares(x, k, scope, shared, true);
      AcceptedShares(y, k, scope, shared, true);
    case Val(_, _, _) => AcceptedVal(s, k, scope, shared, branched);
    case Match(_, _, _) => AcceptedMatch(s, k, scope, shared, branched);
    case Resume(r, resume, _, next) =>
      if resume == k {
        AcceptedShares(next, k, scope + {r}, shared + {r}, branched);
        NoUseNoSite(next, k);
        SitesAreResumes(next, k, scope + {r});
        ReadsOutsideIsNeeds(next, shared + {r});
      }
  }

  lemma {:induction false} AcceptedVal(s: Stmt, k: VarId, scope: set<VarId>, shared: set<VarId>, branched: bool)
    requires SitesCanShare(s, k, shared, branched).Some? && Uses(s, k).max != Many && ForeignIdentity(s, k)
    requires s.Val? && shared <= scope
    ensures Shares(AllSites(s, k, scope), scope, shared, branched)
    ensures SitesCanShare(s, k, shared, branched).value == Resumes(s, k)
    decreases s, 0
  {
    var Val(b, graph, next) := s;
    AcceptedShares(graph, k, scope, shared, branched);
    var inGraph := Resumes(graph, k);
    AcceptedShares(next, k, scope + {b}, if inGraph || !branched then shared + {b} else shared, branched);
    NoUseNoSite(graph, k);
    NoUseNoSite(next, k);
    SitesAreResumes(graph, k, scope);
    SitesAreResumes(next, k, scope + {b});
    var sites, later := AllSites(graph, k, scope), AllSites(next, k, scope + {b});
    var owing := Owing(sites, Needs(next) - {b});
    if inGraph {
      ReadsOutsideIsNeeds(next, shared + {b});
      OwingShares(sites, Needs(next) - {b}, scope, shared, branched);
      assert AllSites(s, k, scope) == owing;
    } else {
      assert owing == {};
      assert AllSites(s, k, scope) == later;
    }
  }

  lemma {:induction false} AcceptedMatch(s: Stmt, k: VarId, scope: set<VarId>, shared: set<VarId>, branched: bool)
    requires SitesCanShare(s, k, shared, branched).Some? && Uses(s, k).max != Many && ForeignIdentity(s, k)
    requires s.Match? && shared <= scope
    ensures Shares(AllSites(s, k, scope), scope, shared, branched)
    ensures SitesCanShare(s, k, shared, branched).value == Resumes(s, k)
    decreases s, 0
  {
    forall b, inner | b in Branches(s) && shared <= inner
      ensures Shares(AllSites(b, k, inner), inner, shared, true)
        && SitesCanShare(b, k, shared, true) == Cfg.Some(Resumes(b, k))
    {
      BranchUses(s, k, b);
      AcceptedShares(b, k, inner, shared, true);
    }
    forall b | b in Branches(s) ensures SitesCanShare(b, k, shared, true) == Cfg.Some(Resumes(b, k)) {
      assert Shares(AllSites(b, k, scope), scope, shared, true);
    }
    MatchSites(s, k, scope);
    forall site | site in AllSites(s, k, scope) ensures scope <= site.scope && site.pending <= shared {
      if i :| 0 <= i < |s.cases| && site in AllSites(s.cases[i].body, k, scope + Names(s.cases[i].binders)) {
        var inner := scope + Names(s.cases[i].binders);
        assert s.cases[i].body in Branches(s) && Shares(AllSites(s.cases[i].body, k, inner), inner, shared, true);
      } else {
        assert Shares(AllSites(s.default.value, k, scope), scope, shared, true);
      }
    }
  }

  lemma OwingShares(sites: set<Site>, vars: set<VarId>, scope: set<VarId>, shared: set<VarId>, branched: bool)
    requires Shares(sites, scope, shared, branched) && vars <= shared <= scope
    ensures Shares(Owing(sites, vars), scope, shared, branched)
  {}

  /** An accepted single-shot clause: wherever the shared continuation was entered from, everything
      the code after any site reads has been bound, is a parameter, or is the resumption's value.
      The clause may resume the clauses around it too. */
  lemma SharedSitesAreBound(c: Clause)
    requires Defunctionalisable(c) && Qualify(c) != Multi && ForeignIdentity(c.body, c.resumeParam.value)
    ensures Interchangeable(AllSites(c.body, c.resumeParam.value, Given(c)))
  {
    var shared := Given(c);
    AcceptedShares(c.body, c.resumeParam.value, shared, shared, false);
  }

  /** A statement is accepted if what is pending at its sites is shared already. */
  lemma {:induction false} SettledIsAccepted(s: Stmt, k: VarId, scope: set<VarId>, shared: set<VarId>, branched: bool)
    requires forall site :: site in AllSites(s, k, scope) ==> site.pending <= shared
    ensures SitesCanShare(s, k, shared, branched) == Cfg.Some(Resumes(s, k))
    decreases s
  {
    match s
    case Return(_) =>
    case Let(b, _, next) =>
      SettledIsAccepted(next, k, scope + {b}, if branched then shared else shared + {b}, branched);
    case Call(r, _, _, next) =>
      SettledIsAccepted(next, k, scope + {r}, if branched then shared else shared + {r}, branched);
    case Perform(r, _, _, _, next) =>
      SettledIsAccepted(next, k, scope + OptionSet(r), if branched then shared else shared + OptionSet(r), branched);
    case If(_, x, y) =>
      SettledIsAccepted(x, k, scope, shared, true);
      SettledIsAccepted(y, k, scope, shared, true);
    case Val(_, _, _) => SettledVal(s, k, scope, shared, branched);
    case Resume(r, resume, _, next) =>
      if resume == k { assert Site(scope, Needs(next) - {r}) in AllSites(s, k, scope); }
      ReadsOutsideIsNeeds(next, shared + {r});
      SettledIsAccepted(next, k, scope + {r}, shared + {r}, branched);
    case Match(_, _, _) =>
      MatchSites(s, k, scope);
      forall b | b in Branches(s) ensures SitesCanShare(b, k, shared, true) == Cfg.Some(Resumes(b, k)) {
        if i :| 0 <= i < |s.cases| && s.cases[i].body == b {
          SettledIsAccepted(b, k, scope + Names(s.cases[i].binders), shared, true);
        } else {
          SettledIsAccepted(b, k, scope, shared, true);
        }
      }
  }

  lemma {:induction false} SettledVal(s: Stmt, k: VarId, scope: set<VarId>, shared: set<VarId>, branched: bool)
    requires s.Val? && forall site :: site in AllSites(s, k, scope) ==> site.pending <= shared
    ensures SitesCanShare(s, k, shared, branched) == Cfg.Some(Resumes(s, k))
    decreases s, 0
  {
    var Val(b, graph, next) := s;
    var sites, vars := AllSites(graph, k, scope), Needs(next) - {b};
    forall site | site in sites ensures site.pending <= shared && vars <= shared {
      assert Site(site.scope, site.pending + vars) in Owing(sites, vars);
    }
    SitesAreResumes(graph, k, scope);
    SettledIsAccepted(graph, k, scope, shared, branched);
    ReadsOutsideIsNeeds(next, shared + {b});
    var inGraph := Resumes(graph, k);
    SettledIsAccepted(next, k, scope + {b}, if inGraph || !branched then shared + {b} else shared, branched);
  }

  /** Past the first branch the walk is exact: it accepts a single-shot statement just when what is pending at
      every site is shared. */
  lemma BranchedIsExact(s: Stmt, k: VarId, scope: set<VarId>, shared: set<VarId>)
    requires shared <= scope && Uses(s, k).max != Many && ForeignIdentity(s, k)
    ensures SitesCanShare(s, k, shared, true).Some?
      <==> forall site :: site in AllSites(s, k, scope) ==> site.pending <= shared
  {
    if SitesCanShare(s, k, shared, true).Some? {
      AcceptedShares(s, k, scope, shared, true);
    } else if forall site :: site in AllSites(s, k, scope) ==> site.pending <= shared {
      SettledIsAccepted(s, k, scope, shared, true);
    }
  }

  // ---------------------------------------------------------------- what is refused

  /** A `resume` of `k` whose value goes to code that only returns. */
  predicate ResumesThenReturns(s: Stmt, k: VarId) {
    s.Val? && s.next.Return? && s.graph.Resume? && s.graph.resume == k && s.graph.next == Return(Var(s.graph.result))
  }

  lemma OneSite(s: Stmt, k: VarId)
    requires ResumesThenReturns(s, k)
    ensures Uses(s, k) == UseRange(One, One) && Sites(s, k) == 1
  {
    assert Uses(s.graph.next, k) == UseRange(Zero, Zero);
    assert Sites(s.graph.next, k) == 0;
  }

  lemma CannotShare(s: Stmt, k: VarId, shared: set<VarId>, v: VarId)
    requires ResumesThenReturns(s, k) && v in Reads(s.next.value) && v !in shared + {s.binding}
    ensures SitesCanShare(s, k, shared, true).None? && !TailResumptive(s, k)
  {
    var here := s.graph;
    assert !ReadsOutside(here.next, shared + {here.result});
    assert SitesCanShare(here.next, k, shared + {here.result}, true) == Cfg.Some(false);
    assert Mentions(here, k);
  }

  /** A clause of two arms with one site each, the first of which cannot share. */
  lemma TwoArmed(c: Clause, k: VarId, x: Stmt, y: Stmt)
    requires c.resumeParam == Cfg.Some(k) && c.body.If? && c.body.thenBranch == x && c.body.elseBranch == y
    requires Uses(x, k) == Uses(y, k) == UseRange(One, One) && Sites(x, k) == Sites(y, k) == 1
    requires !TailResumptive(x, k) && SitesCanShare(x, k, Given(c), true).None?
    ensures Qualify(c) == Linear && !Defunctionalisable(c) && ErasePolicy(c) == Inline
  {
    assert Uses(c.body, k) == UseRange(One, One);
    assert Sites(c.body, k) == 2;
  }

  /** A site in one branch owes code that reads what only that branch binds: no sharing, although
      the clause resumes once on every path. Its parameter is `p` and its resumption `p + 1`. */
  function PrivateBinding(p: VarId): Clause {
    Clause(p, [p], Cfg.Some(p + 1),
      If(Var(p),
        Let(p + 2, Var(p),
          Val(p + 3, Resume(p + 4, p + 1, Var(p), Return(Var(p + 4))), Return(Binary(p, Var(p + 2), Var(p + 3))))),
        Val(p + 5, Resume(p + 6, p + 1, Var(p), Return(Var(p + 6))), Return(Var(p + 5)))))
  }

  lemma PrivateBindingIsNotShared(p: VarId)
    ensures Qualify(PrivateBinding(p)) == Linear && !Defunctionalisable(PrivateBinding(p))
      && ErasePolicy(PrivateBinding(p)) == Inline
    ensures !Interchangeable(AllSites(PrivateBinding(p).body, p + 1, {p, p + 1}))
  {
    var c, k := PrivateBinding(p), p + 1;
    var x, y := c.body.thenBranch, c.body.elseBranch;
    OneSite(x.next, k);
    OneSite(y, k);
    assert Given(c) == {p, k};
    CannotShare(x.next, k, Given(c), p + 2);
    TwoArmed(c, k, x, y);
    PrivateSites(p);
  }

  lemma PrivateSites(p: VarId)
    ensures !Interchangeable(AllSites(PrivateBinding(p).body, p + 1, {p, p + 1}))
  {
    var k, given := p + 1, {p, p + 1};
    var x, y := PrivateBinding(p).body.thenBranch, PrivateBinding(p).body.elseBranch;
    var site := Site(given + {p + 2}, Needs(x.next.graph.next) - {p + 4});
    assert site in AllSites(x.next.graph, k, given + {p + 2});
    var owing := Site(site.scope, site.pending + (Needs(x.next.next) - {p + 3}));
    assert owing in AllSites(x, k, given);
    var other := Site(given, Needs(y.graph.next) - {p + 6});
    assert other in AllSites(y.graph, k, given);
    var late := Site(given, other.pending + (Needs(y.next) - {p + 5}));
    assert late in AllSites(y, k, given);
    assert p + 2 in Reads(x.next.next.value.lhs);
    assert p + 2 in owing.pending && p + 2 !in late.scope;
  }

  /** A clause nested in another can also resume the outer one, here `p + 2`. Inside a branch the value
      of such a `resume` is one more binding of that branch, and code that reads it after a site is refused. */
  function ForeignRead(p: VarId): Clause {
    Clause(p, [p], Cfg.Some(p + 1),
      If(Var(p),
        Val(p + 3, Resume(p + 4, p + 2, Var(p), Return(Var(p + 4))),
          Val(p + 5, Resume(p + 6, p + 1, Var(p), Return(Var(p + 6))), Return(Binary(p, Var(p + 3), Var(p + 5))))),
        Val(p + 7, Resume(p + 8, p + 1, Var(p), Return(Var(p + 8))), Return(Var(p + 7)))))
  }

  lemma ForeignReadIsNotShared(p: VarId)
    ensures ForeignIdentity(ForeignRead(p).body, p + 1)
    ensures Qualify(ForeignRead(p)) == Linear && !Defunctionalisable(ForeignRead(p))
      && ErasePolicy(ForeignRead(p)) == Inline
  {
    var c, k := ForeignRead(p), p + 1;
    var x, y := c.body.thenBranch, c.body.elseBranch;
    OneSite(x.next, k);
    OneSite(y, k);
    assert Given(c) == {p, k};
    CannotShare(x.next, k, Given(c), p + 3);
    assert Sites(x.graph.next, k) == 0;
    assert Uses(x.graph, k) == UseRange(Zero, Zero);
    assert SitesCanShare(x.graph, k, Given(c), true) == Cfg.Some(false);
    TwoArmed(c, k, x, y);
    assert ForeignIdentity(x.next.graph, k) && ForeignIdentity(x.next, k) && ForeignIdentity(y.graph, k);
    assert ForeignIdentity(x, k) && ForeignIdentity(y, k);
  }
}
