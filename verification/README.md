# Cielo's middle and back end, verified

Cielo compiles a small language with effect handlers to C. This project models the passes between
its Core form and the emitted C, its type solver, and its reference-counting runtime, and proves
what each of them is for. `dafny verify dfyconfig.toml` checks all of it.

## What is modelled

**Handlers compiled away** (`Core`, `Exhaustive`, `ClauseAnalysis`, `Sharing`, `SharedFrame`, `Linear`,
`Erasure`, `ErasureMeaning`, `ErasureShape`, `ResumeSites`, `OneCopy`, `LinearArena`, `Lowering`). A
handled body is given a continuation-passing meaning in which a `perform` hands its clause the rest of
the body. `Erasure.Lower` splices clauses and continuations the way the compiler does, with its answer
frames, clause contexts, three strategies, fresh variables and dispatch labels; `ErasureMeaning` shows
that the spliced graph has the body's value and shows the world the same events. Calls and performs of
other effects are events, so an effect moved across a join would be seen. `Lowering` is the imperative
pass over an arena, with its memo and its statement budget. `ResumeSites` counts the jumps into shared
continuations: each table of them is exact. `OneCopy` is what joining and sharing are for. `Exhaustive`
is the type checker's rule for matches, and `SharedFrame` what sharing a continuation asks of a clause.

**Linear code to blocks** (`CfgRun`, `Scopes`, `CfgMeaning`, `CfgStatements`, `CfgLower`, `Pipeline`,
`HandlerStates`). The lowering is told where a value goes, keeps persistent scopes, and shares a block
between two lowerings that agree on the free variables. What a block owes is stated once, for all stores
that agree with the scope, and is what the memo keeps; it includes the handler, region and stage scopes
that have to be open where the block starts. `Pipeline` runs the erasure and this lowering one after the
other. `HandlerStates` is the backend's search for the handlers active at each block's end.

**Blocks to structured code** (`Cfg`, `Flow`, `Dominators`, `Layout`, `Planner`,
`LayoutRefinement`). Depth-first order, the iterative dominator loop, and the planner that turns edges
into nesting, jumps and fallthroughs.

**Tail-call cycles** (`Calls`, `PureCalls`, `TailCalls`, `Trampoline`, `Dispatchers`, `TailCycles`,
`Collapsing`). Tail calls are recognised, cycles of them found and judged, and each cycle collapsed into a
dispatcher. Programs are run with a step bound, so that returning and not returning are both kept. A call
inside an expression is looked up in a table; `PureCalls` fills the table by running the program itself,
one depth of nesting after the other.

**Validation** (`Definitions`, `SingleDefinition`, `Arity`). The greatest-fixpoint check that no block reads a
value some path leaves undefined, the rule that no two instructions assign one value, which lowering is shown
to keep, and the rule on how many values an edge passes.

**Types** (`Terms`, `Unify`). The union-find solver. Its state is read as a set of solutions, and a
ghost field holds the resolved tree of every variable.

**The runtime** (`Heap`, `Arc`). Objects with counts, pinned and saturated ones among them; retain,
release, the worklist destructor, and copying or taking fields.

## Where the code does not do what its comments say

* `check_value_definitions` says a read of an undefined value is reported. For an entry block that
  some edge leads back to it is not always (`Definitions.LoopingEntryIsUnsafe`); the exact condition is
  `Definitions.AcceptedIsSafe`. Lowering never builds such an entry.
* Taking a field is meant to be copying it, only cheaper. The two differ when the parent had no other
  owner and the copy would saturate a count: the copied object is then immortal, the moved one is not.
  `Heap.TakenIsNotCopied` is such a heap; `Heap.TakeIsCopy` is an equivalence with that condition, for
  shared and immortal parents too.

## How to read it

The world is a parameter: `Core.World` says what operators compute and how the world answers an
event after a trace, so every theorem is for all worlds. Blocks, values and statements are numbered
by their position in an arena, as in the compiler. A block's run in `CfgRun` follows jumps that only
lead back, which is how lowering builds them; `Calls` runs arbitrary graphs with a step bound.

A match that meets a constructor it has no arm for leaves unit, and an erased match that does so also
skips what was spliced into its arms (`ErasureMeaning.UnmatchedSkips`). The theorems on handled code are for
runs on which this does not happen: `Core.Matched`. The type checker reports a match that could
(`check_match_exhaustive`, crates/cielo-sema/src/typecheck.rs:1769-1814); `Exhaustive.Passes` is its rule,
`Exhaustive.HandleIsMatched` shows that what passes never gets there, and `Pipeline.CheckedHandleIsSound` is
the main theorem with that rule in place of the condition on the run. In block-form code the unit is
modelled as it is.

Some definitions are kept folded, under a quantifier over `Cfg.Folded`: the verifier then does not open them
unless a lemma does, which keeps long proofs short.

The sharing theorems are for clauses whose `resume` of any *other* clause's resumption is followed by
nothing but the return of its value, the form every `resume` is lowered to (`Sharing.ForeignIdentity`).

Validation's arity rule is asked of programs before a tail-call cycle is collapsed. The dispatcher leads
to the members' entries without passing them anything, so the rule would hold of the collapsed program
only where no member takes a parameter (`Arity.FitsAfterCollapse`); nothing in the backend asks it there.

## Model

| member | source | states |
|---|---|---|
| `ErasureMeaning.ErasureKeepsMeaning` | crates/cielo-runtime/src/linearize/lowering.rs:424-755 | erasing a handler gives the value and the trace of the continuation-passing reading of the handle, for every body, single-shot clauses, and any strategy that suits each clause, when no match is left without an arm |
| `ErasureMeaning.StrategiesAgree` | crates/cielo-runtime/src/linearize/lowering.rs:540-700 | any two suitable choices of strategy give graphs that run alike, when no match is left without an arm |
| `ErasureMeaning.ChoiceIsSound` | crates/cielo-runtime/src/linearize/analysis.rs:226-247 | the strategies the compiler chooses give the handle's meaning, and the same as re-lowering at every `resume`, when no match is left without an arm |
| `Pipeline.CheckedHandleIsSound` | crates/cielo-sema/src/typecheck.rs:1769-1814 | the same with nothing asked of the run, for a handle whose matches all have a default or an arm for every constructor of the scrutinee's type, in worlds and environments of its signature |
| `Exhaustive.HandleIsMatched` | crates/cielo-sema/src/typecheck.rs:1769-1814 | no run of a handle that passes that rule is left without an arm, and it gives a value of its type |
| `Exhaustive.TakenTyped` | crates/cielo-sema/src/typecheck.rs:1769-1814 | a match that passes has a branch to take, which it enters with the fields of the constructor by their types |
| `Exhaustive.CoverageIsExact` | crates/cielo-sema/src/typecheck.rs:1769-1814 | where every constructor of the type has a value, cases without a default pass the rule exactly when every value of the type finds one |
| `ErasureMeaning.ChosenPoliciesSuit` | crates/cielo-runtime/src/linearize/analysis.rs:226-247 | the choice only ever joins clauses that end every path in their `resume`, and only shares for clauses that have one |
| `OneCopy.SeveralSitesKeepOneCopy` | crates/cielo-runtime/src/linearize/analysis.rs:219-247 | a clause that resumes in several places, and ends each path so or is single-shot with sites that can share, is lowered to the same graph whatever follows the perform; what follows is lowered once, beside it |
| `OneCopy.ClauseIsApart` | crates/cielo-runtime/src/linearize/lowering.rs:540-598 | a joined or shared clause does not depend on the code after the perform, on where the perform stands, or on what its value answers |
| `OneCopy.QuietValueIsJoined` | crates/cielo-runtime/src/linearize/lowering.rs:700-735 | a `Val` whose code performs and resumes nothing is kept: what follows stands after it once, and its own code does not depend on that |
| `OneCopy.LowersAlike` | crates/cielo-runtime/src/linearize/lowering.rs:485-755 | the induction: code in clauses that differ only in what they resume lowers alike, counters included |
| `ErasureMeaning.BodyRuns` | crates/cielo-runtime/src/linearize/lowering.rs:459-485 | the induction: handled code lowered under an answer runs as that code with the answer as its continuation |
| `ErasureMeaning.ClauseRuns` | crates/cielo-runtime/src/linearize/lowering.rs:600-700 | clause code lowered under an answer takes its value on to what the answer means, with `resume` reaching the rest of the handled body |
| `ErasureMeaning.ResumeRuns` | crates/cielo-runtime/src/linearize/lowering.rs:600-685 | a spliced or jumped-to continuation is run once, and the code after the `resume` gets its value |
| `ErasureMeaning.ValRuns` | crates/cielo-runtime/src/linearize/lowering.rs:700-735 | threading a `Val`'s tail into its graph, or joining it after the graph, both run the graph and then the tail |
| `ErasureMeaning.JoinRuns` | crates/cielo-runtime/src/linearize/lowering.rs:620-627 | under a join the lowered clause evaluates to what it would resume with |
| `ErasureMeaning.PerformRuns` | crates/cielo-runtime/src/linearize/lowering.rs:485-598 | each of the three strategies at a perform gives the clause run with the rest of the body as its resumption |
| `ErasureMeaning.BodyMatchRuns` | crates/cielo-runtime/src/linearize/lowering.rs:805-830 | a match in a handled body, the code after it spliced into every arm and the default, runs as the match and then that code |
| `ErasureMeaning.UnmatchedSkips` | crates/cielo-sema/src/typecheck.rs:1769-1771 | a match in a handled body with no arm to take leaves unit in the erased graph, and what was to come after it is not run |
| `ErasureMeaning.ClauseMatchRuns` | crates/cielo-runtime/src/linearize/lowering.rs:805-830 | and so does a match in a clause, each arm with its own `resume` or none |
| `ErasureMeaning.BinderContinues` | crates/cielo-runtime/src/linearize/lowering.rs:571-596 | a made-up binder for a discarded answer disturbs nothing the continuation reads |
| `ErasureMeaning.ParamsRun` | crates/cielo-runtime/src/linearize/lowering.rs:1066-1100 | binding a clause's arguments one after the other is binding them all at once |
| `Core.BodyIsDirect` | crates/cielo-runtime/src/linearize/lowering.rs:736-755 | code that performs and resumes nothing only hands its value to its continuation |
| `Erasure.Lower` | crates/cielo-runtime/src/linearize/lowering.rs:424-755 | the lowering terminates, re-lowered continuations included, and only ever makes up new variables |
| `ErasureShape.LowerShaped` | crates/cielo-runtime/src/linearize/lowering.rs:424-755 | where no clause shares its continuation the erased graph has no dispatch in it, and reads only what the handled code and its handler read |
| `Lowering.LoweringState.LowerUnder` | crates/cielo-runtime/src/linearize/lowering.rs:424-755 | unless expansion was abandoned over the budget, the statement pushed decodes to what `Erasure.Lower` says, counters included |
| `Lowering.LoweringState.LowerStmt` | crates/cielo-runtime/src/linearize/lowering.rs:178-200 | a statement outside handled code is lowered as it stands; asked for again it is the same statement of the arena, and nothing is pushed |
| `Lowering.LoweringState.LowerPerform` | crates/cielo-runtime/src/linearize/lowering.rs:485-598 | the clause is spliced, and joined or shared, as its strategy says |
| `Lowering.LoweringState.LowerResume` | crates/cielo-runtime/src/linearize/lowering.rs:600-685 | the three ways a `resume` is lowered, and the skipped one outside its clause |
| `Lowering.LoweringState.LowerMatch` | crates/cielo-runtime/src/linearize/lowering.rs:805-830 | arms are lowered in turn, then the default, each under the same answer and the counters the last one left |
| `Lowering.LoweringState.LowerMatchingClause` | crates/cielo-runtime/src/linearize/lowering.rs:1066-1100 | the clause body under its arguments, pushed from the last outwards |
| `Lowering.LoweringState.InlineBudgetExceeded` | crates/cielo-runtime/src/linearize/lowering.rs:88-101 | the budget is exceeded exactly above its bound, and that is remembered |
| `Lowering.LoweringState.NextResumeLabel` | crates/cielo-runtime/src/linearize/lowering.rs:79-84 | the label is a site of that continuation nobody has been handed, and only it counts as handed out from now on |
| `ResumeSites.LowerTallies` | crates/cielo-runtime/src/linearize/lowering.rs:485-685 | in every graph lowering returns, each site and each continuation numbered on the way stands exactly once, and no other stands in it at all |
| `ResumeSites.LowerScoped` | crates/cielo-runtime/src/linearize/lowering.rs:600-685 | every jump is inside the clause of the continuation it enters, or of one that was open already |
| `ResumeSites.JumpHasItsContinuation` | crates/cielo-runtime/src/cfg_lower.rs:796-860 | a jump into a continuation that was not open already stands in the graph with that continuation |
| `ResumeSites.LowerIsDispatchable` | crates/cielo-runtime/src/cfg_lower.rs:833-850 | for a handled body: each continuation is shared in one place, the sites of the jumps into it are the numbers from zero up to how many there are, each once, so that its dispatch table has a slot for every jump and none to spare, and the next handler starts with sites nobody has |
| `Lowering.LoweringState.LowerHandled` | crates/cielo-runtime/src/linearize/lowering.rs:424-440 | a handled body lowered within the budget leaves a graph that does what the handle does in every world and environment, when no match is left without an arm, and whose dispatch tables are exact |
| `LinearArena.DecodeGrows` | crates/cielo-runtime/src/linearize/lowering.rs:53-64 | pushing statements changes no graph already in the arena |
| `ClauseAnalysis.UsesBoundRuns` | crates/cielo-runtime/src/linearize/analysis.rs:932-1027 | the use range bounds how often any run of a clause resumes, from below and from above, whichever arms it takes |
| `ClauseAnalysis.NoUseNoSite` | crates/cielo-runtime/src/linearize/analysis.rs:773-790 | the upper bound is zero exactly when there is no `resume` in the code |
| `ClauseAnalysis.QualifierBoundsRuns` | crates/cielo-runtime/src/linearize/analysis.rs:163-195 | an abortive clause resumes in no run, an affine one at most once, a linear one exactly once |
| `ClauseAnalysis.SitesBoundRuns` | crates/cielo-runtime/src/linearize/analysis.rs:773-790 | no run resumes more often than there are sites |
| `ClauseAnalysis.NoSiteNoResume` | crates/cielo-runtime/src/linearize/analysis.rs:773-790 | there is no site exactly when nothing resumes |
| `ClauseAnalysis.SeveralSites` | crates/cielo-runtime/src/linearize/analysis.rs:773-790 | there is more than one site exactly when two different places in the code resume |
| `ClauseAnalysis.ConventionHolds` | crates/cielo-runtime/src/linearize/analysis.rs:493-512 | a straight clause comes to the same whatever its resumption is, or ends by resuming with a value of its own; a control clause resumes, and not only in tail position unless several times |
| `ClauseAnalysis.TailHandsOver` | crates/cielo-runtime/src/linearize/analysis.rs:693-771 | a clause accepted as tail-resumptive, matches included, is its resumption applied to what it hands it, when no match is left without an arm |
| `Linear.DispatchedRuns` | crates/cielo-runtime/src/linearize/lowering.rs:997-1064 | the clause lowered for the dispatcher, matches included, evaluates to what the clause would resume with, when no match is left without an arm |
| `Linear.DispatchRefinesResumption` | crates/cielo-runtime/src/linearize/lowering.rs:997-1064 | answering a perform with the dispatched clause's value and going on is running the clause with that continuation as `resume`, when no match is left without an arm |
| `Linear.PlainRuns` | crates/cielo-runtime/src/linearize/lowering.rs:178-300 | code outside handled bodies means the same after lowering |
| `Linear.MatchRuns` | crates/cielo-runtime/src/linearize/lowering.rs:253-270 | a lowered match runs the arm the source takes, with its fields bound, else the default |
| `Sharing.SharedSitesAreBound` | crates/cielo-runtime/src/linearize/analysis.rs:260-383 | for an accepted single-shot clause, one that resumes the clauses around it included, all that is pending at one site is bound at every site, is a parameter, or is the resumption's value |
| `SharedFrame.AcceptedRunsShared` | crates/cielo-runtime/src/linearize/analysis.rs:249-268 | an accepted single-shot clause run with its sites in one frame, whatever that frame holds of what some site does not bind, does what it does with a frame for each |
| `Sharing.AcceptedShares` | crates/cielo-runtime/src/linearize/analysis.rs:282-383 | the walk says whether there is a site, and an accepted statement needs after a branch only what was shared before it, also where it resumes another clause |
| `Sharing.SettledIsAccepted` | crates/cielo-runtime/src/linearize/analysis.rs:282-383 | a statement is accepted if all that is pending at its sites is shared already |
| `Sharing.BranchedIsExact` | crates/cielo-runtime/src/linearize/analysis.rs:282-383 | past the first branch a single-shot statement is accepted exactly when all that is pending at every site is shared |
| `Sharing.ReadsOutsideIsNeeds` | crates/cielo-runtime/src/linearize/analysis.rs:395-491 | the walk for reads outside a set finds exactly the statement's free variables outside it |
| `Sharing.PrivateBindingIsNotShared` | crates/cielo-runtime/src/linearize/analysis.rs:249-268 | a clause whose site owes code reading a branch's own binding is refused, and would not be interchangeable |
| `SharedFrame.PrivateBindingReadsStale` | crates/cielo-runtime/src/linearize/analysis.rs:249-268 | that clause in a shared frame reads whatever the frame holds for the branch's own binding |
| `Sharing.ForeignReadIsNotShared` | crates/cielo-runtime/src/linearize/analysis.rs:260-355 | a clause that resumes an enclosing clause inside a branch, and reads that result after its own `resume`, is refused |
| `CfgLower.LowerProgram` | crates/cielo-runtime/src/cfg_lower.rs:164-208 | every lowered function returns, for all arguments in every world, what the source function's body does, having shown the world the same; no two instructions of the program assign one value, open one handler or open one region; and no result that hands back a reference is read where nothing would release it |
| `CfgLower.Lowerer.LowerBound` | crates/cielo-runtime/src/cfg_lower.rs:460-478 | the value of a binding is its own: nothing lowered under it assigns it |
| `SingleDefinition.CheckSingleAssignment` | crates/cielo-ir/src/cfg.rs:244-273 | reports exactly the values that two instructions assign, each with two that do, so none for a lowered program |
| `SingleDefinition.TemporariesAreNew` | crates/cielo-runtime/src/cfg_lower.rs:411-440 | temporaries named since the last block, and a value kept for the instruction after them, are assigned nowhere else |
| `CfgLower.Lowerer.LowerStmt` | crates/cielo-runtime/src/cfg_lower.rs:442-922 | from a store that agrees with the scope the block returned leaves the statement's outcome with its exit; asked again for the statement under a scope that agrees on what it reads, the block is the same and nothing is built |
| `CfgLower.Lowerer.LowerFunction` | crates/cielo-runtime/src/cfg_lower.rs:173-200 | the entry is new, takes the parameters and goes on to the body |
| `CfgLower.Lowerer.LowerVal` | crates/cielo-runtime/src/cfg_lower.rs:480-498 | the graph's value reaches the code after it through a block parameter |
| `CfgLower.Lowerer.LowerCall` | crates/cielo-runtime/src/cfg_lower.rs:937-977 | arguments are evaluated in the block; the result reaches the code after it |
| `CfgLower.Lowerer.LowerPerform` | crates/cielo-runtime/src/cfg_lower.rs:618-656 | a perform's answer, when bound, reaches the code after it |
| `CfgLower.Lowerer.LowerMatch` | crates/cielo-runtime/src/cfg_lower.rs:565-617 | the first matching arm runs with its fields bound, else the default, else unit is left |
| `CfgLower.Lowerer.LowerHandle` | crates/cielo-runtime/src/cfg_lower.rs:657-739 | the handler's body runs between the events that open and close its scope, under a handler and a region numbered afresh: no other place opens either |
| `CfgLower.Lowerer.LowerBracketThen` | crates/cielo-runtime/src/cfg_lower.rs:690-710 | with code after the scope, the body's value is discarded and the scope closed first |
| `CfgLower.Lowerer.LowerBracketForward` | crates/cielo-runtime/src/cfg_lower.rs:711-728 | with none, the body's value is forwarded past the closing of the scope |
| `CfgLower.Lowerer.LowerOwned` | crates/cielo-runtime/src/cfg_lower.rs:326-409 | after its temporaries the lowered expression reads what the source expression does |
| `CfgLower.Lowerer.LowerBorrowed` | crates/cielo-runtime/src/cfg_lower.rs:411-440 | the same, and never an owned result without a name, nor an operand that is one |
| `CfgLower.FreeVars` | crates/cielo-runtime/src/cfg_lower.rs:1014-1145 | one forward pass gives every statement exactly its free variables |
| `CfgMeaning.HandSame` | crates/cielo-runtime/src/cfg_lower.rs:986-1005 | an exit does not look at values made after it |
| `CfgMeaning.DeliversKept` | crates/cielo-runtime/src/cfg_lower.rs:442-446 | what a block delivers it goes on delivering, whatever is built after it |
| `CfgMeaning.RestrictMatches` | crates/cielo-runtime/src/cfg_lower.rs:84-92 | the restricted scope is all a statement can observe |
| `CfgStatements.ValDelivers` | crates/cielo-runtime/src/cfg_lower.rs:480-498 | a graph yielding into a block that binds and goes on delivers the `Val` |
| `CfgStatements.CallDelivers` | crates/cielo-runtime/src/cfg_lower.rs:937-977 | a call block and its continuation deliver the call |
| `CfgStatements.PerformDelivers` | crates/cielo-runtime/src/cfg_lower.rs:618-656 | a perform block and its continuation deliver the perform |
| `CfgStatements.MatchDelivers` | crates/cielo-runtime/src/cfg_lower.rs:565-617 | a match block whose arms take their fields as parameters delivers the match |
| `CfgStatements.BracketThenDelivers` | crates/cielo-runtime/src/cfg_lower.rs:657-780 | opening, body, closing and the code after deliver a scope with a continuation |
| `CfgStatements.BracketForwardDelivers` | crates/cielo-runtime/src/cfg_lower.rs:657-780 | and likewise a scope whose value is forwarded |
| `CfgStatements.LeavingHands` | crates/cielo-runtime/src/cfg_lower.rs:986-1005 | each of the three exits takes the value over as it should |
| `CfgRun.RunSame` | crates/cielo-runtime/src/cfg_lower.rs:1-20 | a block's run depends only on values numbered below its ceiling |
| `CfgRun.RunKept` | crates/cielo-runtime/src/cfg_lower.rs:442-446 | a block's run is settled once the block is built |
| `Pipeline.HandleToBlocks` | crates/cielo-runtime/src/cfg_lower.rs:29-40 | a handle erased and then lowered to blocks returns, for all arguments in every world, what the handle means, with every scope it opens closed, unless erasing it pushes more statements than the budget; for handlers whose clauses share no continuation and runs on which no match is left without an arm |
| `Scopes.ScopesNest` | crates/cielo-runtime/src/cfg_lower.rs:657-780 | along every way through the blocks the scopes open on coming to a block are the ones it needs, so enters and exits nest |
| `Scopes.ReturnsBalanced` | crates/cielo-runtime/src/cfg_lower.rs:657-780 | a way that returns has closed all it opened |
| `Scopes.ExitHasItsEnter` | crates/cielo-runtime/src/cfg_lower.rs:663-739 | an exit met on any way closes the handler or region that one place in the program opens, and the way has been through that place |
| `CfgLower.OneStackPerBlock` | crates/cielo-backend-c/src/cfg_codegen.rs:1372-1374 | two ways from a lowered function's entry to a block leave the same scopes open there |
| `HandlerStates.ActiveHandlerStates` | crates/cielo-backend-c/src/cfg_codegen.rs:1337-1394 | the search ends on every graph, reaches exactly the reachable blocks, and where each block has one stack over all paths finds that stack as the block's end leaves it |
| `HandlerStates.NestedIsSteady` | crates/cielo-backend-c/src/cfg_codegen.rs:1372-1374 | where nothing has to be open at the entry, each block does have one stack of handlers, the one its scopes leave |
| `Pipeline.LowerAndFind` | crates/cielo-backend-c/src/cfg_codegen.rs:1337-1394 | in every function of a lowered program the search tells, for every reachable block, the handlers open at its end on every way from the entry |
| `Dominators.ImmediateDominators` | crates/cielo-backend-c/src/structure.rs:180-209 | the loop terminates on every graph whose order gives each block an earlier predecessor, and leaves exactly the immediate dominators |
| `Dominators.Intersect` | crates/cielo-backend-c/src/structure.rs:220-230 | two fingers meet at the nearest common ancestor, always moving down |
| `Dominators.Candidate` | crates/cielo-backend-c/src/structure.rs:188-203 | the meet of a block's processed predecessors |
| `Dominators.Sweep` | crates/cielo-backend-c/src/structure.rs:184-206 | a sweep keeps the invariant, and lowers the state's weight unless nothing changed |
| `Dominators.StepKeepsInvariant` | crates/cielo-backend-c/src/structure.rs:188-206 | moving one block to its candidate keeps dominators on the chains |
| `Dominators.ChainsAreDominators` | crates/cielo-backend-c/src/structure.rs:180-209 | when stable, a block's chain is exactly its dominators |
| `Dominators.StableIsImmediate` | crates/cielo-backend-c/src/structure.rs:180-209 | and the next block on the chain is its immediate dominator |
| `Dominators.CandidateMovesDown` | crates/cielo-backend-c/src/structure.rs:188-203 | a candidate is never further from the entry than what it replaces |
| `Flow.ReversePostorder` | crates/cielo-backend-c/src/structure.rs:232-258 | the reachable blocks once each, entry first, every other one with an edge from an earlier block, and an edge that leads back in the order closes a cycle |
| `Flow.OrderIsReachable` | crates/cielo-backend-c/src/structure.rs:232-258 | the order holds exactly the reachable blocks |
| `Layout.CollectPredecessors` | crates/cielo-backend-c/src/structure.rs:155-172 | one entry for each incoming edge, so a target two arms share counts twice |
| `Layout.ComputeDoms` | crates/cielo-backend-c/src/structure.rs:148-209 | edge counts and joins describe the dominator tree of the graph |
| `Layout.DominatesRuns` | crates/cielo-backend-c/src/structure.rs:148-209 | dominance of positions is that no run of the function reaches the block without the dominator |
| `Layout.CollectJoins` | crates/cielo-backend-c/src/structure.rs:205-218 | a block's joins are the joins it immediately dominates, in the order |
| `Planner.Planner.LayRegion` | crates/cielo-backend-c/src/structure.rs:89-119 | the region laid out is the one the dominator tree calls for, and the labels are the blocks it jumps to |
| `Planner.Planner.LayArm` | crates/cielo-backend-c/src/structure.rs:121-134 | an edge nests, falls through or jumps as the tree says, though the planner only looks at counts and open blocks |
| `Planner.OnlyEdge` | crates/cielo-backend-c/src/structure.rs:121-134 | an edge that is its target's only one comes from the target's immediate dominator |
| `LayoutRefinement.Plan` | crates/cielo-backend-c/src/structure.rs:51-64 | the plan lays every reachable block out exactly once, every jump lands on a laid-out block, no edge jumps to what is laid out next, and for every sequence of choices it visits the blocks the graph visits |
| `LayoutRefinement.LaidOutOnce` | crates/cielo-backend-c/src/structure.rs:89-119 | a reachable block is laid out exactly once, an unreachable one never |
| `LayoutRefinement.PlanRunsLikeGraph` | crates/cielo-backend-c/src/cfg_codegen.rs:616-664 | running the nested, jumping and falling plan is running the graph |
| `LayoutRefinement.JumpsLand` | crates/cielo-backend-c/src/structure.rs:121-134 | every block jumped to is laid out somewhere |
| `LayoutRefinement.LocateIsFaithful` | crates/cielo-backend-c/src/cfg_codegen.rs:742-945 | what comes after each place of the plan in the emitted text is what the plan relied on, and an edge jumps only where that is not its target |
| `TailCalls.ForwardsToReturn` | crates/cielo-backend-c/src/cfg_codegen.rs:342-377 | exactly when empty jumps carry the value to a return of it; circling blocks are refused |
| `TailCalls.IsTailCall` | crates/cielo-backend-c/src/cfg_codegen.rs:302-312 | exactly the calls between whose return and the caller's nothing runs |
| `TailCalls.ForwardReturns` | crates/cielo-backend-c/src/cfg_codegen.rs:342-377 | following the jumps returns just what the name holds |
| `TailCalls.TailReturns` | crates/cielo-backend-c/src/cfg_codegen.rs:302-312 | a tail call returns what its callee returns, and does not return when it does not |
| `Trampoline.CollapseKeepsResults` | crates/cielo-backend-c/src/trampoline.rs:209-317 | for every function and argument list the collapsed program returns just what the original does, with the same trace, and fails to return just when it does, whatever calls inside expressions are answered with |
| `Trampoline.CollapseKeepsResultsWithin` | crates/cielo-backend-c/src/trampoline.rs:209-317 | the same when each program runs the calls inside its expressions itself, members called there included |
| `Trampoline.ChainStaysInFrame` | crates/cielo-backend-c/src/trampoline.rs:262-279 | a run through any number of tail calls between members, each in a frame of its own, is in the collapsed program a run of as many blocks in one frame |
| `PureCalls.EquivalentWithin` | crates/cielo-backend-c/src/trampoline.rs:209-317 | programs whose functions return alike in every world return alike when they run the calls inside expressions themselves |
| `PureCalls.ReturnsOnce` | crates/cielo-ir/src/cfg.rs:488-500 | what a function returns does not depend on how deep the calls inside expressions are let nest |
| `Trampoline.Forward` | crates/cielo-backend-c/src/trampoline.rs:209-317 | what the original computes from related frames the collapsed program computes |
| `Trampoline.Backward` | crates/cielo-backend-c/src/trampoline.rs:209-317 | and nothing else |
| `Trampoline.WrapperRuns` | crates/cielo-backend-c/src/trampoline.rs:281-314 | calling a wrapper is running the member's entry in the dispatcher's frame |
| `Trampoline.JumpLands` | crates/cielo-backend-c/src/trampoline.rs:262-279 | a tail call between members goes to the callee's entry and stays in the frame |
| `Trampoline.JumpRelates` | crates/cielo-backend-c/src/trampoline.rs:225-240 | the frame jumped on in agrees on the callee's parameters with the frame a call would start |
| `Trampoline.DispatchFrameHolds` | crates/cielo-backend-c/src/trampoline.rs:220-240 | each member finds its own arguments in the shared parameter pack, and the selector names it |
| `Dispatchers.Collapse` | crates/cielo-backend-c/src/trampoline.rs:209-317 | the program after collapsing is the dispatcher, the wrappers, and the members' tail calls to each other made jumps |
| `Dispatchers.MakeJumps` | crates/cielo-backend-c/src/trampoline.rs:262-279 | exactly the chosen tail calls become jumps |
| `Dispatchers.MakeWrappers` | crates/cielo-backend-c/src/trampoline.rs:281-314 | each member becomes a wrapper that enters the dispatcher at its own state |
| `Dispatchers.SafeKnows` | crates/cielo-backend-c/src/trampoline.rs:152-158 | when no run of a member reads a value it has not defined, sharing a frame is safe |
| `TailCycles.Transitive` | crates/cielo-backend-c/src/trampoline.rs:136-150 | exactly the functions reached along tail calls |
| `TailCycles.Cycles` | crates/cielo-backend-c/src/trampoline.rs:94-134 | every function in mutual tail recursion is in exactly one cycle, with exactly the functions it is mutual with |
| `Collapsing.IsEligible` | crates/cielo-backend-c/src/trampoline.rs:159-206 | exactly when the members' entries, parameters and blocks are their own and nothing in them keys off the frame |
| `Collapsing.CollapseTailCallCycles` | crates/cielo-backend-c/src/trampoline.rs:47-67 | all qualifying cycles are collapsed, none of the program's functions changes what it returns, also where expressions call them, and the tail calls within the cycles have become jumps |
| `Collapsing.CarriesKnown` | crates/cielo-backend-c/src/trampoline.rs:60-66 | one collapse leaves the program fit for the next |
| `Collapsing.SameJumps` | crates/cielo-backend-c/src/trampoline.rs:262-272 | collapsing one cycle changes nothing about which tail calls another has |
| `Arity.FitsAfterCollapse` | crates/cielo-ir/src/cfg.rs:204-222 | the collapsed program passes as many values on each edge as its target has parameters exactly when no member takes a parameter |
| `Arity.BouncingIsRefused` | crates/cielo-ir/src/cfg.rs:875-907 | for two functions of one parameter that tail-call each other the rule holds before the collapse and fails after it |
| `Definitions.DefinitionsOnEntry` | crates/cielo-ir/src/cfg.rs:381-466 | for each reachable block, exactly the values defined on every way into it |
| `Definitions.Fixpoint` | crates/cielo-ir/src/cfg.rs:422-446 | the loop stops, at a fixpoint that still holds everything always defined |
| `Definitions.ReachableBlocks` | crates/cielo-ir/src/cfg.rs:381-397 | the reachable blocks, each once, the entry first |
| `Definitions.SettledMeansDefined` | crates/cielo-ir/src/cfg.rs:422-446 | at a fixpoint what a block is said to have is defined on every run |
| `Definitions.ExitIsExact` | crates/cielo-ir/src/cfg.rs:422-446 | at a fixpoint the sets on exit are exact |
| `Definitions.CheckFunction` | crates/cielo-ir/src/cfg.rs:287-328 | the errors name exactly the reachable blocks and the values they rely on having from outside that some way in leaves undefined |
| `Definitions.CheckValueDefinitions` | crates/cielo-ir/src/cfg.rs:287-328 | the errors are exactly those of the functions; there is none exactly when every function is accepted |
| `Definitions.UndefinedReads` | crates/cielo-ir/src/cfg.rs:313-355 | the errors name the block, and exactly the values the expression reads outside the set |
| `Definitions.CheckBlock` | crates/cielo-ir/src/cfg.rs:289-311 | the errors name the block, and exactly the values it reads before defining them that did not come in |
| `Definitions.AcceptedHasNoMisread` | crates/cielo-ir/src/cfg.rs:287-328 | a function is accepted exactly when nothing can be reported of it |
| `Definitions.AcceptedIsSafe` | crates/cielo-ir/src/cfg.rs:287-311 | no run reads an undefined value exactly when the function is accepted and its entry needs nothing from outside |
| `Definitions.AcceptedIsSafeAtFreshEntry` | crates/cielo-runtime/src/cfg_lower.rs:184-192 | with an entry no edge comes into, acceptance is safety |
| `Definitions.LoopingEntryIsUnsafe` | crates/cielo-ir/src/cfg.rs:400-411 | an entry that loops to itself can be accepted and read an undefined value on its first visit |
| `Unify.InferState.Unify` | crates/cielo-sema/src/typecheck.rs:309-351 | it succeeds exactly when some assignment solving the state makes the two types equal, then keeps exactly those, and both sides resolve to one tree; when it fails, the two types it names clash and face each other inside the two given |
| `Unify.InferState.UnifyAppWithInstance` | crates/cielo-sema/src/typecheck.rs:353-373 | an application against an interned instance is the application against the instance taken apart |
| `Unify.InferState.UnifyVar` | crates/cielo-sema/src/typecheck.rs:309-351 | binding a variable succeeds exactly when it does not occur in the other side |
| `Unify.InferState.UnionVars` | crates/cielo-sema/src/typecheck.rs:386-410 | joining two classes adds exactly their equality, and the joined class goes by a declared name if either did |
| `Unify.InferState.Link` | crates/cielo-sema/src/typecheck.rs:386-410 | the lower-ranked root goes below the other, and every class keeps its root |
| `Unify.InferState.Find` | crates/cielo-sema/src/typecheck.rs:274-283 | the class's root, with every variable on the way pointed straight at it and no class changed |
| `Unify.InferState.Resolve` | crates/cielo-sema/src/typecheck.rs:288-300 | the head of what the type resolves to |
| `Unify.InferState.OccursIn` | crates/cielo-sema/src/typecheck.rs:375-384 | exactly when the variable occurs in the resolved tree |
| `Unify.InferState.FreshVar` | crates/cielo-sema/src/typecheck.rs:243-250 | a new variable constrains nothing |
| `Unify.InferState.MakeApp` | crates/cielo-sema/src/typecheck.rs:256-260 | the new type resolves to its name over the old trees of its arguments, and means the name over what they mean in every solution; nothing else the state says changes |
| `Unify.RankIsSmall` | crates/cielo-sema/src/typecheck.rs:386-410 | a root of rank r has at least 2^r members, so with 32-bit ids a rank is at most 32 and its byte never saturates |
| `Unify.LinkKeepsRanks` | crates/cielo-sema/src/typecheck.rs:386-410 | joining roots keeps ranks rising and classes populous |
| `Unify.Constraints.MostGeneral` | crates/cielo-sema/src/typecheck.rs:274-410 | every solution is an instance of the resolved tree |
| `Unify.Constraints.NoInfiniteTree` | crates/cielo-sema/src/typecheck.rs:375-384 | binding a variable to a tree it occurs in has no solution |
| `Terms.ExpandInjective` | crates/cielo-sema/src/typecheck.rs:353-373 | taking interned instances apart never confuses two of them |
| `Arc.Runtime.Release` | crates/cielo-backend-c/src/cielo_runtime.h:307-316 | the heap after release is the heap before, less exactly what only that reference kept alive; counts stay exact |
| `Arc.Runtime.DestroyAndDispose` | crates/cielo-backend-c/src/cielo_runtime.h:848-912 | the worklist ends, frees nothing twice and nothing referenced, and leaves every count exact |
| `Arc.Runtime.DropField` | crates/cielo-backend-c/src/cielo_runtime.h:870-900 | a dropped field gives up one reference, and dies when that was the last |
| `Arc.Runtime.DecIsLast` | crates/cielo-backend-c/src/cielo_runtime.h:299-306 | pinned counts are left alone; otherwise one reference less, and whether it was the last |
| `Arc.Runtime.Retain` | crates/cielo-backend-c/src/cielo_runtime.h:291-298 | one more root, unless the object is pinned |
| `Arc.Runtime.FieldCopy` | crates/cielo-backend-c/src/cielo_runtime.h:361-380 | of a constructor the field asked for, of anything else unit, with a reference of its own |
| `Arc.Runtime.TakeFieldUnique` | crates/cielo-backend-c/src/cielo_runtime.h:385-400 | from a sole owner the field asked for moves out and leaves unit behind; anything else gives unit |
| `Arc.Runtime.TakeField` | crates/cielo-backend-c/src/cielo_runtime.h:402-414 | the field asked for, moved out of a sole owner and copied from a shared or immortal parent; anything else gives unit |
| `Heap.MadeFieldsAreRead` | crates/cielo-backend-c/src/cielo_runtime.h:352-366 | a constructor reads back, field by field, what it was made of, whatever is retained since, itself included |
| `Arc.Runtime.MakeCtor` | crates/cielo-backend-c/src/cielo_runtime.h:1100-1131 | a new object that owns its fields, every count exact |
| `Arc.Runtime.MakeClosure` | crates/cielo-backend-c/src/cielo_runtime.h:1137-1157 | the same for a closure's captures |
| `Arc.Runtime.MakeStr` | crates/cielo-backend-c/src/cielo_runtime.h:961-976 | a new object without fields |
| `Heap.ReleaseIsExact` | crates/cielo-backend-c/src/cielo_runtime.h:848-912 | on an acyclic heap just the objects no root reaches any more are freed, pinned ones excepted |
| `Heap.ReleaseDetermined` | crates/cielo-backend-c/src/cielo_runtime.h:848-912 | the heap after a release does not depend on the order the worklist goes in |
| `Heap.TakeIsCopy` | crates/cielo-backend-c/src/cielo_runtime.h:361-414 | for every parent, taking a field and releasing the parent leaves what copying and releasing leaves, unless the parent had no other owner and the copy's count saturates; then it does not |
| `Heap.TakenIsNotCopied` | crates/cielo-backend-c/src/cielo_runtime.h:361-414 | a string counted one short of the maximum, in a constructor with one owner: the copy leaves it immortal, the take does not, and all the equivalence asks holds |
| `Heap.MoveIsCopy` | crates/cielo-backend-c/src/cielo_runtime.h:385-400 | for a sole owner, moving the field out is copying it exactly when the copy's count does not saturate |
| `Heap.RetainIsSound` | crates/cielo-backend-c/src/cielo_runtime.h:291-298 | retaining keeps every count exact |
| `Heap.HeldSurvives` | crates/cielo-backend-c/src/cielo_runtime.h:848-912 | what a root reaches is not freed |
| `Heap.SurvivorIsHeld` | crates/cielo-backend-c/src/cielo_runtime.h:848-912 | what is left is reached from a root, or is pinned |

## Left out

- Multi-shot clauses, clauses that perform the effect they handle, and handlers nested inside a handled body: the compiler diagnoses the first, diverges or refuses on the second, and the last would need a stack of handler environments in the meaning.
- `Stage`, `Handle`, holes and error nodes in handled bodies: they are joined rather than spliced.
- Statement and expression identifiers in Core: Core is taken as trees, so a shared subtree counts as often as it occurs; expressions are trees throughout, so the expression memos are not modelled.
- `LoweringState.LowerUnder`: says nothing of the graph once the budget is exceeded, because the compiler reports an error and abandons the expansion there.
- Diagnostics, spans and handler-site records.
- `Pipeline.HandleToBlocks`: does not cover handlers with a clause that shares its continuation. A shared one is lowered to a dispatch block that is filled in only after the blocks that jump to it, so what such a block delivers is not settled when it is built and remembered, as it is for every other statement; the meaning of sharing is part of `Linear.Run` and of `SharedFrame`.
- Residual handler clauses lowered as functions of their own, closures, and the regions' slots and placement.
- Blocks are pushed with their instructions once these are known, instead of being pushed first and filled after; no other block is pushed in between in the compiler.
- `Perform` and calls in `CfgRun`: answered by the world; only `Calls` and `PureCalls` run the function a call names.
- Pure calls in Core and linear expressions: a `Prim` stands for one.
- A jump whose only argument is a pure call is one terminator in `Cfg`, so that tail-call detection sees the call; what a function called inside an expression shows the world is not kept, since such calls are pure.
- ARC operations attached to blocks, and the emitted C text; `LayoutRefinement` models its control shape.
- `Unify.InferState.Unify`: labels take no part in what is solved, so only `Link`, `UnionVars` and `FreshVar` state them; schemes, effects and the rest of type checking are not modelled.
- Malloc failure, traps, string bytes and memory layout in the runtime; reference counts are numbers with the compiler's pinned and saturated values.
- Pruning and renumbering functions, and the lowering of the AST to Core.
