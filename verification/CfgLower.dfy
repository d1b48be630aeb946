/** Lowering structured linear code to block form. The lowering is continuation-aware: it is told
    where a statement's value goes. Values belong to scopes rather than to variables, and two
    lowerings of a statement share a block exactly when they agree on all it can observe. */
module CfgLower {
  import Cfg
  import opened Core
  import opened CfgRun
  import opened CfgMeaning
  import opened CfgStatements
  import opened SingleDefinition
  import opened Scopes
  import opened LinearArena
  import L = Linear

  /** What a block is remembered under: the scope only as far as the statement reads it. */
  datatype Key = Key(id: NodeId, exit: Exit, scope: View)

  /** The names a scope opens. */
  function NamesOf(k: Bracket): set<Name> {
    match k
    case HandlerScope(region, handler, _) => {HandlerName(handler), RegionName(region)}
    case StageScope(_) => {}
  }

  /** Outcomes that would leave a reference no value names. */
  predicate ProducesOwned(e: Cfg.Expr) { e.Prim? || e.PureCall? }

  lemma DeliversInKept(before: Built, g: Built, t: BlockId, graph: L.Graph, exit: Exit, scope: Scope)
    requires before.Sound() && g.Sound() && g.Extends(before) && before.Fits(exit)
      && DeliversIn(before, t, graph, exit, scope)
    ensures g.Fits(exit) && DeliversIn(g, t, graph, exit, scope)
  {
    DeliversKept(before, g, t, graph, exit, scope.Restrict(L.GraphReads(graph)));
  }

  // ---------------------------------------------------------------- free variables

  /** Every statement's free variables in one pass, children being in front of their parents. */
  method FreeVars(nodes: Arena) returns (vars: seq<set<VarId>>)
    requires Ordered(nodes)
    ensures |vars| == |nodes| && forall id: NodeId :: id < |nodes| ==> vars[id] == L.GraphReads(Decode(nodes, id))
  {
    vars := [];
    for id := 0 to |nodes|
      invariant |vars| == id && forall k: NodeId :: k < id ==> vars[k] == L.GraphReads(Decode(nodes, k))
    {
      assert nodes[id].Above(id);
      var own := FreeVarsOf(nodes, id, vars);
      vars := vars + [own];
    }
  }

  method FreeVarsOf(nodes: Arena, id: NodeId, vars: seq<set<VarId>>) returns (own: set<VarId>)
    requires Ordered(nodes) && id < |nodes| && |vars| == id
    requires forall k: NodeId :: k < id ==> vars[k] == L.GraphReads(Decode(nodes, k))
    ensures own == L.GraphReads(Decode(nodes, id))
  {
    assert nodes[id].Above(id);
    match nodes[id] {
      case Return(e) => own := Reads(e);
      case Let(b, e, next) => own := Reads(e) + (vars[next] - {b});
      case Val(b, graph, next) => own := vars[graph] + (vars[next] - {b});
      case Call(r, _, args, next) => own := ReadsOfAll(args) + (vars[next] - {r});
      case If(c, x, y) => own := Reads(c) + vars[x] + vars[y];
      case Perform(r, _, _, args, next) => own := ReadsOfAll(args) + (vars[next] - OptionSet(r));
      case Match(scrutinee, arms, default) =>
        var read := {};
        ghost var decoded := Decode(nodes, id).arms;
        for i := 0 to |arms|
          invariant read == L.ArmsRead(decoded, i)
        {
          read := read + (vars[arms[i].body] - Names(arms[i].binders));
        }
        own := Reads(scrutinee) + read + (if default.Some? then vars[default.value] else {});
      case Handle(_, body, after) => own := vars[body] + (if after.Some? then vars[after.value] else {});
      case Stage(_, body, after) => own := vars[body] + (if after.Some? then vars[after.value] else {});
      case Resumption(_, clause, param, continuation) => own := vars[clause] + (vars[continuation] - {param});
      case ResumeJump(_, _, arg, r, next) => own := Reads(arg) + (vars[next] - {r});
      case Error => own := {};
    }
  }

  class Lowerer {
    const linear: Arena
    const freeVars: seq<set<VarId>>
    var blocks: seq<Cfg.Block>
    ghost var ceilings: seq<ValueId>
    var nextValue: ValueId
    var unbound: map<VarId, ValueId>
    var statements: map<Key, BlockId>
    var nextHandler: nat
    var nextRegion: nat

    /** The names handed out so far that the code to come is to define. */
    ghost var pending: set<Name>

    ghost function Graph(): Built
      reads this`blocks, this`ceilings
    {
      Built(blocks, ceilings)
    }

    ghost predicate Source() {
      && Ordered(linear) && |freeVars| == |linear|
      && (forall id: NodeId {:trigger freeVars[id]} :: id < |linear| ==>
        freeVars[id] == L.GraphReads(Decode(linear, id)))
    }

    /** A statement whose clauses were all spliced, none left to a shared continuation. */
    ghost predicate Structured(id: NodeId) {
      Ordered(linear) && id < |linear| && L.Dispatchless(Decode(linear, id))
    }

    lemma ChildrenStructured(id: NodeId)
      requires Structured(id)
      ensures linear[id].Match? ==> forall i :: 0 <= i < |linear[id].arms| ==> Structured(linear[id].arms[i].body)
      ensures linear[id].Match? && linear[id].default.Some? ==> Structured(linear[id].default.value)
      ensures linear[id].Handle? ==> Structured(linear[id].body)
      ensures linear[id].Handle? && linear[id].after.Some? ==> Structured(linear[id].after.value)
      ensures linear[id].Stage? ==> Structured(linear[id].body)
      ensures linear[id].Stage? && linear[id].after.Some? ==> Structured(linear[id].after.value)
    {
      assert linear[id].Above(id);
      var g := Decode(linear, id);
      match linear[id]
      case Match(_, arms, default) =>
        forall i | 0 <= i < |arms| ensures Structured(arms[i].body) {
          assert arms[i] in arms;
          assert g.arms[i].body == Decode(linear, arms[i].body);
        }
        assert L.DispatchlessAfter(g.default) && g.default == DecodeOption(linear, default, id);
      case Handle(_, _, after) => assert L.DispatchlessAfter(g.after) && g.after == DecodeOption(linear, after, id);
      case Stage(_, _, after) => assert L.DispatchlessAfter(g.after) && g.after == DecodeOption(linear, after, id);
      case _ =>
    }

    ghost predicate Numbering()
      reads this`blocks, this`ceilings, this`nextValue, this`unbound
    {
      && Graph().Sound()
      && (forall b: BlockId :: b < |blocks| ==> ceilings[b] <= nextValue)
      && (forall v :: v in unbound ==> unbound[v] < nextValue)
    }

    /** A remembered block delivers its statement to its exit, for the scope it is remembered under. */
    ghost predicate Remembered(k: Key)
      requires Source() && Graph().Sound() && k in statements
      reads this`blocks, this`ceilings, this`statements
    {
      && k.id < |linear| && Graph().Fits(k.exit) && statements[k] < |blocks|
      && Delivers(Graph(), statements[k], Decode(linear, k.id), k.exit, k.scope)
    }

    ghost function Issued(): Drawn
      reads this`nextHandler, this`nextRegion, this`nextValue
    {
      Drawn(nextHandler, nextRegion, nextValue)
    }

    /** Each value is assigned, and each handler and each region opened, in one place at most. */
    ghost predicate Naming()
      reads this`blocks, this`pending, this`nextHandler, this`nextRegion, this`nextValue
    {
      WellNamed(blocks, pending, Issued())
    }

    ghost predicate Valid()
      reads this
    {
      Source() && Numbering() && Naming() && forall k {:trigger Remembered(k)} :: k in statements ==> Remembered(k)
    }

    constructor (nodes: Arena, vars: seq<set<VarId>>)
      requires Ordered(nodes) && |vars| == |nodes|
      requires forall id: NodeId :: id < |nodes| ==> vars[id] == L.GraphReads(Decode(nodes, id))
      ensures Valid() && linear == nodes && blocks == [] && nextValue == 0 && pending == {}
    {
      linear, freeVars := nodes, vars;
      blocks, ceilings, nextValue := [], [], 0;
      unbound, statements := map[], map[];
      nextHandler, nextRegion, pending := 0, 0, {};
      WellNamedIs([], {}, Drawn(0, 0, 0));
    }

    method PushValue() returns (v: ValueId)
      requires Valid()
      modifies this`nextValue
      ensures Valid() && v == old(nextValue) && nextValue == v + 1
    {
      v := nextValue;
      nextValue := nextValue + 1;
      MoreNamed(blocks, pending, old(Issued()), Issued());
      forall k | k in statements ensures Remembered(k) { assert old(Remembered(k)); }
    }

    /** A value that an instruction still to come is to assign. */
    method KeepValue() returns (v: ValueId)
      requires Valid()
      modifies this`nextValue, this`pending
      ensures Valid() && v == old(nextValue) && nextValue == v + 1
      ensures ValueName(v) !in old(pending) && pending == old(pending) + {ValueName(v)}
    {
      KeepNamed(blocks, pending, Issued(), Issued().(values := nextValue + 1), {ValueName(nextValue)});
      v := PushValue();
      pending := pending + {ValueName(v)};
    }

    method PushBlock(block: Cfg.Block) returns (b: BlockId)
      requires Valid() && Back(block, |blocks|) && BlockBelow(block, nextValue)
      requires MayPush(blocks, pending, Issued(), block.instrs)
      modifies this`blocks, this`ceilings
      ensures Valid() && b == |old(blocks)| && blocks == old(blocks) + [block]
        && ceilings == old(ceilings) + [nextValue]
      ensures Graph().Extends(old(Graph()))
    {
      b := |blocks|;
      ghost var before := Graph();
      blocks := blocks + [block];
      ceilings := ceilings + [nextValue];
      PushedSound(before, block, nextValue);
      PushNamed(before.blocks, pending, Issued(), block);
      forall k | k in statements ensures Remembered(k) {
        assert old(Remembered(k));
        DeliversKept(before, Graph(), statements[k], Decode(linear, k.id), k.exit, k.scope);
      }
    }

    lemma PushedSound(before: Built, block: Cfg.Block, n: ValueId)
      requires before.Sound() && Back(block, |before.blocks|) && BlockBelow(block, n)
      requires forall b: BlockId :: b < |before.blocks| ==> before.ceilings[b] <= n
      ensures Built(before.blocks + [block], before.ceilings + [n]).Sound()
    {
      var blocks, ceilings := before.blocks + [block], before.ceilings + [n];
      forall b: BlockId | b < |blocks| ensures Back(blocks[b], b) && BlockBelow(blocks[b], ceilings[b]) {
        if b < |before.blocks| { assert Back(before.blocks[b], b) && before.blocks[b] == blocks[b]; }
      }
    }

    // -------------------------------------------------------------- expressions

    /** A variable the scope does not bind has one value of its own. */
    method ValueForVar(scope: Scope, v: VarId) returns (value: ValueId)
      requires Valid() && scope.Below(nextValue)
      modifies this`nextValue, this`unbound
      ensures Valid() && old(nextValue) <= nextValue && value < nextValue
      ensures if scope.Get(v).Some? then value == scope.Get(v).value else v in unbound && unbound[v] == value
      ensures v in old(unbound) && scope.Get(v).None? ==> value == old(unbound)[v]
    {
      if scope.Get(v).Some? {
        scope.GetBelow(nextValue, v);
        return scope.Get(v).value;
      }
      if v in unbound { return unbound[v]; }
      value := PushValue();
      unbound := unbound[v := value];
      forall k | k in statements ensures Remembered(k) { assert old(Remembered(k)); }
    }

    /** For a position that takes ownership of the result. */
    method LowerOwned(e: Expr, scope: Scope) returns (code: seq<Cfg.Instr>, lowered: Cfg.Expr)
      requires Valid() && scope.Below(nextValue)
      modifies this`nextValue, this`unbound
      ensures Valid() && Numbered(code, lowered, old(nextValue), nextValue) && Computes(code, lowered, e, scope)
      ensures Rising(code, old(nextValue), nextValue)
      decreases e, 0
    {
      match e {
        case Var(v) =>
          var value := ValueForVar(scope, v);
          code, lowered := [], Cfg.Value(value);
          VariableComputes(v, scope, lowered);
        case Literal(value) => code, lowered := [], Cfg.Literal(value);
        case Unary(op, operand) =>
          var x;
          code, x := LowerBorrowed(operand, scope);
          lowered := Cfg.Unary(op, x);
          UnaryComputes(op, code, x, operand, scope);
        case Binary(op, lhs, rhs) =>
          var low := nextValue;
          var first, x := LowerBorrowed(lhs, scope);
          var mid := nextValue;
          scope.BelowMore(low, mid);
          var second, y := LowerBorrowed(rhs, scope);
          code, lowered := first + second, Cfg.Binary(op, x, y);
          TemporariesJoin(first, second, low, mid, nextValue);
          RisingJoin(first, second, low, mid, nextValue);
          ExprHigher(x, mid, nextValue);
          ThenComputes(first, x, second, lhs, scope, mid, nextValue);
          LateComputes(first, second, y, rhs, scope, low, mid);
          BinaryComputes(op, code, x, y, lhs, rhs, scope);
        case Prim(op, args) =>
          var values;
          code, values := LowerAll(args, scope);
          lowered := Cfg.Prim(op, values);
          PrimComputes(op, code, values, args, scope);
      }
    }

    /** For a position that only reads the result: an owned one is named first. */
    method LowerBorrowed(e: Expr, scope: Scope) returns (code: seq<Cfg.Instr>, lowered: Cfg.Expr)
      requires Valid() && scope.Below(nextValue)
      modifies this`nextValue, this`unbound
      ensures Valid() && Numbered(code, lowered, old(nextValue), nextValue) && Computes(code, lowered, e, scope)
      ensures Rising(code, old(nextValue), nextValue)
      ensures Borrowable(lowered)
      decreases e, 1
    {
      var low := nextValue;
      code, lowered := LowerOwned(e, scope);
      if ProducesOwned(lowered) {
        var mid := nextValue;
        var result := PushValue();
        ExprHigher(lowered, mid, nextValue);
        TemporariesJoin(code, [Cfg.Let(result, lowered)], low, mid, nextValue);
        RisingJoin(code, [Cfg.Let(result, lowered)], low, mid, nextValue);
        BorrowedComputes(code, lowered, e, scope, result);
        code, lowered := code + [Cfg.Let(result, lowered)], Cfg.Value(result);
      }
    }

    method LowerAll(es: seq<Expr>, scope: Scope) returns (code: seq<Cfg.Instr>, lowered: seq<Cfg.Expr>)
      requires Valid() && scope.Below(nextValue)
      modifies this`nextValue, this`unbound
      ensures Valid() && old(nextValue) <= nextValue && Temporaries(code, old(nextValue), nextValue)
      ensures ExprsBelow(lowered, nextValue) && ComputesAll(code, lowered, es, scope)
      ensures Rising(code, old(nextValue), nextValue)
      decreases es
    {
      code, lowered := [], [];
      var low := nextValue;
      for i := 0 to |es|
        invariant Valid() && low <= nextValue && Temporaries(code, low, nextValue) && Rising(code, low, nextValue)
        invariant ExprsBelow(lowered, nextValue) && ComputesAll(code, lowered, es[..i], scope)
      {
        var mid := nextValue;
        scope.BelowMore(low, mid);
        var more, last := LowerOwned(es[i], scope);
        TemporariesJoin(code, more, low, mid, nextValue);
        RisingJoin(code, more, low, mid, nextValue);
        ExprsHigher(lowered, mid, nextValue);
        AppendComputes(code, more, lowered, last, es[..i], es[i], scope, low, mid, nextValue);
        assert es[..i + 1] == es[..i] + [es[i]];
        code, lowered := code + more, lowered + [last];
      }
      assert es[..|es|] == es;
    }

    // -------------------------------------------------------------- statements

    /** The lowering may go on: everything built stays, and `t` delivers `graph`. */
    twostate predicate Lowered(t: BlockId, graph: L.Graph, exit: Exit, scope: Scope)
      reads this
    {
      && Valid() && Graph().Extends(old(Graph())) && old(nextValue) <= nextValue
      && Graph().Fits(exit) && DeliversIn(Graph(), t, graph, exit, scope)
    }

    /** The block is remembered for the statement, and was there already if one was. */
    twostate predicate Recalls(id: NodeId, exit: Exit, scope: Scope, t: BlockId)
      requires id < |freeVars|
      reads this
    {
      var key := Key(id, exit, scope.Restrict(freeVars[id]));
      && key in statements && statements[key] == t
      && (key in old(statements) ==> t == old(statements)[key] && blocks == old(blocks))
    }

    /** The block for a statement. Asked again under a scope that agrees on what the statement reads, it is the
        same block. */
    method LowerStmt(id: NodeId, exit: Exit, scope: Scope) returns (t: BlockId)
      requires Valid() && Structured(id) && Graph().Fits(exit) && scope.Below(nextValue)
      modifies this
      ensures Lowered(t, Decode(linear, id), exit, scope) && pending == old(pending)
      ensures Recalls(id, exit, scope, t)
      decreases id, 1
    {
      var key := Key(id, exit, scope.Restrict(freeVars[id]));
      if key in statements {
        assert Remembered(key);
        return statements[key];
      }
      t := LowerNew(id, exit, scope);
      Remember(key, t, scope);
    }

    /** A statement that is not remembered under this scope and exit. */
    method LowerNew(id: NodeId, exit: Exit, scope: Scope) returns (t: BlockId)
      requires Valid() && Structured(id) && Graph().Fits(exit) && scope.Below(nextValue)
      modifies this
      ensures Lowered(t, Decode(linear, id), exit, scope) && pending == old(pending)
      decreases id, 1, 0
    {
      assert linear[id].Above(id);
      ChildrenStructured(id);
      match linear[id] {
        case Return(_) => t := LowerReturn(id, exit, scope);
        case Let(_, _, _) => t := LowerLet(id, exit, scope);
        case Val(_, _, _) => t := LowerVal(id, exit, scope);
        case Call(_, _, _, _) => t := LowerCall(id, exit, scope);
        case If(_, _, _) => t := LowerIf(id, exit, scope);
        case Perform(_, _, _, _, _) => t := LowerPerform(id, exit, scope);
        case Match(_, _, _) => t := LowerMatch(id, exit, scope);
        case Handle(_, _, _) => t := LowerHandle(id, exit, scope);
        case Stage(stage, body, after) => t := LowerBracket(id, StageScope(stage), body, after, exit, scope);
        case Error => t := LowerUnit(id, exit, scope);
      }
    }

    method Remember(key: Key, t: BlockId, scope: Scope)
      requires Valid() && key.id < |linear| && Graph().Fits(key.exit) && key.scope == scope.Restrict(freeVars[key.id])
      requires DeliversIn(Graph(), t, Decode(linear, key.id), key.exit, scope)
      modifies this`statements
      ensures Valid() && statements == old(statements)[key := t]
    {
      statements := statements[key := t];
      forall k | k in statements ensures Remembered(k) { if k != key { assert old(Remembered(k)); } }
    }

    /** A block that ends by handing `value` to the exit. */
    method PushLeaving(params: seq<ValueId>, code: seq<Cfg.Instr>, value: Cfg.Expr, exit: Exit)
      returns (b: BlockId, ignored: ValueId)
      requires Valid() && Graph().Fits(exit) && ValuesBelow(params, nextValue) && InstrsBelow(code, nextValue)
        && ExprBelow(value, nextValue) && MayPush(blocks, pending, Issued(), code)
      modifies this`nextValue, this`blocks, this`ceilings
      ensures Valid() && Graph().Extends(old(Graph())) && old(nextValue) <= nextValue && old(nextValue) <= ignored
      ensures b == |old(blocks)| && b < |blocks| && blocks[b].params == params
      ensures (blocks[b].instrs, blocks[b].term) == Leaving(code, value, exit, ignored)
    {
      var n := nextValue;
      ignored := nextValue;
      ghost var drawn := Issued();
      if exit.Discard? {
        ignored := PushValue();
        IgnoredIsNew(blocks, pending, drawn, Issued(), code, value);
      }
      var (instrs, term) := Leaving(code, value, exit, ignored);
      ExprHigher(value, n, nextValue);
      forall k: nat | k < |instrs| ensures InstrBelow(instrs[k], nextValue) {
        if k < |code| {
          assert instrs[k] == code[k] && InstrBelow(code[k], n);
          InstrHigher(code[k], n, nextValue);
        } else {
          assert instrs[k] == Cfg.Eval(ignored, value);
        }
      }
      b := PushBlock(Cfg.Block(params, instrs, term));
    }

    /** Temporaries numbered since no block was pushed. */
    lemma ComputedIsNew(drawn: Drawn, code: seq<Cfg.Instr>)
      requires WellNamed(blocks, pending, drawn) && drawn.UpTo(Issued()) && Rising(code, drawn.values, nextValue)
      ensures MayPush(blocks, pending, Issued(), code)
    {
      TemporariesAreNew(blocks, pending, drawn, Issued(), code, []);
      assert pending - {} == pending && code + [] == code;
    }

    method LowerReturn(id: NodeId, exit: Exit, scope: Scope) returns (t: BlockId)
      requires Valid() && Structured(id) && Graph().Fits(exit) && scope.Below(nextValue) && linear[id].Return?
      modifies this
      ensures Lowered(t, Decode(linear, id), exit, scope) && pending == old(pending)
    {
      var n := nextValue;
      ghost var drawn := Issued();
      var code, value := LowerOwned(linear[id].value, scope);
      ComputedIsNew(drawn, code);
      var high := nextValue;
      ghost var before := Graph();
      var ignored;
      t, ignored := PushLeaving([], code, value, exit);
      FitsKept(before, Graph(), exit);
      ReturnDelivers(Graph(), t, code, value, linear[id].value, exit, ignored, scope, n, high);
    }

    /** A block that leaves unit. */
    method PushUnit(code: seq<Cfg.Instr>, exit: Exit, scope: Scope) returns (t: BlockId)
      requires Valid() && Graph().Fits(exit) && scope.Below(nextValue) && Idle(code)
      modifies this`nextValue, this`blocks, this`ceilings
      ensures Valid() && Graph().Extends(old(Graph())) && old(nextValue) <= nextValue && Graph().Fits(exit)
      ensures t < |blocks| && LeavesUnit(Graph(), t, exit)
    {
      ghost var before := Graph();
      var n := nextValue;
      var ignored;
      t, ignored := PushLeaving([], code, Cfg.Literal(Cfg.Unit), exit);
      FitsKept(before, Graph(), exit);
      UnitDelivers(Graph(), t, code, exit, ignored, scope, n);
    }

    method PushError(exit: Exit, scope: Scope) returns (t: BlockId)
      requires Valid() && Graph().Fits(exit) && scope.Below(nextValue)
      modifies this`nextValue, this`blocks, this`ceilings
      ensures Valid() && Graph().Extends(old(Graph())) && old(nextValue) <= nextValue && Graph().Fits(exit)
      ensures DeliversIn(Graph(), t, L.Graph.Error, exit, scope)
    {
      t := PushUnit([Cfg.Instr.Error], exit, scope);
      ErrorDelivers(Graph(), t, exit, scope);
    }

    method LowerUnit(id: NodeId, exit: Exit, scope: Scope) returns (t: BlockId)
      requires Valid() && Structured(id) && Graph().Fits(exit) && scope.Below(nextValue) && linear[id].Error?
      modifies this
      ensures Lowered(t, Decode(linear, id), exit, scope) && pending == old(pending)
    {
      t := PushError(exit, scope);
    }

    /** The code under a binding, whose value an instruction is to assign before it. */
    method LowerBound(x: VarId, next: NodeId, exit: Exit, scope: Scope) returns (r: ValueId, tn: BlockId)
      requires Valid() && Structured(next) && Graph().Fits(exit) && scope.Below(nextValue)
      modifies this
      ensures Valid() && Graph().Extends(old(Graph())) && old(nextValue) <= r < nextValue && Graph().Fits(exit)
      ensures ValueName(r) !in old(pending) && pending == old(pending) + {ValueName(r)}
      ensures DeliversIn(Graph(), tn, Decode(linear, next), exit, scope.Bind(x, r))
      decreases next, 2
    {
      var n := nextValue;
      r := KeepValue();
      scope.BelowMore(n, nextValue);
      tn := LowerStmt(next, exit, scope.Bind(x, r));
    }

    /** What a block branches on. */
    method LowerSelector(e: Expr, scope: Scope) returns (code: seq<Cfg.Instr>, value: Cfg.Expr)
      requires Valid() && scope.Below(nextValue)
      modifies this`nextValue, this`unbound
      ensures Valid() && Numbered(code, value, old(nextValue), nextValue) && Computes(code, value, e, scope)
      ensures Borrowable(value) && MayPush(blocks, pending, Issued(), code)
    {
      ghost var drawn := Issued();
      code, value := LowerBorrowed(e, scope);
      ComputedIsNew(drawn, code);
    }

    /** The block that assigns a value kept for it. */
    method PushBinding(r: ValueId, e: Expr, tn: BlockId, scope: Scope)
      returns (t: BlockId, ghost code: seq<Cfg.Instr>, ghost value: Cfg.Expr)
      requires Valid() && scope.Below(nextValue) && tn < |blocks| && r < nextValue && ValueName(r) in pending
      modifies this`blocks, this`ceilings, this`nextValue, this`unbound, this`pending
      ensures Valid() && Graph().Extends(old(Graph())) && pending == old(pending) - {ValueName(r)}
      ensures Numbered(code, value, old(nextValue), nextValue) && Computes(code, value, e, scope)
      ensures t < |blocks| && blocks[t] == Cfg.Block([], code + [Cfg.Let(r, value)], Cfg.Goto(tn, []))
    {
      ghost var drawn := Issued();
      var instrs, bound := LowerOwned(e, scope);
      code, value := instrs, bound;
      CodeThenLet(code, value, r, drawn.values, nextValue);
      TemporariesAreNew(blocks, pending, drawn, Issued(), code, [Cfg.Let(r, value)]);
      pending := pending - {ValueName(r)};
      t := PushBlock(Cfg.Block([], instrs + [Cfg.Let(r, bound)], Cfg.Goto(tn, [])));
    }

    method LowerLet(id: NodeId, exit: Exit, scope: Scope) returns (t: BlockId)
      requires Valid() && Structured(id) && Graph().Fits(exit) && scope.Below(nextValue) && linear[id].Let?
      modifies this
      ensures Lowered(t, Decode(linear, id), exit, scope) && pending == old(pending)
      decreases id, 0
    {
      var x, e, next := linear[id].binding, linear[id].bound, linear[id].next;
      assert linear[id].Above(id);
      var n := nextValue;
      var r, tn := LowerBound(x, next, exit, scope);
      var low := nextValue;
      scope.BelowMore(n, low);
      ghost var between := Graph();
      ghost var code, value;
      t, code, value := PushBinding(r, e, tn, scope);
      LetBuilt(between, Graph(), t, code, value, x, r, e, Decode(linear, next), tn, exit, scope, n, low, nextValue);
    }

    lemma LetBuilt(between: Built, g: Built, t: BlockId, code: seq<Cfg.Instr>, value: Cfg.Expr, x: VarId, r: ValueId,
        e: Expr, next: L.Graph, tn: BlockId, exit: Exit, scope: Scope, n: ValueId, low: ValueId, high: ValueId)
      requires between.Sound() && between.Fits(exit) && g.Extends(between)
        && DeliversIn(between, tn, next, exit, scope.Bind(x, r))
      requires Placed(g, t, exit, scope, n) && n <= r < low && Numbered(code, value, low, high)
        && Computes(code, value, e, scope)
      requires g.blocks[t].instrs == code + [Cfg.Let(r, value)] && g.blocks[t].term == Cfg.Goto(tn, [])
      ensures DeliversIn(g, t, L.Graph.Let(x, e, next), exit, scope)
    {
      DeliversInKept(between, g, tn, next, exit, scope.Bind(x, r));
      LetDelivers(g, t, code, value, x, r, e, next, tn, exit, scope, n, low, high);
    }

    lemma CodeThenLet(code: seq<Cfg.Instr>, value: Cfg.Expr, r: ValueId, low: ValueId, high: ValueId)
      requires Numbered(code, value, low, high) && r < high
      ensures InstrsBelow(code + [Cfg.Let(r, value)], high)
    {
      forall k: nat | k < |code| + 1 ensures InstrBelow((code + [Cfg.Let(r, value)])[k], high) {
        if k < |code| { assert InstrBelow(code[k], high); }
      }
    }

    /** A block that takes a value and goes on to `t`. */
    method PushContinuation(params: seq<ValueId>, t: BlockId) returns (c: BlockId)
      requires Valid() && t < |blocks| && ValuesBelow(params, nextValue)
      modifies this`blocks, this`ceilings
      ensures Valid() && c == |old(blocks)| && blocks == old(blocks) + [Cfg.Block(params, [], Cfg.Goto(t, []))]
      ensures Graph().Extends(old(Graph()))
    {
      c := PushBlock(Cfg.Block(params, [], Cfg.Goto(t, [])));
    }

    /** The code after a value: its variable bound to a fresh value, and a block that takes it. */
    method LowerRest(next: NodeId, x: Option<VarId>, exit: Exit, scope: Scope)
      returns (r: ValueId, c: BlockId, tn: BlockId)
      requires Valid() && Structured(next) && Graph().Fits(exit) && scope.Below(nextValue)
      modifies this
      ensures Valid() && Graph().Extends(old(Graph())) && Graph().Fits(exit) && pending == old(pending)
      ensures old(nextValue) <= r && old(nextValue) <= nextValue && (x.Some? ==> r < nextValue)
      ensures c < |blocks| && blocks[c] == Cfg.Block(if x.Some? then [r] else [], [], Cfg.Goto(tn, []))
      ensures DeliversIn(Graph(), tn, Decode(linear, next), exit, ScopeOption(scope, x, r))
      decreases next, 2
    {
      ghost var start := Graph();
      var n := nextValue;
      r := nextValue;
      if x.Some? { r := PushValue(); }
      scope.BelowMore(n, nextValue);
      tn := LowerStmt(next, exit, ScopeOption(scope, x, r));
      ghost var between := Graph();
      c := PushContinuation(if x.Some? then [r] else [], tn);
      DeliversInKept(between, Graph(), tn, Decode(linear, next), exit, ScopeOption(scope, x, r));
    }

    method LowerVal(id: NodeId, exit: Exit, scope: Scope) returns (t: BlockId)
      requires Valid() && Structured(id) && Graph().Fits(exit) && scope.Below(nextValue) && linear[id].Val?
      modifies this
      ensures Lowered(t, Decode(linear, id), exit, scope) && pending == old(pending)
      decreases id, 0
    {
      var x, graph, next := linear[id].binding, linear[id].graph, linear[id].next;
      assert linear[id].Above(id);
      var n := nextValue;
      var r, c, tn := LowerRest(next, Cfg.Some(x), exit, scope);
      scope.BelowMore(n, nextValue);
      ghost var joined := Graph();
      t := LowerStmt(graph, Yield(c), scope);
      assert Graph().blocks[c] == joined.blocks[c];
      DeliversInKept(joined, Graph(), tn, Decode(linear, next), exit, scope.Bind(x, r));
      ValDelivers(Graph(), t, x, r, Decode(linear, graph), Decode(linear, next), c, tn, exit, scope, n);
    }

    /** What a call or perform needs around it: the code after it, then its arguments. */
    method LowerAsking(args: seq<Expr>, next: NodeId, answer: Option<VarId>, exit: Exit, scope: Scope)
      returns (low: ValueId, code: seq<Cfg.Instr>, values: seq<Cfg.Expr>, r: ValueId, c: BlockId, tn: BlockId)
      requires Valid() && Structured(next) && Graph().Fits(exit) && scope.Below(nextValue)
      modifies this
      ensures Valid() && Graph().Extends(old(Graph())) && Graph().Fits(exit) && pending == old(pending)
      ensures old(nextValue) <= r && old(nextValue) <= low <= nextValue && (answer.Some? ==> r < low)
      ensures c < |blocks| && blocks[c] == Cfg.Block(if answer.Some? then [r] else [], [], Cfg.Goto(tn, []))
      ensures DeliversIn(Graph(), tn, Decode(linear, next), exit, ScopeOption(scope, answer, r))
      ensures Temporaries(code, low, nextValue) && ComputesAll(code, values, args, scope)
        && ExprsBelow(values, nextValue) && MayPush(blocks, pending, Issued(), code)
      decreases next, 3
    {
      var n := nextValue;
      r, c, tn := LowerRest(next, answer, exit, scope);
      ghost var joined := Graph();
      low := nextValue;
      scope.BelowMore(n, low);
      ghost var drawn := Issued();
      code, values := LowerAll(args, scope);
      ComputedIsNew(drawn, code);
    }

    method LowerCall(id: NodeId, exit: Exit, scope: Scope) returns (t: BlockId)
      requires Valid() && Structured(id) && Graph().Fits(exit) && scope.Below(nextValue) && linear[id].Call?
      modifies this
      ensures Lowered(t, Decode(linear, id), exit, scope) && pending == old(pending)
      decreases id, 0
    {
      var r, callee, args, next := linear[id].result, linear[id].callee, linear[id].args, linear[id].next;
      assert linear[id].Above(id);
      var n := nextValue;
      var low, code, values, x, c, tn := LowerAsking(args, next, Cfg.Some(r), exit, scope);
      scope.BelowMore(n, nextValue);
      ghost var joined := Graph();
      t := PushBlock(Cfg.Block([], code, Cfg.Terminator.Call(callee, values, x, c)));
      CallBuilt(joined, Graph(), t, code, values, r, x, callee, args, Decode(linear, next), c, tn, exit, scope, n, low,
        nextValue);
    }

    lemma CallBuilt(joined: Built, g: Built, t: BlockId, code: seq<Cfg.Instr>, values: seq<Cfg.Expr>, r: VarId,
        x: ValueId, callee: nat, args: seq<Expr>, next: L.Graph, c: BlockId, tn: BlockId, exit: Exit, scope: Scope,
        n: ValueId, low: ValueId, high: ValueId)
      requires joined.Sound() && joined.Fits(exit) && g.Extends(joined) && c < |joined.blocks|
      requires joined.blocks[c] == Cfg.Block([x], [], Cfg.Goto(tn, []))
      requires DeliversIn(joined, tn, next, exit, scope.Bind(r, x))
      requires Placed(g, t, exit, scope, n) && n <= x < low <= high
        && Temporaries(code, low, high) && ComputesAll(code, values, args, scope)
      requires g.blocks[t].instrs == code && g.blocks[t].term == Cfg.Terminator.Call(callee, values, x, c)
      ensures DeliversIn(g, t, L.Graph.Call(r, callee, args, next), exit, scope)
    {
      assert g.blocks[c] == joined.blocks[c];
      DeliversInKept(joined, g, tn, next, exit, scope.Bind(r, x));
      CallDelivers(g, t, code, values, r, x, callee, args, next, c, tn, exit, scope, n, low, high);
    }

    method LowerPerform(id: NodeId, exit: Exit, scope: Scope) returns (t: BlockId)
      requires Valid() && Structured(id) && Graph().Fits(exit) && scope.Below(nextValue) && linear[id].Perform?
      modifies this
      ensures Lowered(t, Decode(linear, id), exit, scope) && pending == old(pending)
      decreases id, 0
    {
      var r, args, next := linear[id].answer, linear[id].args, linear[id].next;
      var effect, operation := linear[id].effect, linear[id].operation;
      assert linear[id].Above(id);
      var n := nextValue;
      var low, code, values, x, c, tn := LowerAsking(args, next, r, exit, scope);
      scope.BelowMore(n, nextValue);
      ghost var joined := Graph();
      var block := Cfg.Block([], code, Cfg.Terminator.Perform(effect, operation, values, ValueOption(r, x), c));
      PerformBelow(block, |blocks|, nextValue);
      t := PushBlock(block);
      PerformBuilt(joined, Graph(), t, code, values, r, x, effect, operation, args, Decode(linear, next), c, tn, exit,
        scope, n, low, nextValue);
    }

    lemma PerformBelow(block: Cfg.Block, b: BlockId, n: ValueId)
      requires block.params == [] && InstrsBelow(block.instrs, n) && block.term.Perform?
      requires block.term.target < b && ExprsBelow(block.term.args, n)
        && (block.term.binding.Some? ==> block.term.binding.value < n)
      ensures Back(block, b) && BlockBelow(block, n)
    {}

    lemma PerformBuilt(joined: Built, g: Built, t: BlockId, code: seq<Cfg.Instr>, values: seq<Cfg.Expr>,
        r: Option<VarId>, x: ValueId, effect: nat, operation: nat, args: seq<Expr>, next: L.Graph, c: BlockId,
        tn: BlockId, exit: Exit, scope: Scope, n: ValueId, low: ValueId, high: ValueId)
      requires joined.Sound() && joined.Fits(exit) && g.Extends(joined) && c < |joined.blocks|
      requires joined.blocks[c] == Cfg.Block(if r.Some? then [x] else [], [], Cfg.Goto(tn, []))
      requires DeliversIn(joined, tn, next, exit, ScopeOption(scope, r, x))
      requires Placed(g, t, exit, scope, n) && n <= x && (r.Some? ==> x < low) && n <= low <= high
        && Temporaries(code, low, high) && ComputesAll(code, values, args, scope)
      requires g.blocks[t].instrs == code
        && g.blocks[t].term == Cfg.Terminator.Perform(effect, operation, values, ValueOption(r, x), c)
      ensures DeliversIn(g, t, L.Graph.Perform(r, effect, operation, args, next), exit, scope)
    {
      assert g.blocks[c] == joined.blocks[c];
      DeliversInKept(joined, g, tn, next, exit, ScopeOption(scope, r, x));
      PerformDelivers(g, t, code, values, r, x, effect, operation, args, next, c, tn, exit, scope, n, low, high);
    }

    method LowerIf(id: NodeId, exit: Exit, scope: Scope) returns (t: BlockId)
      requires Valid() && Structured(id) && Graph().Fits(exit) && scope.Below(nextValue) && linear[id].If?
      modifies this
      ensures Lowered(t, Decode(linear, id), exit, scope) && pending == old(pending)
      decreases id, 0
    {
      var c, x, y := linear[id].cond, linear[id].thenBranch, linear[id].elseBranch;
      assert linear[id].Above(id);
      var n := nextValue;
      var tx, ty := LowerBranches(x, y, exit, scope);
      ghost var between := Graph();
      var low := nextValue;
      scope.BelowMore(n, low);
      var code, value := LowerSelector(c, scope);
      t := PushBlock(Cfg.Block([], code, Cfg.Branch(value, tx, ty)));
      IfBuilt(between, Graph(), t, code, value, c, Decode(linear, x), Decode(linear, y), tx, ty, exit, scope, n, low,
        nextValue);
    }

    method LowerBranches(x: NodeId, y: NodeId, exit: Exit, scope: Scope) returns (tx: BlockId, ty: BlockId)
      requires Valid() && Structured(x) && Structured(y) && Graph().Fits(exit) && scope.Below(nextValue)
      modifies this
      ensures Valid() && Graph().Extends(old(Graph())) && old(nextValue) <= nextValue && Graph().Fits(exit)
        && pending == old(pending)
      ensures DeliversIn(Graph(), tx, Decode(linear, x), exit, scope)
        && DeliversIn(Graph(), ty, Decode(linear, y), exit, scope)
      decreases if x < y then y else x, 2
    {
      var n := nextValue;
      tx := LowerStmt(x, exit, scope);
      ghost var between := Graph();
      scope.BelowMore(n, nextValue);
      ty := LowerStmt(y, exit, scope);
      DeliversInKept(between, Graph(), tx, Decode(linear, x), exit, scope);
    }

    lemma IfBuilt(between: Built, g: Built, t: BlockId, code: seq<Cfg.Instr>, value: Cfg.Expr, c: Expr, x: L.Graph,
        y: L.Graph, tx: BlockId, ty: BlockId, exit: Exit, scope: Scope, n: ValueId, low: ValueId, high: ValueId)
      requires between.Sound() && between.Fits(exit) && g.Extends(between)
      requires DeliversIn(between, tx, x, exit, scope) && DeliversIn(between, ty, y, exit, scope)
      requires Placed(g, t, exit, scope, n) && n <= low && Numbered(code, value, low, high)
        && Computes(code, value, c, scope)
      requires g.blocks[t].instrs == code && g.blocks[t].term == Cfg.Branch(value, tx, ty)
      ensures DeliversIn(g, t, L.Graph.If(c, x, y), exit, scope)
    {
      DeliversInKept(between, g, tx, x, exit, scope);
      DeliversInKept(between, g, ty, y, exit, scope);
      IfDelivers(g, t, code, value, c, x, y, tx, ty, exit, scope, n, low, high);
    }

    /** A handler's or a stage's body runs before the block that closes its scope. */
    method LowerBracket(id: NodeId, k: Bracket, body: NodeId, after: Option<NodeId>, exit: Exit, scope: Scope)
      returns (t: BlockId)
      requires Valid() && Structured(id) && Graph().Fits(exit) && scope.Below(nextValue) && body < id
        && Under(after, id)
      requires Structured(body) && (after.Some? ==> Structured(after.value))
      requires NamesOf(k) <= pending
      modifies this
      ensures Lowered(t, k.Around(Decode(linear, body), DecodeOption(linear, after, id)), exit, scope)
      ensures pending == old(pending) - NamesOf(k)
      decreases id, 0, 2
    {
      match after {
        case Some(next) => t := LowerBracketThen(k, body, next, exit, scope);
        case None => t := LowerBracketForward(k, body, exit, scope);
      }
    }

    /** A handler and its region, numbered afresh: nothing lowered before or after opens either again. */
    method LowerHandle(id: NodeId, exit: Exit, scope: Scope) returns (t: BlockId)
      requires Valid() && Structured(id) && Graph().Fits(exit) && scope.Below(nextValue) && linear[id].Handle?
      modifies this
      ensures Lowered(t, Decode(linear, id), exit, scope) && pending == old(pending)
      ensures DefinedOnce(blocks)
      decreases id, 0, 3
    {
      assert linear[id].Above(id);
      ChildrenStructured(id);
      var handler, region := nextHandler, nextRegion;
      ghost var k := HandlerScope(region, handler, linear[id].handled);
      KeepNamed(blocks, pending, Issued(), Drawn(handler + 1, region + 1, nextValue), NamesOf(k));
      nextHandler, nextRegion := nextHandler + 1, nextRegion + 1;
      pending := pending + NamesOf(k);
      t := LowerBracket(id, HandlerScope(region, handler, linear[id].handled), linear[id].body, linear[id].after, exit,
        scope);
      WellNamedIs(blocks, pending, Issued());
    }

    /** The code after a scope, and the block that closes the scope before it. */
    method LowerClosing(k: Bracket, next: NodeId, exit: Exit, scope: Scope) returns (a: BlockId, tn: BlockId)
      requires Valid() && Structured(next) && Graph().Fits(exit) && scope.Below(nextValue)
      modifies this
      ensures Valid() && Graph().Extends(old(Graph())) && old(nextValue) <= nextValue && Graph().Fits(exit)
        && pending == old(pending)
      ensures a < |blocks| && blocks[a] == Cfg.Block([], k.Closing(), Cfg.Goto(tn, []))
      ensures DeliversIn(Graph(), tn, Decode(linear, next), exit, scope)
      decreases next, 2
    {
      tn := LowerStmt(next, exit, scope);
      ghost var between := Graph();
      a := PushBlock(Cfg.Block([], k.Closing(), Cfg.Goto(tn, [])));
      DeliversInKept(between, Graph(), tn, Decode(linear, next), exit, scope);
    }

    method LowerBracketThen(k: Bracket, body: NodeId, next: NodeId, exit: Exit, scope: Scope) returns (t: BlockId)
      requires Valid() && Graph().Fits(exit) && scope.Below(nextValue) && Structured(body) && Structured(next)
      requires NamesOf(k) <= pending
      modifies this
      ensures Lowered(t, k.Around(Decode(linear, body), Cfg.Some(Decode(linear, next))), exit, scope)
      ensures pending == old(pending) - NamesOf(k)
      decreases if body < next then next else body, 3
    {
      var n := nextValue;
      var a, tn := LowerClosing(k, next, exit, scope);
      ghost var closed := Graph();
      scope.BelowMore(n, nextValue);
      var tb;
      t, tb := LowerOpening(k, body, Discard(a), scope);
      BracketOpened(closed, Graph(), k, t, Decode(linear, body), tb, a, Decode(linear, next), tn, exit, scope, n);
    }

    lemma BracketIsNew(k: Bracket)
      requires Naming() && NamesOf(k) <= pending
      ensures WellNamed(blocks, pending - NamesOf(k), Issued())
      ensures MayPush(blocks, pending - NamesOf(k), Issued(), k.Opening())
    {
      CodeIsNew(blocks, pending, Issued(), Issued(), NamesOf(k), k.Opening());
    }

    /** A scope's body, and the block that opens the scope before it. */
    method LowerOpening(k: Bracket, body: NodeId, inner: Exit, scope: Scope) returns (t: BlockId, tb: BlockId)
      requires Valid() && Structured(body) && Graph().Fits(inner) && scope.Below(nextValue)
      requires NamesOf(k) <= pending
      modifies this
      ensures Valid() && Graph().Extends(old(Graph())) && old(nextValue) <= nextValue && Graph().Fits(inner)
        && pending == old(pending) - NamesOf(k)
      ensures t < |blocks| && blocks[t] == Cfg.Block([], k.Opening(), Cfg.Goto(tb, []))
      ensures DeliversIn(Graph(), tb, Decode(linear, body), inner, scope)
      decreases body, 2
    {
      tb := LowerStmt(body, inner, scope);
      ghost var inside := Graph();
      BracketIsNew(k);
      pending := pending - NamesOf(k);
      t := PushBlock(Cfg.Block([], k.Opening(), Cfg.Goto(tb, [])));
      DeliversInKept(inside, Graph(), tb, Decode(linear, body), inner, scope);
    }

    lemma BracketOpened(closed: Built, g: Built, k: Bracket, t: BlockId, body: L.Graph, tb: BlockId, a: BlockId,
        next: L.Graph, tn: BlockId, exit: Exit, scope: Scope, n: ValueId)
      requires closed.Sound() && g.Sound() && g.Extends(closed) && a < |closed.blocks|
      requires closed.Fits(exit) && closed.Predates(exit, n) && scope.Below(n)
        && closed.blocks[a] == Cfg.Block([], k.Closing(), Cfg.Goto(tn, []))
      requires DeliversIn(closed, tn, next, exit, scope) && g.Fits(Discard(a))
        && DeliversIn(g, tb, body, Discard(a), scope)
      requires t < |g.blocks| && g.blocks[t] == Cfg.Block([], k.Opening(), Cfg.Goto(tb, []))
      ensures g.Fits(exit) && DeliversIn(g, t, k.Around(body, Cfg.Some(next)), exit, scope)
    {
      assert g.blocks[a] == closed.blocks[a];
      DeliversInKept(closed, g, tn, next, exit, scope);
      FitsKept(closed, g, exit);
      BracketThenDelivers(g, k, t, body, tb, a, next, tn, exit, scope, n);
    }

    method LowerBracketForward(k: Bracket, body: NodeId, exit: Exit, scope: Scope) returns (t: BlockId)
      requires Valid() && Graph().Fits(exit) && scope.Below(nextValue) && Structured(body)
      requires NamesOf(k) <= pending
      modifies this
      ensures Lowered(t, k.Around(Decode(linear, body), Cfg.None), exit, scope)
      ensures pending == old(pending) - NamesOf(k)
      decreases body, 3
    {
      var n := nextValue;
      ghost var start := Graph();
      var p := PushValue();
      var a, ignored := PushLeaving([p], k.Closing(), Cfg.Value(p), exit);
      ghost var closed := Graph();
      scope.BelowMore(n, nextValue);
      var tb;
      t, tb := LowerOpening(k, body, Yield(a), scope);
      ForwardOpened(start, closed, Graph(), k, t, Decode(linear, body), tb, a, p, ignored, exit, scope, n);
    }

    lemma ForwardOpened(start: Built, closed: Built, g: Built, k: Bracket, t: BlockId, body: L.Graph, tb: BlockId,
        a: BlockId, p: ValueId, ignored: ValueId, exit: Exit, scope: Scope, n: ValueId)
      requires start.Sound() && start.Fits(exit) && start.Predates(exit, n) && g.Sound() && g.Extends(start)
      requires g.Extends(closed) && g.Fits(Yield(a)) && scope.Below(n)
      requires a < |closed.blocks| && n <= p && n <= ignored && closed.blocks[a].params == [p]
        && (closed.blocks[a].instrs, closed.blocks[a].term) == Leaving(k.Closing(), Cfg.Value(p), exit, ignored)
      requires DeliversIn(g, tb, body, Yield(a), scope)
      requires t < |g.blocks| && g.blocks[t] == Cfg.Block([], k.Opening(), Cfg.Goto(tb, []))
      ensures g.Fits(exit) && DeliversIn(g, t, k.Around(body, Cfg.None), exit, scope)
    {
      FitsKept(start, g, exit);
      assert g.blocks[a] == closed.blocks[a];
      BracketForwardDelivers(g, k, t, body, tb, a, p, ignored, exit, scope, n);
    }

    method LowerMatch(id: NodeId, exit: Exit, scope: Scope) returns (t: BlockId)
      requires Valid() && Structured(id) && Graph().Fits(exit) && scope.Below(nextValue) && linear[id].Match?
      modifies this
      ensures Lowered(t, Decode(linear, id), exit, scope) && pending == old(pending)
      decreases id, 0, 3
    {
      var scrutinee := linear[id].scrutinee;
      assert linear[id].Above(id);
      ghost var decoded := Decode(linear, id);
      var n := nextValue;
      var lowered, td := LowerCases(id, exit, scope);
      ghost var done := Graph();
      var low := nextValue;
      scope.BelowMore(n, low);
      var code, value := LowerSelector(scrutinee, scope);
      ArmsBelow(done, decoded.arms, lowered, exit, scope, n, low, nextValue);
      var block := Cfg.Block([], code, Cfg.Terminator.Match(value, lowered, td));
      MatchBelow(block, |blocks|, nextValue);
      t := PushBlock(block);
      MatchBuilt(done, Graph(), t, code, value, scrutinee, decoded.arms, lowered, decoded.default, td, exit, scope, n,
        low, nextValue);
    }

    /** The arms of a match, then its default. */
    method LowerCases(id: NodeId, exit: Exit, scope: Scope) returns (lowered: seq<Cfg.MatchArm>, td: BlockId)
      requires Valid() && Structured(id) && Graph().Fits(exit) && scope.Below(nextValue) && linear[id].Match?
      modifies this
      ensures Valid() && Graph().Extends(old(Graph())) && old(nextValue) <= nextValue && Graph().Fits(exit)
        && pending == old(pending)
      ensures ArmsBuilt(Graph(), Decode(linear, id).arms, lowered, exit, scope, old(nextValue), nextValue)
      ensures DefaultBuilt(Graph(), Decode(linear, id).default, td, exit, scope)
      decreases id, 0, 2
    {
      var n := nextValue;
      lowered := LowerArms(id, exit, scope);
      ghost var armed := Graph();
      var mid := nextValue;
      scope.BelowMore(n, mid);
      td := LowerDefault(linear[id].default, id, exit, scope);
      ArmsBuiltKept(armed, Graph(), Decode(linear, id).arms, lowered, exit, scope, n, mid, nextValue);
    }

    lemma MatchBelow(block: Cfg.Block, b: BlockId, n: ValueId)
      requires block.params == [] && InstrsBelow(block.instrs, n) && block.term.Match?
      requires Borrowable(block.term.scrutinee) && ExprBelow(block.term.scrutinee, n) && block.term.default < b
      requires forall k: nat {:trigger ArmBelow(block.term.arms[k], n)} :: k < |block.term.arms| ==>
        ArmBelow(block.term.arms[k], n)
      requires forall k: nat {:trigger block.term.arms[k]} :: k < |block.term.arms| ==> block.term.arms[k].target < b
      ensures Back(block, b) && BlockBelow(block, n)
    {}

    lemma MatchBuilt(done: Built, g: Built, t: BlockId, code: seq<Cfg.Instr>, value: Cfg.Expr, e: Expr,
        arms: seq<L.Arm>, lowered: seq<Cfg.MatchArm>, default: Option<L.Graph>, td: BlockId, exit: Exit, scope: Scope,
        n: ValueId, low: ValueId, high: ValueId)
      requires done.Sound() && Placed(g, t, exit, scope, n) && g.Extends(done) && done.Fits(exit)
      requires ArmsBuilt(done, arms, lowered, exit, scope, n, low) && DefaultBuilt(done, default, td, exit, scope)
      requires n <= low && Numbered(code, value, low, high) && Computes(code, value, e, scope)
      requires g.blocks[t].instrs == code && g.blocks[t].term == Cfg.Terminator.Match(value, lowered, td)
      ensures DeliversIn(g, t, L.Graph.Match(e, arms, default), exit, scope)
    {
      ArmsBuiltKept(done, g, arms, lowered, exit, scope, n, low, low);
      DefaultKept(done, g, default, td, exit, scope);
      MatchDelivers(g, t, code, value, e, arms, lowered, default, td, exit, scope, n, low, high);
    }

    lemma ArmsBuiltKept(before: Built, g: Built, arms: seq<L.Arm>, lowered: seq<Cfg.MatchArm>, exit: Exit,
        scope: Scope, n: ValueId, high: ValueId, higher: ValueId)
      requires before.Sound() && g.Sound() && g.Extends(before) && before.Fits(exit) && g.Fits(exit) && high <= higher
      requires ArmsBuilt(before, arms, lowered, exit, scope, n, high)
      ensures ArmsBuilt(g, arms, lowered, exit, scope, n, higher)
    {
      forall i: nat | i < |arms| ensures ArmBuilt(g, arms[i], lowered[i], exit, scope, n, higher) {
        assert ArmBuilt(before, arms[i], lowered[i], exit, scope, n, high);
        ArmBuiltKept(before, g, arms[i], lowered[i], exit, scope, n, high, higher);
      }
    }

    lemma ArmBuiltKept(before: Built, g: Built, arm: L.Arm, lowered: Cfg.MatchArm, exit: Exit, scope: Scope,
        n: ValueId, high: ValueId, higher: ValueId)
      requires before.Sound() && g.Sound() && g.Extends(before) && before.Fits(exit) && g.Fits(exit) && high <= higher
      requires ArmBuilt(before, arm, lowered, exit, scope, n, high)
      ensures ArmBuilt(g, arm, lowered, exit, scope, n, higher)
    {
      assert g.blocks[lowered.target] == before.blocks[lowered.target];
      var inner := ArmScope(scope, arm.binders, lowered.binders, |arm.binders|);
      DeliversInKept(before, g, g.blocks[lowered.target].term.target, arm.body, exit, inner);
    }

    lemma DefaultKept(before: Built, g: Built, default: Option<L.Graph>, t: BlockId, exit: Exit, scope: Scope)
      requires before.Sound() && g.Sound() && g.Extends(before) && before.Fits(exit) && g.Fits(exit)
      requires DefaultBuilt(before, default, t, exit, scope)
      ensures DefaultBuilt(g, default, t, exit, scope)
    {
      match default
      case Some(other) => DeliversInKept(before, g, t, other, exit, scope);
      case None =>
        assert before.blocks[..t + 1] == g.blocks[..t + 1];
        NeededKept(before.blocks, g.blocks, t);
        OwedKept(before, g, exit);
        forall w: World, s: State
          ensures RunBlock(w, g.blocks, t, s) == Hand(w, g, exit, Outcome(Cfg.Unit, s.trace), s.store)
        {
          RunKept(w, before.blocks, g.blocks, t, s);
          HandKept(w, before, g, exit, Outcome(Cfg.Unit, s.trace), s.store);
        }
    }

    lemma ArmsBelow(g: Built, arms: seq<L.Arm>, lowered: seq<Cfg.MatchArm>, exit: Exit, scope: Scope, n: ValueId,
        high: ValueId, higher: ValueId)
      requires g.Sound() && g.Fits(exit) && ArmsBuilt(g, arms, lowered, exit, scope, n, high) && high <= higher
      ensures forall k: nat {:trigger ArmBelow(lowered[k], higher)} :: k < |lowered| ==> ArmBelow(lowered[k], higher)
      ensures forall k: nat {:trigger lowered[k]} :: k < |lowered| ==> lowered[k].target < |g.blocks|
    {
      forall k: nat | k < |lowered| ensures ArmBelow(lowered[k], higher) && lowered[k].target < |g.blocks| {
        assert ArmBuilt(g, arms[k], lowered[k], exit, scope, n, high);
      }
    }

    /** Without a default, a block that leaves unit. */
    method LowerDefault(default: Option<NodeId>, id: NodeId, exit: Exit, scope: Scope) returns (t: BlockId)
      requires Valid() && Structured(id) && Graph().Fits(exit) && scope.Below(nextValue)
      requires linear[id].Match? && linear[id].default == default
      modifies this
      ensures Valid() && Graph().Extends(old(Graph())) && old(nextValue) <= nextValue && Graph().Fits(exit)
        && pending == old(pending)
      ensures Under(default, id) && DefaultBuilt(Graph(), DecodeOption(linear, default, id), t, exit, scope)
      decreases id, 0, 0
    {
      assert linear[id].Above(id);
      ChildrenStructured(id);
      match default {
        case Some(other) => t := LowerStmt(other, exit, scope);
        case None =>
          t := PushUnit([], exit, scope);
      }
    }

    method LowerArms(id: NodeId, exit: Exit, scope: Scope) returns (lowered: seq<Cfg.MatchArm>)
      requires Valid() && Structured(id) && Graph().Fits(exit) && scope.Below(nextValue) && linear[id].Match?
      modifies this
      ensures Valid() && Graph().Extends(old(Graph())) && old(nextValue) <= nextValue && Graph().Fits(exit)
        && pending == old(pending)
      ensures ArmsBuilt(Graph(), Decode(linear, id).arms, lowered, exit, scope, old(nextValue), nextValue)
      decreases id, 0, 1
    {
      var arms := linear[id].arms;
      assert linear[id].Above(id);
      ChildrenStructured(id);
      ghost var decoded := Decode(linear, id).arms;
      ghost var start := Graph();
      var n := nextValue;
      lowered := [];
      for i := 0 to |arms|
        invariant Valid() && Graph().Extends(start) && n <= nextValue && Graph().Fits(exit)
        invariant pending == old(pending)
        invariant ArmsBuilt(Graph(), decoded[..i], lowered, exit, scope, n, nextValue)
      {
        var high := nextValue;
        ghost var before := Graph();
        scope.BelowMore(n, high);
        var arm := LowerArm(arms[i], id, exit, scope);
        ArmsGrow(before, Graph(), decoded, i, lowered, arm, exit, scope, n, high, nextValue);
        lowered := lowered + [arm];
      }
      assert decoded[..|arms|] == decoded;
    }

    lemma ArmsGrow(before: Built, g: Built, decoded: seq<L.Arm>, i: nat, lowered: seq<Cfg.MatchArm>,
        arm: Cfg.MatchArm, exit: Exit, scope: Scope, n: ValueId, mid: ValueId, high: ValueId)
      requires i < |decoded| && before.Sound() && g.Sound() && g.Extends(before) && before.Fits(exit) && g.Fits(exit)
      requires n <= mid <= high && ArmsBuilt(before, decoded[..i], lowered, exit, scope, n, mid)
      requires ArmBuilt(g, decoded[i], arm, exit, scope, mid, high)
      ensures ArmsBuilt(g, decoded[..i + 1], lowered + [arm], exit, scope, n, high)
    {
      ArmsBuiltKept(before, g, decoded[..i], lowered, exit, scope, n, mid, high);
      ArmsAppend(g, decoded[..i], lowered, decoded[i], arm, exit, scope, n, mid, high);
      assert decoded[..i + 1] == decoded[..i] + [decoded[i]];
    }

    lemma ArmsAppend(g: Built, arms: seq<L.Arm>, lowered: seq<Cfg.MatchArm>, arm: L.Arm, last: Cfg.MatchArm,
        exit: Exit, scope: Scope, n: ValueId, mid: ValueId, high: ValueId)
      requires g.Sound() && g.Fits(exit) && ArmsBuilt(g, arms, lowered, exit, scope, n, high) && n <= mid
        && ArmBuilt(g, arm, last, exit, scope, mid, high)
      ensures ArmsBuilt(g, arms + [arm], lowered + [last], exit, scope, n, high)
    {
      forall i: nat | i < |arms| + 1
        ensures ArmBuilt(g, (arms + [arm])[i], (lowered + [last])[i], exit, scope, n, high)
      {
        if i < |arms| { assert ArmBuilt(g, arms[i], lowered[i], exit, scope, n, high); }
      }
    }

    /** The arm's block has the arm's own binders as parameters: a match fills them in by name. */
    method LowerArm(arm: NodeArm, id: NodeId, exit: Exit, scope: Scope) returns (lowered: Cfg.MatchArm)
      requires Valid() && Structured(id) && Graph().Fits(exit) && scope.Below(nextValue) && arm.body < id
        && Structured(arm.body)
      modifies this
      ensures Valid() && Graph().Extends(old(Graph())) && old(nextValue) <= nextValue && Graph().Fits(exit)
        && pending == old(pending)
      ensures ArmBuilt(Graph(), L.Arm(arm.tag, arm.binders, Decode(linear, arm.body)), lowered, exit, scope,
        old(nextValue), nextValue)
      decreases id, 0, 0
    {
      var n := nextValue;
      var values, inner := BindArm(arm.binders, scope);
      var target := LowerStmt(arm.body, exit, inner);
      ghost var between := Graph();
      var wrapper := PushContinuation(values, target);
      DeliversInKept(between, Graph(), target, Decode(linear, arm.body), exit, inner);
      lowered := Cfg.MatchArm(arm.tag, values, wrapper);
    }

    method BindArm(binders: seq<VarId>, scope: Scope) returns (values: seq<ValueId>, inner: Scope)
      requires Valid() && scope.Below(nextValue)
      modifies this`nextValue
      ensures Valid() && old(nextValue) <= nextValue && |values| == |binders|
        && FreshValues(values, old(nextValue), nextValue)
      ensures inner == ArmScope(scope, binders, values, |binders|) && inner.Below(nextValue)
    {
      values, inner := [], scope;
      var n := nextValue;
      for i := 0 to |binders|
        invariant Valid() && n <= nextValue && |values| == i && FreshValues(values, n, nextValue)
        invariant inner == ArmScope(scope, binders, values, i) && inner.Below(nextValue)
      {
        var before := nextValue;
        var v := PushValue();
        ArmScopeKept(scope, binders, values, v, i);
        inner.BelowMore(before, nextValue);
        values, inner := values + [v], inner.Bind(binders[i], v);
      }
    }

    lemma {:induction false} ArmScopeKept(scope: Scope, binders: seq<VarId>, values: seq<ValueId>, more: ValueId,
        k: nat)
      requires k <= |binders| && k <= |values|
      ensures ArmScope(scope, binders, values + [more], k) == ArmScope(scope, binders, values, k)
      decreases k
    {
      if k > 0 { ArmScopeKept(scope, binders, values, more, k - 1); }
    }

    // -------------------------------------------------------------- functions

    /** A function's own memo starts empty; its entry only goes on to its body. */
    method LowerFunction(params: seq<VarId>, body: NodeId) returns (function_: Cfg.Function)
      requires Valid() && Structured(body)
      modifies this
      ensures Valid() && Graph().Extends(old(Graph())) && old(nextValue) <= nextValue && pending == old(pending)
      ensures |old(blocks)| <= function_.entry < |blocks|
        && Implements(Graph(), function_, params, Decode(linear, body))
        && Closed(Graph(), function_)
    {
      statements := map[];
      var n := nextValue;
      var values, scope := BindArm(params, Empty);
      var t := LowerStmt(body, Exit.Return, scope);
      ghost var between := Graph();
      var entry := PushContinuation(values, t);
      DeliversInKept(between, Graph(), t, Decode(linear, body), Exit.Return, scope);
      function_ := Cfg.Function(values, entry);
      EntryImplements(Graph(), function_, params, Decode(linear, body), t, n, nextValue);
      DeliversNested(Graph(), t, Decode(linear, body), Exit.Return, scope);
      JumpNests(Graph(), entry, t, Exit.Return);
    }
  }

  /** Called with as many arguments as it has parameters, the lowered function returns what the
      source function's body does, having shown the world the same. */
  ghost predicate Implements(g: Built, f: Cfg.Function, params: seq<VarId>, body: L.Graph)
    requires g.Sound() && f.entry < |g.blocks|
  {
    |f.params| == |params| &&
    (L.GraphReads(body) <= Names(params) ==>
      forall w: World, args: seq<Value>, t: Trace {:trigger FromEntry(w, g, f, args, t)} :: |args| == |params| ==>
        FromEntry(w, g, f, args, t) == L.Run(w, body, BindAll(map[], params, args, |params|), map[], t))
  }

  /** Every way through the function closes the scopes it opens, innermost first, and no others. */
  ghost predicate Closed(g: Built, f: Cfg.Function)
    requires g.Sound() && f.entry < |g.blocks|
  {
    Needed(g.blocks, f.entry) == Cfg.Some([])
  }

  /** Two ways from the entry to a block leave the same scopes open there. */
  lemma OneStackPerBlock(g: Built, f: Cfg.Function, one: seq<BlockId>, other: seq<BlockId>)
    requires g.Sound() && f.entry < |g.blocks| && Closed(g, f)
    requires Way(g.blocks, one) && Way(g.blocks, other) && one[0] == other[0] == f.entry
      && one[|one| - 1] == other[|other| - 1]
    ensures Spelled(g.blocks, one, |one| - 1).Some?
      && Spelled(g.blocks, one, |one| - 1) == Spelled(g.blocks, other, |other| - 1)
  {
    ScopesNest(g.blocks, one, |one| - 1);
    ScopesNest(g.blocks, other, |other| - 1);
  }

  ghost function FromEntry(w: World, g: Built, f: Cfg.Function, args: seq<Value>, t: Trace): Outcome
    requires g.Sound() && f.entry < |g.blocks| && |args| == |f.params|
  {
    RunBlock(w, g.blocks, f.entry, State(BindAll(map[], f.params, args, |args|), t))
  }

  lemma EntryImplements(g: Built, f: Cfg.Function, params: seq<VarId>, body: L.Graph, t: BlockId, n: ValueId,
      high: ValueId)
    requires g.Sound() && |f.params| == |params| && FreshValues(f.params, n, high)
    requires f.entry < |g.blocks| && g.blocks[f.entry] == Cfg.Block(f.params, [], Cfg.Goto(t, []))
    requires DeliversIn(g, t, body, Exit.Return, ArmScope(Empty, params, f.params, |params|))
    ensures Implements(g, f, params, body)
  {
    if L.GraphReads(body) <= Names(params) {
      forall w: World, args: seq<Value>, u: Trace | |args| == |params|
        ensures FromEntry(w, g, f, args, u) == L.Run(w, body, BindAll(map[], params, args, |params|), map[], u)
      {
        var start := State(BindAll(map[], f.params, args, |args|), u);
        assert params[..|params|] == params;
        ArmMatches(map[], map[], L.GraphReads(body), Empty, n, params, f.params, high, args, |params|);
        NoArguments(g.blocks[t].params, start.store);
        assert RunBlock(w, g.blocks, f.entry, start) == RunBlock(w, g.blocks, t, start);
        DeliversRun(w, g, t, body, Exit.Return, ArmScope(Empty, params, f.params, |params|),
          BindAll(map[], params, args, |params|), start);
      }
    }
  }

  datatype Source = Source(params: seq<VarId>, body: NodeId)

  /** The whole lowering: every function of the program implements its source. */
  method LowerProgram(nodes: Arena, sources: seq<Source>)
    returns (functions: seq<Cfg.Function>, blocks: seq<Cfg.Block>, ghost g: Built)
    requires Ordered(nodes) && forall f :: f in sources ==> f.body < |nodes| && L.Dispatchless(Decode(nodes, f.body))
    ensures g.Sound() && g.blocks == blocks && |functions| == |sources| && DefinedOnce(blocks)
    ensures forall i: nat {:trigger functions[i]} :: i < |functions| ==>
      functions[i].entry < |blocks| && Implements(g, functions[i], sources[i].params, Decode(nodes, sources[i].body))
        && Closed(g, functions[i])
  {
    var vars := FreeVars(nodes);
    var lowerer := new Lowerer(nodes, vars);
    functions := [];
    for i := 0 to |sources|
      invariant lowerer.Valid() && lowerer.linear == nodes && |functions| == i && fresh(lowerer)
      invariant forall k: nat {:trigger functions[k]} :: k < i ==>
        functions[k].entry < |lowerer.blocks|
          && Implements(lowerer.Graph(), functions[k], sources[k].params, Decode(nodes, sources[k].body))
        && Closed(lowerer.Graph(), functions[k])
    {
      ghost var before := lowerer.Graph();
      var f := lowerer.LowerFunction(sources[i].params, sources[i].body);
      forall k: nat | k < i
        ensures functions[k].entry < |lowerer.blocks|
          && Implements(lowerer.Graph(), functions[k], sources[k].params, Decode(nodes, sources[k].body))
        ensures Closed(lowerer.Graph(), functions[k])
      {
        ImplementsKept(before, lowerer.Graph(), functions[k], sources[k].params, Decode(nodes, sources[k].body));
      }
      functions := functions + [f];
    }
    blocks, g := lowerer.blocks, lowerer.Graph();
    WellNamedIs(blocks, lowerer.pending, lowerer.Issued());
  }

  lemma ImplementsKept(before: Built, g: Built, f: Cfg.Function, params: seq<VarId>, body: L.Graph)
    requires before.Sound() && g.Sound() && g.Extends(before) && f.entry < |before.blocks|
      && Implements(before, f, params, body) && Closed(before, f)
    ensures Implements(g, f, params, body) && Closed(g, f)
  {
    assert before.blocks[..f.entry + 1] == g.blocks[..f.entry + 1];
    NeededKept(before.blocks, g.blocks, f.entry);
    if L.GraphReads(body) <= Names(params) {
      forall w: World, args: seq<Value>, t: Trace | |args| == |params|
        ensures FromEntry(w, g, f, args, t) == L.Run(w, body, BindAll(map[], params, args, |params|), map[], t)
      {
        RunKept(w, before.blocks, g.blocks, f.entry, State(BindAll(map[], f.params, args, |args|), t));
        assert FromEntry(w, before, f, args, t) == FromEntry(w, g, f, args, t);
      }
    }
  }
}
