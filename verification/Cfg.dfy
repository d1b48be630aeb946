/** The block-form control-flow IR that the dominator, definedness, lowering and
    tail-call modules share. An identifier is an index into its arena. */
module Cfg {

  type BlockId = nat
  type ValueId = nat
  type FuncId = nat

  datatype Option<+T> = None | Some(value: T)

  /** A run-time value: a scalar, or a constructor with its variant tag. */
  datatype Val = Unit | Int(i: int) | Ctor(tag: nat, fields: seq<Val>)

  /** `Prim` stands for every operation that hands back an owned result: field
      projections, builtins, constructors and closures. */
  datatype Expr =
    | Value(value: ValueId)
    | Literal(lit: Val)
    | Unary(op: nat, operand: Expr)
    | Binary(op: nat, lhs: Expr, rhs: Expr)
    | Prim(op: nat, args: seq<Expr>)
    | PureCall(callee: FuncId, args: seq<Expr>)

  datatype Instr =
    | Let(result: ValueId, value: Expr)
    | Eval(result: ValueId, value: Expr)
    | HandlerEnter(handler: nat, effect: nat)
    | HandlerExit(handler: nat, effect: nat)
    | RegionEnter(region: nat)
    | RegionExit(region: nat)
    | StageEnter(stage: nat)
    | StageExit(stage: nat)
    | Hole
    | Error

  datatype MatchArm = MatchArm(tag: nat, binders: seq<ValueId>, target: BlockId)

  /** `GotoCall` is a jump whose one argument is itself a pure call. */
  datatype Terminator =
    | Return(value: Expr)
    | Goto(target: BlockId, args: seq<Expr>)
    | Branch(cond: Expr, thenTarget: BlockId, elseTarget: BlockId)
    | Match(scrutinee: Expr, arms: seq<MatchArm>, default: BlockId)
    | Switch(selector: Expr, targets: seq<BlockId>, default: BlockId)
    | Call(callee: FuncId, args: seq<Expr>, result: ValueId, target: BlockId)
    | Perform(effect: nat, operation: nat, args: seq<Expr>, binding: Option<ValueId>, target: BlockId)
    | GotoCall(target: BlockId, callee: FuncId, args: seq<Expr>)
    | Unreachable
  {
    /** One entry per outgoing edge, so a target two arms share appears twice. */
    function Successors(): seq<BlockId> {
      match this
      case Return(_) => []
      case Goto(target, _) => [target]
      case Branch(_, thenTarget, elseTarget) => [thenTarget, elseTarget]
      case Match(_, arms, default) => seq(|arms|, i requires 0 <= i < |arms| => arms[i].target) + [default]
      case Switch(_, targets, default) => targets + [default]
      case Call(_, _, _, target) => [target]
      case Perform(_, _, _, _, target) => [target]
      case GotoCall(target, _, _) => [target]
      case Unreachable => []
    }

    /** The expressions the terminator itself reads. */
    function Operands(): seq<Expr> {
      match this
      case Return(value) => [value]
      case Goto(_, args) => args
      case Branch(cond, _, _) => [cond]
      case Match(scrutinee, _, _) => [scrutinee]
      case Switch(selector, _, _) => [selector]
      case Call(_, args, _, _) => args
      case Perform(_, _, args, _, _) => args
      case GotoCall(_, _, args) => args
      case Unreachable => []
    }
  }

  datatype Block = Block(params: seq<ValueId>, instrs: seq<Instr>, term: Terminator)

  datatype Function = Function(params: seq<ValueId>, entry: BlockId)

  datatype Program = Program(functions: seq<Function>, blocks: seq<Block>)

  // ---------------------------------------------------------------- definitions kept folded

  /** True of every number. A predicate of `what` defined under a quantifier over this is the predicate inside,
      but a proof gets at that only by naming a number: the few lemmas that do are all that look inside, and
      every other proof is spared the definition. */
  ghost predicate Folded<T>(what: T, k: nat) { k >= 0 }
}
