/** The arena linear statements are pushed into, and the graph a statement of it stands for. */
module LinearArena {
  import Cfg
  import opened Core
  import L = Linear

  type NodeId = nat

  datatype Node =
    | Return(value: Expr)
    | Let(binding: VarId, bound: Expr, next: NodeId)
    | Val(binding: VarId, graph: NodeId, next: NodeId)
    | Call(result: VarId, callee: nat, args: seq<Expr>, next: NodeId)
    | If(cond: Expr, thenBranch: NodeId, elseBranch: NodeId)
    | Perform(answer: Option<VarId>, effect: nat, operation: nat, args: seq<Expr>, next: NodeId)
    | Match(scrutinee: Expr, arms: seq<NodeArm>, default: Option<NodeId>)
    | Handle(handled: nat, body: NodeId, after: Option<NodeId>)
    | Stage(stage: nat, body: NodeId, after: Option<NodeId>)
    | Resumption(id: L.ResumptionId, clause: NodeId, param: VarId, continuation: NodeId)
    | ResumeJump(target: L.ResumptionId, site: nat, arg: Expr, result: VarId, next: NodeId)
    | Error
  {
    /** A statement is pushed after everything it refers to. */
    predicate Above(id: NodeId) {
      match this
      case Return(_) => true
      case Let(_, _, next) => next < id
      case Val(_, graph, next) => graph < id && next < id
      case Call(_, _, _, next) => next < id
      case If(_, x, y) => x < id && y < id
      case Perform(_, _, _, _, next) => next < id
      case Match(_, arms, default) => (forall arm :: arm in arms ==> arm.body < id) && Under(default, id)
      case Handle(_, body, after) => body < id && Under(after, id)
      case Stage(_, body, after) => body < id && Under(after, id)
      case Resumption(_, clause, _, continuation) => clause < id && continuation < id
      case ResumeJump(_, _, _, _, next) => next < id
      case Error => true
    }
  }

  datatype NodeArm = NodeArm(tag: nat, binders: seq<VarId>, body: NodeId)

  predicate Under(next: Option<NodeId>, id: NodeId) { next.Some? ==> next.value < id }

  type Arena = seq<Node>

  ghost predicate Ordered(nodes: Arena) {
    forall id: NodeId {:trigger nodes[id].Above(id)} :: id < |nodes| ==> nodes[id].Above(id)
  }

  ghost function Decode(nodes: Arena, id: NodeId): L.Graph
    requires Ordered(nodes) && id < |nodes|
    decreases id
  {
    assert nodes[id].Above(id);
    match nodes[id]
    case Return(e) => L.Graph.Return(e)
    case Let(b, e, next) => L.Graph.Let(b, e, Decode(nodes, next))
    case Val(b, graph, next) => L.Graph.Val(b, Decode(nodes, graph), Decode(nodes, next))
    case Call(r, callee, args, next) => L.Graph.Call(r, callee, args, Decode(nodes, next))
    case If(c, x, y) => L.Graph.If(c, Decode(nodes, x), Decode(nodes, y))
    case Perform(r, effect, operation, args, next) => L.Graph.Perform(r, effect, operation, args, Decode(nodes, next))
    case Match(scrutinee, arms, default) =>
      L.Graph.Match(scrutinee,
        seq(|arms|, i requires 0 <= i < |arms| => L.Arm(arms[i].tag, arms[i].binders, Decode(nodes, arms[i].body))),
        DecodeOption(nodes, default, id))
    case Handle(effect, body, after) => L.Graph.Handle(effect, Decode(nodes, body), DecodeOption(nodes, after, id))
    case Stage(stage, body, after) => L.Graph.Stage(stage, Decode(nodes, body), DecodeOption(nodes, after, id))
    case Resumption(r, clause, p, continuation) =>
      L.Graph.Resumption(r, Decode(nodes, clause), p, Decode(nodes, continuation))
    case ResumeJump(target, site, arg, r, next) => L.Graph.ResumeJump(target, site, arg, r, Decode(nodes, next))
    case Error => L.Graph.Error
  }

  ghost function DecodeOption(nodes: Arena, next: Option<NodeId>, id: NodeId): Option<L.Graph>
    requires Ordered(nodes) && id < |nodes| && Under(next, id)
    decreases id, 0
  {
    match next
    case None => Cfg.None
    case Some(n) => Cfg.Some(Decode(nodes, n))
  }

  predicate ArmsWithin(arms: seq<NodeArm>, n: nat) { forall arm :: arm in arms ==> arm.body < n }

  ghost function DecodeArms(nodes: Arena, arms: seq<NodeArm>): seq<L.Arm>
    requires Ordered(nodes) && ArmsWithin(arms, |nodes|)
  {
    seq(|arms|, i requires 0 <= i < |arms| => L.Arm(arms[i].tag, arms[i].binders, Decode(nodes, arms[i].body)))
  }

  lemma ArmsGrow(before: Arena, after: Arena, arms: seq<NodeArm>)
    requires Ordered(before) && Ordered(after) && before <= after && ArmsWithin(arms, |before|)
    ensures DecodeArms(before, arms) == DecodeArms(after, arms)
  {
    forall i | 0 <= i < |arms| ensures Decode(before, arms[i].body) == Decode(after, arms[i].body) {
      DecodeGrows(before, after, arms[i].body);
    }
  }

  lemma ArmsMore(nodes: Arena, arms: seq<NodeArm>, arm: NodeArm)
    requires Ordered(nodes) && ArmsWithin(arms, |nodes|) && arm.body < |nodes|
    ensures DecodeArms(nodes, arms + [arm])
      == DecodeArms(nodes, arms) + [L.Arm(arm.tag, arm.binders, Decode(nodes, arm.body))]
  {}

  /** Pushing changes nothing already there. */
  lemma {:induction false} DecodeGrows(before: Arena, after: Arena, id: NodeId)
    requires Ordered(before) && Ordered(after) && before <= after && id < |before|
    ensures Decode(before, id) == Decode(after, id)
    decreases id
  {
    assert before[id].Above(id) && after[id] == before[id];
    match before[id]
    case Let(_, _, next) => DecodeGrows(before, after, next);
    case Val(_, graph, next) => DecodeGrows(before, after, graph); DecodeGrows(before, after, next);
    case Call(_, _, _, next) => DecodeGrows(before, after, next);
    case If(_, x, y) => DecodeGrows(before, after, x); DecodeGrows(before, after, y);
    case Perform(_, _, _, _, next) => DecodeGrows(before, after, next);
    case Match(_, arms, default) =>
      forall i | 0 <= i < |arms| ensures Decode(before, arms[i].body) == Decode(after, arms[i].body) {
        DecodeGrows(before, after, arms[i].body);
      }
      if default.Some? { DecodeGrows(before, after, default.value); }
    case Handle(_, body, next) =>
      DecodeGrows(before, after, body); if next.Some? { DecodeGrows(before, after, next.value); }
    case Stage(_, body, next) =>
      DecodeGrows(before, after, body); if next.Some? { DecodeGrows(before, after, next.value); }
    case Resumption(_, clause, _, continuation) =>
      DecodeGrows(before, after, clause); DecodeGrows(before, after, continuation);
    case ResumeJump(_, _, _, _, next) => DecodeGrows(before, after, next);
    case _ =>
  }

  lemma PushOrdered(nodes: Arena, node: Node)
    requires Ordered(nodes) && node.Above(|nodes|)
    ensures Ordered(nodes + [node])
  {
    forall id: NodeId | id < |nodes| + 1 ensures (nodes + [node])[id].Above(id) {
      if id < |nodes| { assert nodes[id].Above(id); }
    }
  }
}
