/** Handler, region and stage scopes in block-form code: what has to be open where a block starts for
    every way on from it to close just that. */
module Scopes {
  import opened Cfg
  import opened CfgRun
  import opened SingleDefinition

  datatype Mark = Handler(handler: nat, effect: nat) | Region(region: nat) | Stage(stage: nat)

  /** Open scopes, the innermost last. */
  type Stack = seq<Mark>

  function Opens(i: Instr): Option<Mark> {
    match i
    case HandlerEnter(handler, effect) => Some(Handler(handler, effect))
    case RegionEnter(region) => Some(Region(region))
    case StageEnter(stage) => Some(Stage(stage))
    case _ => None
  }

  function Closes(i: Instr): Option<Mark> {
    match i
    case HandlerExit(handler, effect) => Some(Handler(handler, effect))
    case RegionExit(region) => Some(Region(region))
    case StageExit(stage) => Some(Stage(stage))
    case _ => None
  }

  /** Onwards: an exit closes the innermost scope, and only that. */
  function Entered(i: Instr, s: Option<Stack>): Option<Stack> {
    if s.None? then None
    else if Opens(i).Some? then Some(s.value + [Opens(i).value])
    else if Closes(i).None? then s
    else if s.value != [] && s.value[|s.value| - 1] == Closes(i).value then Some(s.value[..|s.value| - 1])
    else None
  }

  function Through(code: seq<Instr>, s: Option<Stack>): Option<Stack> {
    if code == [] then s else Entered(code[|code| - 1], Through(code[..|code| - 1], s))
  }

  /** Backwards: what has to be open before, for `s` to be open after. */
  function Undone(i: Instr, s: Option<Stack>): Option<Stack> {
    if s.None? then None
    else if Closes(i).Some? then Some(s.value + [Closes(i).value])
    else if Opens(i).None? then s
    else if s.value != [] && s.value[|s.value| - 1] == Opens(i).value then Some(s.value[..|s.value| - 1])
    else None
  }

  function Before(code: seq<Instr>, s: Option<Stack>): Option<Stack> {
    if code == [] then s else Before(code[..|code| - 1], Undone(code[|code| - 1], s))
  }

  lemma {:induction false} BeforeThrough(code: seq<Instr>, s: Option<Stack>)
    requires Before(code, s).Some?
    ensures Through(code, Before(code, s)) == s
    decreases |code|
  {
    if code != [] {
      var last := code[|code| - 1];
      BeforeNone(code[..|code| - 1], Undone(last, s));
      BeforeThrough(code[..|code| - 1], Undone(last, s));
      UndoneEntered(last, s);
    }
  }

  lemma UndoneEntered(i: Instr, s: Option<Stack>)
    requires Undone(i, s).Some?
    ensures Entered(i, Undone(i, s)) == s
  {
    if Closes(i).Some? {
      assert (s.value + [Closes(i).value])[..|s.value|] == s.value;
    } else if Opens(i).Some? {
      assert s.value[..|s.value| - 1] + [Opens(i).value] == s.value;
    }
  }

  lemma {:induction false} BeforeNone(code: seq<Instr>, s: Option<Stack>)
    ensures s.None? ==> Before(code, s).None?
    decreases |code|
  {
    if code != [] { BeforeNone(code[..|code| - 1], Undone(code[|code| - 1], s)); }
  }

  // ---------------------------------------------------------------- blocks

  /** The scopes that have to be open where `b` starts, if every way on from it to a return closes
      the same ones, innermost first, and opens none it does not close. */
  ghost function Needed(blocks: seq<Block>, b: BlockId): Option<Stack>
    requires Descending(blocks) && b < |blocks|
    decreases b
  {
    assert Back(blocks[b], b);
    var successors := blocks[b].term.Successors();
    assert successors != [] ==> successors[0] in successors;
    var after := if successors == [] then Some([]) else Needed(blocks, successors[0]);
    if forall s :: s in successors ==> Needed(blocks, s) == after then Before(blocks[b].instrs, after) else None
  }

  lemma {:induction false} NeededKept(before: seq<Block>, after: seq<Block>, b: BlockId)
    requires Descending(before) && Descending(after) && b < |before| && b < |after| && before[..b + 1] == after[..b + 1]
    ensures Needed(before, b) == Needed(after, b)
    decreases b
  {
    assert Back(before[b], b) && before[..b + 1][b] == after[..b + 1][b];
    forall s | s in before[b].term.Successors() ensures Needed(before, s) == Needed(after, s) {
      assert before[..s + 1] == before[..b + 1][..s + 1] == after[..s + 1];
      NeededKept(before, after, s);
    }
    if before[b].term.Successors() != [] { assert before[b].term.Successors()[0] in before[b].term.Successors(); }
  }

  /** All a block goes on to needs the same. */
  lemma NeededAlike(blocks: seq<Block>, b: BlockId, after: Option<Stack>)
    requires Descending(blocks) && b < |blocks| && blocks[b].term.Successors() != []
    requires forall s {:trigger s in blocks[b].term.Successors()} :: s in blocks[b].term.Successors() ==>
      s < |blocks| && Needed(blocks, s) == after
    ensures Needed(blocks, b) == Before(blocks[b].instrs, after)
  {
    assert Back(blocks[b], b);
    assert blocks[b].term.Successors()[0] in blocks[b].term.Successors();
  }

  /** A block that only computes and jumps on needs what its target does. */
  lemma NeededByTarget(blocks: seq<Block>, b: BlockId, t: BlockId)
    requires Descending(blocks) && b < |blocks| && t < |blocks| && blocks[b].term.Successors() == [t]
      && Level(blocks[b].instrs)
    ensures Needed(blocks, b) == Needed(blocks, t)
  {
    NeededAlike(blocks, b, Needed(blocks, t));
    LevelBefore(blocks[b].instrs, Needed(blocks, t));
  }

  /** Code that opens and closes nothing. */
  predicate Level(code: seq<Instr>) { forall i :: i in code ==> Opens(i).None? && Closes(i).None? }

  lemma {:induction false} LevelBefore(code: seq<Instr>, s: Option<Stack>)
    requires Level(code)
    ensures Before(code, s) == s
    decreases |code|
  {
    if code != [] {
      assert code[|code| - 1] in code;
      LevelBefore(code[..|code| - 1], s);
    }
  }

  lemma {:induction false} BeforeJoin(a: seq<Instr>, b: seq<Instr>, s: Option<Stack>)
    ensures Before(a + b, s) == Before(a, Before(b, s))
    decreases |b|
  {
    if b == [] {
      assert a + b == a;
    } else {
      assert (a + b)[..|a + b| - 1] == a + b[..|b| - 1];
      BeforeJoin(a, b[..|b| - 1], Undone(b[|b| - 1], s));
    }
  }

  // ---------------------------------------------------------------- runs

  /** A way through the code, as the blocks it visits from `run[0]` on. */
  ghost predicate Way(blocks: seq<Block>, run: seq<BlockId>) {
    && run != [] && (forall k :: 0 <= k < |run| ==> run[k] < |blocks|)
    && forall k :: 0 <= k < |run| - 1 ==> run[k + 1] in blocks[run[k]].term.Successors()
  }

  /** What is open after the first `n` blocks of the way, when nothing was at its start. */
  ghost function Spelled(blocks: seq<Block>, run: seq<BlockId>, n: nat): Option<Stack>
    requires Way(blocks, run) && n <= |run|
  {
    if n == 0 then Some([]) else Through(blocks[run[n - 1]].instrs, Spelled(blocks, run, n - 1))
  }

  lemma OneOn(blocks: seq<Block>, b: BlockId, c: BlockId)
    requires Descending(blocks) && b < |blocks| && c < |blocks| && c in blocks[b].term.Successors()
      && Needed(blocks, b).Some?
    ensures Through(blocks[b].instrs, Needed(blocks, b)) == Needed(blocks, c) && Needed(blocks, c).Some?
  {
    assert Back(blocks[b], b);
    assert Needed(blocks, b) == Before(blocks[b].instrs, Needed(blocks, c));
    BeforeThrough(blocks[b].instrs, Needed(blocks, c));
    BeforeNone(blocks[b].instrs, Needed(blocks, c));
  }

  /** A block that is entered with what it needs closes only what is open. */
  lemma NeededThrough(blocks: seq<Block>, b: BlockId)
    requires Descending(blocks) && b < |blocks| && Needed(blocks, b).Some?
    ensures Through(blocks[b].instrs, Needed(blocks, b)).Some?
  {
    assert Back(blocks[b], b);
    var successors := blocks[b].term.Successors();
    assert successors != [] ==> successors[0] in successors;
    var after := if successors == [] then Some([]) else Needed(blocks, successors[0]);
    BeforeNone(blocks[b].instrs, after);
    BeforeThrough(blocks[b].instrs, after);
  }

  /** Where nothing needs to be open, scopes nest along every way: what is open when a block is come to
      is what the block needs, whichever way led there. */
  lemma {:induction false} ScopesNest(blocks: seq<Block>, run: seq<BlockId>, n: nat)
    requires Descending(blocks) && Way(blocks, run) && n < |run| && Needed(blocks, run[0]) == Some([])
    ensures Spelled(blocks, run, n).Some? && Spelled(blocks, run, n) == Needed(blocks, run[n])
    decreases n
  {
    if n > 0 {
      ScopesNest(blocks, run, n - 1);
      assert run[n - 1 + 1] in blocks[run[n - 1]].term.Successors();
      OneOn(blocks, run[n - 1], run[n]);
    }
  }

  /** And a way that returns has closed all it opened. */
  lemma ReturnsBalanced(blocks: seq<Block>, run: seq<BlockId>)
    requires Descending(blocks) && Way(blocks, run) && Needed(blocks, run[0]) == Some([])
    requires blocks[run[|run| - 1]].term.Return?
    ensures Spelled(blocks, run, |run|) == Some([])
  {
    var b := run[|run| - 1];
    ScopesNest(blocks, run, |run| - 1);
    assert Back(blocks[b], b);
    BeforeThrough(blocks[b].instrs, Some([]));
  }

  // ---------------------------------------------------------------- whose scope it is

  /** The name a scope goes by. */
  function IdOf(m: Mark): Option<Name> {
    match m
    case Handler(handler, _) => Some(HandlerName(handler))
    case Region(region) => Some(RegionName(region))
    case Stage(_) => None
  }

  /** A scope that is open somewhere along a way was opened further up that way. */
  ghost predicate OpenedOn(blocks: seq<Block>, run: seq<BlockId>, n: nat, m: Mark)
    requires Way(blocks, run)
  {
    exists j: nat :: j < n && j < |run| && OpensIn(blocks[run[j]].instrs, m)
  }

  ghost predicate OpensIn(code: seq<Instr>, m: Mark) { exists k: nat :: k < |code| && Opens(code[k]) == Some(m) }

  lemma {:induction false} ThroughOpened(code: seq<Instr>, s: Option<Stack>, m: Mark)
    requires Through(code, s).Some? && m in Through(code, s).value
    ensures s.Some? && (m in s.value || OpensIn(code, m))
  {
    if code != [] {
      var n := |code| - 1;
      if Opens(code[n]) != Some(m) {
        ThroughOpened(code[..n], s, m);
        if m !in s.value {
          var k: nat :| k < n && Opens(code[..n][k]) == Some(m);
          assert code[k] == code[..n][k];
        }
      } else {
        ThroughSome(code, s);
      }
    }
  }

  lemma {:induction false} ThroughSome(code: seq<Instr>, s: Option<Stack>)
    requires Through(code, s).Some?
    ensures s.Some?
  {
    if code != [] { ThroughSome(code[..|code| - 1], s); }
  }

  lemma {:induction false} OpenWasOpened(blocks: seq<Block>, run: seq<BlockId>, n: nat, m: Mark)
    requires Way(blocks, run) && n <= |run| && Spelled(blocks, run, n).Some? && m in Spelled(blocks, run, n).value
    ensures OpenedOn(blocks, run, n, m)
  {
    var code, before := blocks[run[n - 1]].instrs, Spelled(blocks, run, n - 1);
    assert m in Through(code, before).value;
    ThroughOpened(code, before, m);
    if m in before.value { OpenWasOpened(blocks, run, n - 1, m); }
  }

  /** What an exit closes is open there. */
  lemma {:induction false} ExitIsOpen(code: seq<Instr>, s: Option<Stack>, k: nat)
    requires k < |code| && Through(code, s).Some? && Closes(code[k]).Some?
    ensures Through(code[..k], s).Some? && Closes(code[k]).value in Through(code[..k], s).value
  {
    var n := |code| - 1;
    if k < n {
      ExitIsOpen(code[..n], s, k);
      assert code[..n][..k] == code[..k] && code[..n][k] == code[k];
    }
  }

  /** By its block `n` the way has been through the one place that opens `id`, which opens `m`. */
  ghost predicate CameThrough(blocks: seq<Block>, run: seq<BlockId>, n: nat, id: Name, m: Mark)
    requires Way(blocks, run)
  {
    exists j: nat, l: nat {:trigger OnlyDefinedAt(blocks, run[j], l, id)} ::
      j <= n && j < |run| && OnlyDefinedAt(blocks, run[j], l, id) && Opens(blocks[run[j]].instrs[l]) == Some(m)
  }

  lemma OpeningFound(blocks: seq<Block>, run: seq<BlockId>, n: nat, j: nat, id: Name, m: Mark)
    requires Way(blocks, run) && DefinedOnce(blocks) && j <= n && j < |run| && OpensIn(blocks[run[j]].instrs, m)
    requires IdOf(m) == Some(id)
    ensures CameThrough(blocks, run, n, id, m)
  {
    var l: nat :| l < |blocks[run[j]].instrs| && Opens(blocks[run[j]].instrs[l]) == Some(m);
    assert DefinesAt(blocks, run[j], l, id);
    assert OnlyDefinedAt(blocks, run[j], l, id);
  }

  /** An exit met along a way closes what the one place opening it opened, and the way has been
      through that place. */
  lemma ExitHasItsEnter(blocks: seq<Block>, run: seq<BlockId>, n: nat, k: nat, id: Name)
    requires Descending(blocks) && Way(blocks, run) && n < |run| && Needed(blocks, run[0]) == Some([])
    requires DefinedOnce(blocks) && k < |blocks[run[n]].instrs|
    requires Closes(blocks[run[n]].instrs[k]).Some? && IdOf(Closes(blocks[run[n]].instrs[k]).value) == Some(id)
    ensures CameThrough(blocks, run, n, id, Closes(blocks[run[n]].instrs[k]).value)
  {
    var code, m, s := blocks[run[n]].instrs, Closes(blocks[run[n]].instrs[k]).value, Spelled(blocks, run, n);
    ScopesNest(blocks, run, n);
    NeededThrough(blocks, run[n]);
    ExitIsOpen(code, s, k);
    ThroughOpened(code[..k], s, m);
    if m in s.value {
      OpenWasOpened(blocks, run, n, m);
      var j: nat :| j < n && OpensIn(blocks[run[j]].instrs, m);
      OpeningFound(blocks, run, n, j, id, m);
    } else {
      var l: nat :| l < k && Opens(code[..k][l]) == Some(m);
      assert code[l] == code[..k][l];
      OpeningFound(blocks, run, n, n, id, m);
    }
  }
}
