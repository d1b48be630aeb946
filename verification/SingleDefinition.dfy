/** What code names: the values its instructions assign, and the handlers and regions it opens. Analyses that
    reason about the definition of a value rely on there being one. */
module SingleDefinition {
  import opened Cfg

  /** Stages are named by the source. */
  datatype Name = HandlerName(handler: nat) | RegionName(region: nat) | ValueName(value: ValueId)

  function Defines(i: Instr): Option<Name> {
    match i
    case Let(result, _) => Some(ValueName(result))
    case Eval(result, _) => Some(ValueName(result))
    case HandlerEnter(handler, _) => Some(HandlerName(handler))
    case RegionEnter(region) => Some(RegionName(region))
    case _ => None
  }

  /** Instruction `k` of block `b` defines the name. */
  predicate DefinesAt(blocks: seq<Block>, b: BlockId, k: nat, name: Name) {
    b < |blocks| && k < |blocks[b].instrs| && Defines(blocks[b].instrs[k]) == Some(name)
  }

  /** No two instructions define the same name. */
  ghost predicate DefinedOnce(blocks: seq<Block>) {
    forall b: BlockId, k: nat, c: BlockId, l: nat,
      name {:trigger DefinesAt(blocks, b, k, name), DefinesAt(blocks, c, l, name)} ::
      DefinesAt(blocks, b, k, name) && DefinesAt(blocks, c, l, name) ==> b == c && k == l
  }

  ghost predicate OnlyDefinedAt(blocks: seq<Block>, b: BlockId, k: nat, name: Name) {
    && DefinesAt(blocks, b, k, name)
    && forall c: BlockId, l: nat :: DefinesAt(blocks, c, l, name) ==> c == b && l == k
  }

  // ---------------------------------------------------------------- handing names out

  /** How many of each kind have been handed out. */
  datatype Drawn = Drawn(handlers: nat, regions: nat, values: nat) {
    predicate Has(name: Name) {
      match name
      case HandlerName(handler) => handler < handlers
      case RegionName(region) => region < regions
      case ValueName(value) => value < values
    }

    predicate UpTo(more: Drawn) { handlers <= more.handlers && regions <= more.regions && values <= more.values }
  }

  /** Every name handed out is defined at most once; those of `pending` have yet to be. */
  ghost predicate Named(blocks: seq<Block>, pending: set<Name>, drawn: Drawn) {
    && DefinedOnce(blocks)
    && (forall name :: name in pending ==> drawn.Has(name))
    && forall b: BlockId, k: nat, name {:trigger DefinesAt(blocks, b, k, name)} ::
         DefinesAt(blocks, b, k, name) ==> drawn.Has(name) && name !in pending
  }

  /** Folded away: `Named` is its definition. */
  ghost predicate WellNamed(blocks: seq<Block>, pending: set<Name>, drawn: Drawn) {
    forall n: nat {:trigger Folded((blocks, pending, drawn), n)} ::
      Folded((blocks, pending, drawn), n) ==> Named(blocks, pending, drawn)
  }

  lemma WellNamedIs(blocks: seq<Block>, pending: set<Name>, drawn: Drawn)
    ensures WellNamed(blocks, pending, drawn) <==> Named(blocks, pending, drawn)
  {
    assert Folded((blocks, pending, drawn), 0);
  }

  predicate DefinesNothing(code: seq<Instr>) { forall k :: 0 <= k < |code| ==> Defines(code[k]).None? }

  /** The code defines names handed out for it, each once, and none that a block defines already. */
  ghost predicate DefinesNew(blocks: seq<Block>, pending: set<Name>, drawn: Drawn, code: seq<Instr>) {
    && (forall k, name :: 0 <= k < |code| && Defines(code[k]) == Some(name) ==>
         drawn.Has(name) && name !in pending && forall b: BlockId, l: nat :: !DefinesAt(blocks, b, l, name))
    && forall k, l :: 0 <= k < l < |code| && Defines(code[k]).Some? ==> Defines(code[k]) != Defines(code[l])
  }

  /** Code that a block may be given. */
  ghost predicate MayPush(blocks: seq<Block>, pending: set<Name>, drawn: Drawn, code: seq<Instr>) {
    DefinesNothing(code) || DefinesNew(blocks, pending, drawn, code)
  }

  lemma PushNamed(blocks: seq<Block>, pending: set<Name>, drawn: Drawn, block: Block)
    requires WellNamed(blocks, pending, drawn) && MayPush(blocks, pending, drawn, block.instrs)
    ensures WellNamed(blocks + [block], pending, drawn)
  {
    WellNamedIs(blocks, pending, drawn);
    WellNamedIs(blocks + [block], pending, drawn);
    var more := blocks + [block];
    assert forall b: BlockId :: b < |blocks| ==> more[b] == blocks[b];
    forall b: BlockId, k: nat, name | DefinesAt(more, b, k, name)
      ensures b < |blocks| ==> DefinesAt(blocks, b, k, name)
    {
    }
  }

  lemma MoreNamed(blocks: seq<Block>, pending: set<Name>, drawn: Drawn, more: Drawn)
    requires WellNamed(blocks, pending, drawn) && drawn.UpTo(more)
    ensures WellNamed(blocks, pending, more)
  {
    WellNamedIs(blocks, pending, drawn);
    WellNamedIs(blocks, pending, more);
  }

  /** Names not handed out before may be kept for later. */
  lemma KeepNamed(blocks: seq<Block>, pending: set<Name>, drawn: Drawn, more: Drawn, names: set<Name>)
    requires WellNamed(blocks, pending, drawn) && drawn.UpTo(more)
    requires forall name :: name in names ==> !drawn.Has(name) && more.Has(name)
    ensures names !! pending && WellNamed(blocks, pending + names, more)
  {
    WellNamedIs(blocks, pending, drawn);
    WellNamedIs(blocks, pending + names, more);
  }

  /** Code that defines names kept for it, and values handed out since, may be pushed. */
  lemma CodeIsNew(blocks: seq<Block>, pending: set<Name>, drawn: Drawn, more: Drawn, names: set<Name>,
      code: seq<Instr>)
    requires WellNamed(blocks, pending, drawn) && drawn.UpTo(more) && names <= pending
    requires forall k, name :: 0 <= k < |code| && Defines(code[k]) == Some(name) ==>
      name in names || (!drawn.Has(name) && more.Has(name))
    requires forall k, l :: 0 <= k < l < |code| && Defines(code[k]).Some? ==> Defines(code[k]) != Defines(code[l])
    ensures WellNamed(blocks, pending - names, more) && MayPush(blocks, pending - names, more, code)
  {
    WellNamedIs(blocks, pending, drawn);
    WellNamedIs(blocks, pending - names, more);
  }

  // ---------------------------------------------------------------- temporaries

  /** The code only binds values, numbered in `[low, high)` and rising. */
  predicate Rising(code: seq<Instr>, low: ValueId, high: ValueId)
    decreases |code|
  {
    code == [] ||
    (var last := code[|code| - 1];
      last.Let? && low <= last.result < high && Rising(code[..|code| - 1], low, last.result))
  }

  lemma {:induction false} RisingJoin(a: seq<Instr>, b: seq<Instr>, low: ValueId, mid: ValueId, high: ValueId)
    requires Rising(a, low, mid) && Rising(b, mid, high) && low <= mid <= high
    ensures Rising(a + b, low, high)
    decreases |b|
  {
    if b == [] {
      assert a + b == a;
    } else {
      var last := b[|b| - 1];
      RisingJoin(a, b[..|b| - 1], low, mid, last.result);
      assert (a + b)[..|a + b| - 1] == a + b[..|b| - 1];
    }
  }

  lemma {:induction false} RisingAt(code: seq<Instr>, low: ValueId, high: ValueId)
    requires Rising(code, low, high)
    ensures forall k :: 0 <= k < |code| ==> code[k].Let? && low <= code[k].result < high
    ensures forall k, l :: 0 <= k < l < |code| ==> code[k].result < code[l].result
    decreases |code|
  {
    if code != [] { RisingAt(code[..|code| - 1], low, code[|code| - 1].result); }
  }

  /** Temporaries handed out since, and after them one value kept for it or none. */
  lemma TemporariesAreNew(blocks: seq<Block>, pending: set<Name>, drawn: Drawn, more: Drawn, code: seq<Instr>,
      last: seq<Instr>)
    requires WellNamed(blocks, pending, drawn) && drawn.UpTo(more) && Rising(code, drawn.values, more.values)
    requires last == [] || (|last| == 1 && last[0].Let? && ValueName(last[0].result) in pending)
    ensures var names := if last == [] then {} else {ValueName(last[0].result)};
      WellNamed(blocks, pending - names, more) && MayPush(blocks, pending - names, more, code + last)
  {
    var names := if last == [] then {} else {ValueName(last[0].result)};
    RisingAt(code, drawn.values, more.values);
    WellNamedIs(blocks, pending, drawn);
    CodeIsNew(blocks, pending, drawn, more, names, code + last);
  }

  /** A value made for what is dropped goes after the rest. */
  lemma IgnoredIsNew(blocks: seq<Block>, pending: set<Name>, drawn: Drawn, more: Drawn, code: seq<Instr>, value: Expr)
    requires WellNamed(blocks, pending, drawn) && MayPush(blocks, pending, drawn, code)
    requires more == drawn.(values := drawn.values + 1)
    ensures MayPush(blocks, pending, more, code + [Eval(drawn.values, value)])
  {
    WellNamedIs(blocks, pending, drawn);
    var all := code + [Eval(drawn.values, value)];
    assert forall k :: 0 <= k < |code| ==> all[k] == code[k];
    assert DefinesNew(blocks, pending, more, all);
  }

  // ---------------------------------------------------------------- the check

  /** The value, where it was assigned last, and where it is again. */
  datatype Reassigned = Reassigned(value: ValueId, before: (BlockId, nat), again: (BlockId, nat))

  predicate Earlier(place: (BlockId, nat), b: BlockId, k: nat) { place.0 < b || (place.0 == b && place.1 < k) }

  predicate Assigns(blocks: seq<Block>, place: (BlockId, nat), v: ValueId) {
    DefinesAt(blocks, place.0, place.1, ValueName(v))
  }

  /** Some instruction in front of `k` in block `b` assigns the value. */
  ghost predicate Assigned(blocks: seq<Block>, b: BlockId, k: nat, v: ValueId) {
    exists place :: Assigns(blocks, place, v) && Earlier(place, b, k)
  }

  /** Two different ones do. */
  ghost predicate Twice(blocks: seq<Block>, b: BlockId, k: nat, v: ValueId) {
    exists one, other ::
      Assigns(blocks, one, v) && Assigns(blocks, other, v) && Earlier(one, b, k) && Earlier(other, b, k) && one != other
  }

  ghost predicate Reports(errors: seq<Reassigned>, v: ValueId) { exists x :: x in errors && x.value == v }

  /** What the check knows in front of an instruction. */
  ghost predicate Checked(blocks: seq<Block>, b: BlockId, k: nat, places: map<ValueId, (BlockId, nat)>,
      errors: seq<Reassigned>) {
    && (forall v :: v in places ==> Assigns(blocks, places[v], v) && Earlier(places[v], b, k))
    && (forall v :: Assigned(blocks, b, k, v) ==> v in places)
    && (forall v :: Reports(errors, v) <==> Twice(blocks, b, k, v))
    && forall x :: x in errors ==>
         Assigns(blocks, x.before, x.value) && Assigns(blocks, x.again, x.value) && x.before != x.again
  }

  /** Reports the values that two instructions assign, those and no others, with two places that do. */
  method CheckSingleAssignment(blocks: seq<Block>) returns (errors: seq<Reassigned>)
    ensures forall v :: Reports(errors, v) <==> Twice(blocks, |blocks|, 0, v)
    ensures forall x :: x in errors ==>
      Assigns(blocks, x.before, x.value) && Assigns(blocks, x.again, x.value) && x.before != x.again
    ensures DefinedOnce(blocks) ==> errors == []
  {
    errors := [];
    var places: map<ValueId, (BlockId, nat)> := map[];
    for b := 0 to |blocks|
      invariant Checked(blocks, b, 0, places, errors)
    {
      var instrs := blocks[b].instrs;
      for k := 0 to |instrs|
        invariant Checked(blocks, b, k, places, errors)
      {
        var named := Defines(instrs[k]);
        if named.Some? && named.value.ValueName? {
          var v := named.value.value;
          ghost var before := errors;
          if v in places { errors := errors + [Reassigned(v, places[v], (b, k))]; }
          AssignChecked(blocks, b, k, places, before, errors, v);
          places := places[v := (b, k)];
        } else {
          OtherChecked(blocks, b, k, places, errors);
        }
      }
      BlockChecked(blocks, b, places, errors);
    }
    if errors != [] { assert errors[0] in errors; }
  }

  lemma AssignChecked(blocks: seq<Block>, b: BlockId, k: nat, places: map<ValueId, (BlockId, nat)>,
      before: seq<Reassigned>, errors: seq<Reassigned>, v: ValueId)
    requires Checked(blocks, b, k, places, before) && DefinesAt(blocks, b, k, ValueName(v))
    requires errors == if v in places then before + [Reassigned(v, places[v], (b, k))] else before
    ensures Checked(blocks, b, k + 1, places[v := (b, k)], errors)
  {
    var next := k + 1;
    forall u ensures Twice(blocks, b, next, u) <==> Twice(blocks, b, k, u) || (u == v && v in places) {
      TwiceOn(blocks, b, k, v, u);
      assert v in places ==> Assigns(blocks, places[v], v) && Earlier(places[v], b, k);
    }
    forall u ensures Reports(errors, u) <==> Reports(before, u) || (u == v && v in places) {
      if v in places { assert Reassigned(v, places[v], (b, k)) in errors; }
    }
    forall u ensures Assigned(blocks, b, next, u) ==> Assigned(blocks, b, k, u) || u == v {
      AssignedOn(blocks, b, k, v, u);
    }
  }

  lemma AssignedOn(blocks: seq<Block>, b: BlockId, k: nat, v: ValueId, u: ValueId)
    requires DefinesAt(blocks, b, k, ValueName(v))
    ensures Assigned(blocks, b, k + 1, u) <==> Assigned(blocks, b, k, u) || u == v
  {
    assert Assigns(blocks, (b, k), v) && Earlier((b, k), b, k + 1);
    if Assigned(blocks, b, k + 1, u) {
      var place :| Assigns(blocks, place, u) && Earlier(place, b, k + 1);
      if place != (b, k) { assert Earlier(place, b, k); }
    }
    if Assigned(blocks, b, k, u) {
      var place :| Assigns(blocks, place, u) && Earlier(place, b, k);
      assert Earlier(place, b, k + 1);
    }
  }

  lemma TwiceOn(blocks: seq<Block>, b: BlockId, k: nat, v: ValueId, u: ValueId)
    requires DefinesAt(blocks, b, k, ValueName(v))
    ensures Twice(blocks, b, k + 1, u) <==> Twice(blocks, b, k, u) || (u == v && Assigned(blocks, b, k, v))
  {
    assert Assigns(blocks, (b, k), v) && Earlier((b, k), b, k + 1);
    if Twice(blocks, b, k + 1, u) && !Twice(blocks, b, k, u) {
      var one, other :| Assigns(blocks, one, u) && Assigns(blocks, other, u) && Earlier(one, b, k + 1)
        && Earlier(other, b, k + 1) && one != other;
      if one == (b, k) { assert Earlier(other, b, k); } else { assert Earlier(one, b, k) && other == (b, k); }
    }
    if Twice(blocks, b, k, u) {
      var one, other :| Assigns(blocks, one, u) && Assigns(blocks, other, u) && Earlier(one, b, k)
        && Earlier(other, b, k) && one != other;
      assert Earlier(one, b, k + 1) && Earlier(other, b, k + 1);
    }
    if u == v && Assigned(blocks, b, k, v) {
      var place :| Assigns(blocks, place, v) && Earlier(place, b, k);
      assert Earlier(place, b, k + 1) && place != (b, k);
    }
  }

  lemma OtherChecked(blocks: seq<Block>, b: BlockId, k: nat, places: map<ValueId, (BlockId, nat)>,
      errors: seq<Reassigned>)
    requires Checked(blocks, b, k, places, errors) && b < |blocks| && k < |blocks[b].instrs|
    requires !(Defines(blocks[b].instrs[k]).Some? && Defines(blocks[b].instrs[k]).value.ValueName?)
    ensures Checked(blocks, b, k + 1, places, errors)
  {
    forall place, u | Assigns(blocks, place, u) ensures Earlier(place, b, k + 1) <==> Earlier(place, b, k) {}
    SameChecked(blocks, b, k, b, k + 1, places, errors);
  }

  lemma BlockChecked(blocks: seq<Block>, b: BlockId, places: map<ValueId, (BlockId, nat)>, errors: seq<Reassigned>)
    requires b < |blocks| && Checked(blocks, b, |blocks[b].instrs|, places, errors)
    ensures Checked(blocks, b + 1, 0, places, errors)
  {
    forall place, u | Assigns(blocks, place, u)
      ensures Earlier(place, b + 1, 0) <==> Earlier(place, b, |blocks[b].instrs|)
    {}
    SameChecked(blocks, b, |blocks[b].instrs|, b + 1, 0, places, errors);
  }

  lemma SameChecked(blocks: seq<Block>, b: BlockId, k: nat, c: BlockId, l: nat, places: map<ValueId, (BlockId, nat)>,
      errors: seq<Reassigned>)
    requires Checked(blocks, b, k, places, errors)
    requires forall place, u :: Assigns(blocks, place, u) ==> (Earlier(place, c, l) <==> Earlier(place, b, k))
    ensures Checked(blocks, c, l, places, errors)
  {
    forall u ensures Twice(blocks, c, l, u) <==> Twice(blocks, b, k, u) {}
    forall u ensures Assigned(blocks, c, l, u) <==> Assigned(blocks, b, k, u) {}
  }
}
