/** The reference-counting runtime: retain, release, the worklist destructor and the ways to read
    or take a field. */
module Arc {
  import opened Heap

  /** References still held by the fields a destructor has not looked at yet. */
  function Pending(fields: seq<Value>, i: nat): multiset<Addr>
    requires i <= |fields|
    decreases |fields| - i
  {
    if i == |fields| then multiset{}
    else if fields[i].Ref? then multiset{fields[i].addr} + Pending(fields, i + 1)
    else Pending(fields, i + 1)
  }

  lemma {:induction false} PendingCount(fields: seq<Value>, i: nat, a: Addr)
    requires i <= |fields|
    ensures Pending(fields, i)[a] == FieldRefs(fields, i, a)
    decreases |fields| - i
  {
    if i < |fields| { PendingCount(fields, i + 1, a); }
  }

  function WithFields(cells: seq<Cell>, d: Addr, fields: seq<Value>): seq<Cell>
    requires d < |cells| && cells[d].Live?
  {
    cells[d := Live(cells[d].obj.(fields := fields))]
  }

  function Decremented(cells: seq<Cell>, v: Value): seq<Cell> {
    if v.Ref? && v.addr < |cells| && cells[v.addr].Live? && !cells[v.addr].obj.Pinned()
    then cells[v.addr := Live(cells[v.addr].obj.(refcount := cells[v.addr].obj.refcount - 1))]
    else cells
  }

  predicate IsLast(cells: seq<Cell>, v: Value) {
    v.Ref? && v.addr < |cells| && cells[v.addr].Live? && !cells[v.addr].obj.Pinned() && cells[v.addr].obj.refcount == 1
  }

  function Drop(dying: set<Addr>, cells: seq<Cell>, v: Value): set<Addr> {
    if IsLast(cells, v) then dying + {v.addr} else dying
  }

  /** A new object takes over the references its fields name. */
  lemma AllocateKeepsSound(cells: seq<Cell>, roots: multiset<Addr>, tag: Tag, fields: seq<Value>)
    requires Sound(cells, roots, {}) && (tag == Str ==> fields == [])
    requires forall k :: 0 <= k < |fields| ==> Refers(cells, fields[k])
    requires Pending(fields, 0) <= roots
    ensures Sound(cells + [Live(Obj(tag, 1, false, fields))], roots - Pending(fields, 0) + multiset{|cells|}, {})
  {
    var n, o := |cells|, Live(Obj(tag, 1, false, fields));
    var next, held := cells + [o], roots - Pending(fields, 0) + multiset{n};
    forall a | 0 <= a < |next| ensures SoundCell(next, a) && Counted(next, held, {}, a) {
      HeapRefsAppend(cells, o, n, a);
      PendingCount(fields, 0, a);
      if a < n {
        assert SoundCell(cells, a) && Counted(cells, roots, {}, a);
        forall k | next[a].Live? && 0 <= k < |next[a].obj.fields| ensures Refers(next, next[a].obj.fields[k]) {
          assert Refers(cells, cells[a].obj.fields[k]);
        }
      } else {
        NothingRefersToNew(cells, roots, fields);
      }
    }
    forall a | a in held ensures IsLive(next, a) {
      if a != n { assert a in roots; }
    }
  }

  lemma NothingRefersToNew(cells: seq<Cell>, roots: multiset<Addr>, fields: seq<Value>)
    requires Sound(cells, roots, {}) && forall k :: 0 <= k < |fields| ==> Refers(cells, fields[k])
    ensures roots[|cells|] == 0 && HeapRefs(cells, |cells|, |cells|) == 0 && FieldRefs(fields, 0, |cells|) == 0
  {
    HeapRefsMember(cells, |cells|, |cells|);
    FieldRefsMember(fields, 0, |cells|);
    forall b | 0 <= b < |cells| ensures !PointsTo(cells[b], |cells|) { assert SoundCell(cells, b); }
    assert |cells| in roots ==> IsLive(cells, |cells|);
  }

  // ---------------------------------------------------------------- the destructor's steps

  /** Detaching a dying object's fields turns them into references the destructor holds. */
  lemma DetachKeepsSound(cells: seq<Cell>, roots: multiset<Addr>, dying: set<Addr>, d: Addr)
    requires Sound(cells, roots, dying) && d in dying
    ensures Sound(WithFields(cells, d, []), roots + Pending(cells[d].obj.fields, 0), dying)
  {
    var fields, next := cells[d].obj.fields, WithFields(cells, d, []);
    var held := roots + Pending(fields, 0);
    assert SoundCell(cells, d);
    forall a | 0 <= a < |cells| ensures SoundCell(next, a) && Counted(next, held, dying, a) {
      assert SoundCell(cells, a) && Counted(cells, roots, dying, a);
      HeapRefsUpdate(cells, d, next[d], |cells|, a);
      PendingCount(fields, 0, a);
      forall k | next[a].Live? && 0 <= k < |next[a].obj.fields| ensures Refers(next, next[a].obj.fields[k]) {
        assert Refers(cells, cells[a].obj.fields[k]);
      }
    }
    forall a | a in held ensures IsLive(next, a) {
      PendingCount(fields, 0, a);
      FieldRefsMember(fields, 0, a);
      if a !in roots {
        var k :| 0 <= k < |fields| && fields[k].Ref? && fields[k].addr == a;
        assert Refers(cells, fields[k]);
      }
    }
  }

  /** Giving up one held reference; the object joins the dying if that was its last. */
  lemma DropKeepsSound(cells: seq<Cell>, held: multiset<Addr>, dying: set<Addr>, v: Value)
    requires v.Ref? && Sound(cells, held + multiset{v.addr}, dying)
    ensures v.addr !in dying && Sound(Decremented(cells, v), held, Drop(dying, cells, v))
  {
    var next, more := Decremented(cells, v), held + multiset{v.addr};
    assert v.addr in more;
    assert SoundCell(cells, v.addr) && Counted(cells, more, dying, v.addr);
    forall a | 0 <= a < |cells| ensures SoundCell(next, a) && Counted(next, held, Drop(dying, cells, v), a) {
      assert SoundCell(cells, a) && Counted(cells, more, dying, a);
      HeapRefsUpdate(cells, v.addr, next[v.addr], |cells|, a);
      forall k | next[a].Live? && 0 <= k < |next[a].obj.fields| ensures Refers(next, next[a].obj.fields[k]) {
        assert Refers(cells, cells[a].obj.fields[k]);
      }
    }
    forall a | a in held ensures IsLive(next, a) {
      assert a in more;
    }
  }

  /** Nothing refers to a dying object, so freeing it leaves no dangling reference. */
  lemma FreeKeepsSound(cells: seq<Cell>, held: multiset<Addr>, dying: set<Addr>, d: Addr)
    requires Sound(cells, held, dying) && d in dying && cells[d].obj.fields == []
    ensures Sound(cells[d := Freed], held, dying - {d}) && d !in held
  {
    var next := cells[d := Freed];
    assert Counted(cells, held, dying, d);
    HeapRefsMember(cells, |cells|, d);
    forall a | 0 <= a < |cells| ensures SoundCell(next, a) && Counted(next, held, dying - {d}, a) {
      assert SoundCell(cells, a) && Counted(cells, held, dying, a);
      HeapRefsUpdate(cells, d, Freed, |cells|, a);
      forall k | next[a].Live? && 0 <= k < |next[a].obj.fields| ensures Refers(next, next[a].obj.fields[k]) {
        assert Refers(cells, cells[a].obj.fields[k]);
        assert !PointsTo(cells[a], d);
      }
    }
  }

  // ---------------------------------------------------------------- what destruction may change

  /** As `Shrunk`, while objects are still dying. `bared` has lost its fields already. */
  ghost predicate Shrinking(before: seq<Cell>, cells: seq<Cell>, dying: set<Addr>, bared: set<Addr>) {
    && |cells| == |before|
    && forall a {:trigger ShrinkingAt(before, cells, dying, bared, a)} ::
         0 <= a < |before| ==> ShrinkingAt(before, cells, dying, bared, a)
  }

  ghost predicate ShrinkingAt(before: seq<Cell>, cells: seq<Cell>, dying: set<Addr>, bared: set<Addr>, a: Addr)
    requires a < |before| == |cells|
  {
    match before[a]
    case Freed => cells[a] == Freed && a !in dying
    case Live(o) =>
      if o.Pinned() then cells[a] == before[a] && a !in dying
      else if cells[a].Freed? then a !in dying
      else
        && cells[a].obj.(fields := o.fields) == o.(refcount := cells[a].obj.refcount)
        && (a !in bared ==> cells[a].obj.fields == o.fields)
        && cells[a].obj.refcount <= o.refcount
        && (a in dying <==> cells[a].obj.refcount == 0)
  }

  lemma StartsShrinking(before: seq<Cell>, held: multiset<Addr>, v: Value)
    requires Sound(before, held, {}) && v.Ref? && v.addr in held
    ensures Shrinking(before, Decremented(before, v), Drop({}, before, v), {})
  {
    var cells := Decremented(before, v);
    forall a: nat | a < |before| ensures ShrinkingAt(before, cells, Drop({}, before, v), {}, a) {}
  }

  lemma SettledIsShrunk(before: seq<Cell>, cells: seq<Cell>)
    requires Shrinking(before, cells, {}, {})
    ensures Shrunk(before, cells)
  {
    forall a: nat | a < |before| ensures ShrunkCell(before[a], cells[a]) {
      assert ShrinkingAt(before, cells, {}, {}, a);
    }
  }

  ghost function LiveSet(cells: seq<Cell>): set<Addr> {
    set a: Addr {:trigger IsLive(cells, a)} | 0 <= a < |cells| && IsLive(cells, a)
  }

  lemma SameLive(cells: seq<Cell>, cells': seq<Cell>, d: Addr)
    requires IsLive(cells, d) && cells' == WithFields(cells, d, [])
    ensures LiveSet(cells') == LiveSet(cells)
  {
    forall a: Addr ensures IsLive(cells', a) <==> IsLive(cells, a) {}
  }

  lemma FreeShrinks(cells: seq<Cell>, d: Addr)
    requires IsLive(cells, d)
    ensures LiveSet(cells[d := Freed]) < LiveSet(cells)
  {
    forall a: Addr ensures IsLive(cells[d := Freed], a) <==> IsLive(cells, a) && a != d {}
    assert d in LiveSet(cells) && d !in LiveSet(cells[d := Freed]);
  }

  /** The worklist holds each dying object once. */
  ghost predicate Queued(stack: seq<Value>, cells: seq<Cell>, dying: set<Addr>) {
    && (forall i :: 0 <= i < |stack| ==> stack[i].Ref? && Refers(cells, stack[i]) && stack[i].addr in dying)
    && (forall i, k :: 0 <= i < k < |stack| ==> stack[i].addr != stack[k].addr)
    && (forall a :: a in dying ==> exists i :: 0 <= i < |stack| && stack[i].addr == a)
  }

  lemma QueuePush(rest: seq<Value>, top: Value, v: Value, cells: seq<Cell>, dying: set<Addr>)
    requires v.Ref? && Refers(cells, v) && v.addr !in dying && Queued(rest + [top], cells, dying)
    ensures Queued(rest + [v] + [top], cells, dying + {v.addr})
  {
    var stack, next := rest + [top], rest + [v] + [top];
    assert forall i :: 0 <= i < |next| ==>
      next[i] == if i < |rest| then stack[i] else if i == |rest| then v else stack[|rest|];
    forall a | a in dying + {v.addr} ensures exists i :: 0 <= i < |next| && next[i].addr == a {
      if a != v.addr {
        var i :| 0 <= i < |stack| && stack[i].addr == a;
        assert next[if i < |rest| then i else i + 1].addr == a;
      } else {
        assert next[|rest|].addr == a;
      }
    }
  }

  lemma QueuePop(rest: seq<Value>, top: Value, cells: seq<Cell>, dying: set<Addr>)
    requires top.Ref? && top.addr < |cells| && Queued(rest + [top], cells, dying)
    ensures Queued(rest, cells[top.addr := Freed], dying - {top.addr})
  {
    var stack := rest + [top];
    assert stack[|rest|] == top;
    assert forall i :: 0 <= i < |rest| ==> stack[i] == rest[i];
    forall i | 0 <= i < |rest| ensures Refers(cells[top.addr := Freed], rest[i]) && rest[i].addr in dying - {top.addr} {
      assert stack[i] == rest[i];
    }
    forall a | a in dying - {top.addr} ensures exists i :: 0 <= i < |rest| && rest[i].addr == a {
      var i :| 0 <= i < |stack| && stack[i].addr == a;
      assert rest[i].addr == a;
    }
  }

  /** Queued objects stay queued while only counts and fields change. */
  lemma QueueStays(stack: seq<Value>, cells: seq<Cell>, cells': seq<Cell>, dying: set<Addr>)
    requires Queued(stack, cells, dying) && |cells'| == |cells|
    requires forall a :: 0 <= a < |cells| && cells[a].Live? ==> cells'[a].Live? && cells'[a].obj.tag == cells[a].obj.tag
    ensures Queued(stack, cells', dying)
  {}

  /** Detaching the fields of the object at hand, which is about to be freed. */
  lemma DetachKeepsShrinking(before: seq<Cell>, cells: seq<Cell>, dying: set<Addr>, d: Addr)
    requires Shrinking(before, cells, dying, {}) && d < |cells| && cells[d].Live? && d in dying
    ensures Shrinking(before, WithFields(cells, d, []), dying, {d})
  {
    forall a: nat | a < |before| ensures ShrinkingAt(before, WithFields(cells, d, []), dying, {d}, a) {
      assert ShrinkingAt(before, cells, dying, {}, a);
    }
  }

  lemma DropKeepsShrinking(before: seq<Cell>, cells: seq<Cell>, dying: set<Addr>, d: Addr, v: Value)
    requires Shrinking(before, cells, dying, {d}) && v.Ref? && v.addr !in dying
    ensures Shrinking(before, Decremented(cells, v), Drop(dying, cells, v), {d})
  {
    forall a: nat | a < |before| ensures ShrinkingAt(before, Decremented(cells, v), Drop(dying, cells, v), {d}, a) {
      assert ShrinkingAt(before, cells, dying, {d}, a);
    }
  }

  lemma FreeKeepsShrinking(before: seq<Cell>, cells: seq<Cell>, dying: set<Addr>, d: Addr)
    requires Shrinking(before, cells, dying, {d}) && d < |cells| && d in dying
    ensures Shrinking(before, cells[d := Freed], dying - {d}, {})
  {
    var freed := cells[d := Freed];
    forall a: nat | a < |before| ensures ShrinkingAt(before, freed, dying - {d}, {}, a) {
      assert ShrinkingAt(before, cells, dying, {d}, a);
    }
  }

  // ---------------------------------------------------------------- the runtime

  class Runtime {
    var cells: seq<Cell>

    /** The references the program itself holds, each counted. */
    ghost var roots: multiset<Addr>

    ghost predicate Valid()
      reads this
    {
      Sound(cells, roots, {})
    }

    constructor ()
      ensures Valid() && cells == [] && roots == multiset{}
    {
      cells, roots := [], multiset{};
    }

    method Retain(v: Value)
      requires Valid() && Refers(cells, v)
      modifies this
      ensures Valid() && cells == Retained(old(cells), v) && roots == AddRoot(old(roots), v)
    {
      RetainIsSound(cells, roots, {}, v);
      roots := AddRoot(roots, v);
      if !v.Ref? || cells[v.addr].obj.Pinned() { return; }
      cells := cells[v.addr := Live(cells[v.addr].obj.(refcount := cells[v.addr].obj.refcount + 1))];
    }

    method CtorField(v: Value, i: nat) returns (field: Value)
      requires Refers(cells, v)
      ensures field == if v.Ref? && v.tag == Ctor && i < |cells[v.addr].obj.fields|
                       then cells[v.addr].obj.fields[i] else Scalar(0)
    {
      if !v.Ref? || v.tag != Ctor || i >= |cells[v.addr].obj.fields| { return Scalar(0); }
      return cells[v.addr].obj.fields[i];
    }

    /** Reads a field and keeps a reference to it for the caller. */
    method FieldCopy(v: Value, i: nat) returns (field: Value)
      requires Valid() && Refers(cells, v)
      modifies this
      ensures Valid()
      ensures field == if v.Ref? && v.tag == Ctor && i < |old(cells)[v.addr].obj.fields|
                       then old(cells)[v.addr].obj.fields[i] else Scalar(0)
      ensures cells == Retained(old(cells), field) && roots == AddRoot(old(roots), field)
    {
      field := CtorField(v, i);
      FieldRefersToLive(v, i);
      Retain(field);
    }

    lemma FieldRefersToLive(v: Value, i: nat)
      requires Valid() && Refers(cells, v)
      ensures Refers(cells, FieldAt(cells, v, i))
    {
      if v.Ref? { assert SoundCell(cells, v.addr); }
    }

    /** Moves a field out of a constructor the caller is the sole owner of. */
    method TakeFieldUnique(v: Value, i: nat) returns (field: Value)
      requires Valid() && Refers(cells, v)
      requires v.Ref? && v.tag == Ctor && i < |cells[v.addr].obj.fields| ==> SoleOwner(cells, roots, v.addr, i)
      modifies this
      ensures Valid() && roots == AddRoot(old(roots), field)
      ensures field == if v.Ref? && v.tag == Ctor && i < |old(cells)[v.addr].obj.fields|
                       then old(cells)[v.addr].obj.fields[i] else Scalar(0)
      ensures cells == if v.Ref? && v.tag == Ctor && i < |old(cells)[v.addr].obj.fields|
                       then Cleared(old(cells), v.addr, i) else old(cells)
    {
      if !v.Ref? || v.tag != Ctor || i >= |cells[v.addr].obj.fields| { return Scalar(0); }
      field := cells[v.addr].obj.fields[i];
      ClearIsSound(cells, roots, v.addr, i);
      cells := Cleared(cells, v.addr, i);
      roots := AddRoot(roots, field);
    }

    /** Takes a field of a parent that is dead to the caller: moves it out when nobody else holds
        the parent, and copies it otherwise. */
    method TakeField(v: Value, i: nat) returns (field: Value)
      requires Valid() && Refers(cells, v) && (v.Ref? ==> v.addr in roots)
      modifies this
      ensures Valid() && roots == AddRoot(old(roots), field)
      ensures field == if v.Ref? && v.tag == Ctor && i < |old(cells)[v.addr].obj.fields|
                       then old(cells)[v.addr].obj.fields[i] else Scalar(0)
      ensures cells == AfterTake(old(cells), old(roots), v, i)
    {
      if !v.Ref? || v.tag != Ctor || i >= |cells[v.addr].obj.fields| { return Scalar(0); }
      if cells[v.addr].obj.immortal || cells[v.addr].obj.refcount != 1 {
        field := cells[v.addr].obj.fields[i];
        FieldRefersToLive(v, i);
        Retain(field);
        return;
      }
      field := TakeFieldUnique(v, i);
    }

    method MakeStr() returns (v: Value)
      requires Valid()
      modifies this
      ensures Valid() && v == Ref(Str, |old(cells)|)
      ensures cells == old(cells) + [Live(Obj(Str, 1, false, []))] && roots == old(roots) + multiset{v.addr}
    {
      v := Allocate(Str, []);
    }

    /** Arguments are sink arguments: the constructor takes over the caller's references. */
    method MakeCtor(fields: seq<Value>) returns (v: Value)
      requires Valid() && Pending(fields, 0) <= roots
      requires forall k :: 0 <= k < |fields| ==> Refers(cells, fields[k])
      modifies this
      ensures Valid() && v == Ref(Ctor, |old(cells)|)
      ensures cells == old(cells) + [Live(Obj(Ctor, 1, false, fields))]
      ensures roots == old(roots) - Pending(fields, 0) + multiset{v.addr}
    {
      v := Allocate(Ctor, fields);
    }

    method MakeClosure(captures: seq<Value>) returns (v: Value)
      requires Valid() && Pending(captures, 0) <= roots
      requires forall k :: 0 <= k < |captures| ==> Refers(cells, captures[k])
      modifies this
      ensures Valid() && v == Ref(Closure, |old(cells)|)
      ensures cells == old(cells) + [Live(Obj(Closure, 1, false, captures))]
      ensures roots == old(roots) - Pending(captures, 0) + multiset{v.addr}
    {
      v := Allocate(Closure, captures);
    }

    method Allocate(tag: Tag, fields: seq<Value>) returns (v: Value)
      requires Valid() && Pending(fields, 0) <= roots && (tag == Str ==> fields == [])
      requires forall k :: 0 <= k < |fields| ==> Refers(cells, fields[k])
      modifies this
      ensures Valid() && v == Ref(tag, |old(cells)|)
      ensures cells == old(cells) + [Live(Obj(tag, 1, false, fields))]
      ensures roots == old(roots) - Pending(fields, 0) + multiset{v.addr}
    {
      AllocateKeepsSound(cells, roots, tag, fields);
      v := Ref(tag, |cells|);
      roots := roots - Pending(fields, 0) + multiset{|cells|};
      cells := cells + [Live(Obj(tag, 1, false, fields))];
    }

    method DecIsLast(v: Value) returns (last: bool)
      requires v.Ref? ==> IsLive(cells, v.addr)
      modifies `cells
      ensures cells == Decremented(old(cells), v) && last == IsLast(old(cells), v)
    {
      if !v.Ref? || cells[v.addr].obj.Pinned() { return false; }
      cells := cells[v.addr := Live(cells[v.addr].obj.(refcount := cells[v.addr].obj.refcount - 1))];
      last := cells[v.addr].obj.refcount == 0;
    }

    /** Gives up one reference the program holds. */
    method Release(v: Value)
      requires Valid() && Refers(cells, v) && (v.Ref? ==> v.addr in roots)
      modifies this
      ensures Valid()
      ensures roots == old(roots) - if v.Ref? then multiset{v.addr} else multiset{}
      ensures if v.Ref? then Released(old(cells), old(roots), v.addr, cells) else cells == old(cells)
    {
      if !v.Ref? { return; }
      ghost var before := cells;
      ghost var left := roots - multiset{v.addr};
      assert roots == left + multiset{v.addr};
      DropKeepsSound(cells, left, {}, v);
      assert SoundCell(cells, v.addr);
      roots := left;
      var last := DecIsLast(v);
      StartsShrinking(before, left + multiset{v.addr}, v);
      if last {
        assert Drop({}, before, v) == {v.addr};
        DestroyAndDispose(v, before);
      } else {
        SettledIsShrunk(before, cells);
      }
    }

    /** Frees an object nothing refers to any more, and everything that goes with it. */
    method DestroyAndDispose(v: Value, ghost before: seq<Cell>)
      requires v.Ref? && IsLive(cells, v.addr) && cells[v.addr].obj.tag == v.tag
      requires Sound(cells, roots, {v.addr}) && Shrinking(before, cells, {v.addr}, {})
      modifies `cells
      ensures Valid() && Shrunk(before, cells)
    {
      var stack := [v];
      ghost var dying := {v.addr};
      assert stack[0] == v;
      while |stack| > 0
        invariant Sound(cells, roots, dying) && Shrinking(before, cells, dying, {})
        invariant Queued(stack, cells, dying)
        decreases LiveSet(cells)
      {
        var top := stack[|stack| - 1];
        assert stack[..|stack| - 1] + [top] == stack;
        stack, dying := DestroyOne(top, stack[..|stack| - 1], dying, before);
      }
      assert dying == {};
      SettledIsShrunk(before, cells);
    }

    /** One round of the worklist: frees `top` and queues the objects that die with it. */
    method DestroyOne(top: Value, rest: seq<Value>, ghost dying: set<Addr>, ghost before: seq<Cell>)
      returns (stack: seq<Value>, ghost dying': set<Addr>)
      requires Sound(cells, roots, dying) && Shrinking(before, cells, dying, {})
      requires Queued(rest + [top], cells, dying)
      modifies `cells
      ensures Sound(cells, roots, dying') && Shrinking(before, cells, dying', {})
      ensures Queued(stack, cells, dying')
      ensures LiveSet(cells) < LiveSet(old(cells))
    {
      var d := top.addr;
      assert (rest + [top])[|rest|] == top;
      var fields := cells[d].obj.fields;
      assert SoundCell(cells, d);
      DetachKeepsSound(cells, roots, dying, d);
      DetachKeepsShrinking(before, cells, dying, d);
      QueueStays(rest + [top], cells, WithFields(cells, d, []), dying);
      cells := WithFields(cells, d, []);
      SameLive(old(cells), cells, d);
      stack, dying' := DropFields(fields, rest, top, dying, before);
      FreeKeepsSound(cells, roots, dying', d);
      FreeKeepsShrinking(before, cells, dying', d);
      QueuePop(stack, top, cells, dying');
      FreeShrinks(cells, d);
      cells := cells[d := Freed];
      dying' := dying' - {d};
    }

    method DropFields(fields: seq<Value>, rest: seq<Value>, top: Value, ghost dying: set<Addr>, ghost before: seq<Cell>)
      returns (stack: seq<Value>, ghost dying': set<Addr>)
      requires top.Ref? && top.addr in dying && IsLive(cells, top.addr) && cells[top.addr].obj.fields == []
      requires Sound(cells, roots + Pending(fields, 0), dying) && Shrinking(before, cells, dying, {top.addr})
      requires Queued(rest + [top], cells, dying)
      requires forall k :: 0 <= k < |fields| ==> Refers(cells, fields[k])
      modifies `cells
      ensures IsLive(cells, top.addr) && cells[top.addr].obj.fields == [] && top.addr in dying'
      ensures Sound(cells, roots, dying') && Shrinking(before, cells, dying', {top.addr})
      ensures Queued(stack + [top], cells, dying')
      ensures LiveSet(cells) == LiveSet(old(cells))
    {
      stack, dying' := rest, dying;
      for i := 0 to |fields|
        invariant IsLive(cells, top.addr) && cells[top.addr].obj.fields == [] && top.addr in dying'
        invariant Sound(cells, roots + Pending(fields, i), dying') && Shrinking(before, cells, dying', {top.addr})
        invariant Queued(stack + [top], cells, dying')
        invariant LiveSet(cells) == LiveSet(old(cells))
        invariant forall k :: 0 <= k < |fields| ==> Refers(cells, fields[k])
      {
        if fields[i].Ref? {
          ghost var held := roots + Pending(fields, i + 1);
          assert roots + Pending(fields, i) == held + multiset{fields[i].addr};
          stack, dying' := DropField(fields[i], stack, top, held, dying', before);
        }
      }
      assert roots + Pending(fields, |fields|) == roots;
    }

    method DropField(field: Value, rest: seq<Value>, top: Value, ghost held: multiset<Addr>, ghost dying: set<Addr>,
        ghost before: seq<Cell>)
      returns (stack: seq<Value>, ghost dying': set<Addr>)
      requires field.Ref? && Refers(cells, field) && top.Ref? && top.addr in dying
      requires Sound(cells, held + multiset{field.addr}, dying)
      requires Shrinking(before, cells, dying, {top.addr}) && Queued(rest + [top], cells, dying)
      modifies `cells
      ensures cells == Decremented(old(cells), field) && dying <= dying'
      ensures Sound(cells, held, dying') && Shrinking(before, cells, dying', {top.addr})
      ensures Queued(stack + [top], cells, dying')
    {
      DropKeepsSound(cells, held, dying, field);
      DropKeepsShrinking(before, cells, dying, top.addr, field);
      QueueStays(rest + [top], cells, Decremented(cells, field), dying);
      dying' := Drop(dying, cells, field);
      stack := rest;
      var last := DecIsLast(field);
      if last {
        QueuePush(rest, top, field, cells, dying);
        stack := rest + [field];
      }
    }
  }
}
