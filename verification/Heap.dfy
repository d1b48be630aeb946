/** The reference-counted heap: what its counts mean, and what a correct release leaves behind.

    Addresses are handed out in allocation order and never reused, so a use after a free would
    show as a read of a freed cell. Values are built bottom-up: a field refers to an object that
    was allocated before its owner. */
module Heap {

  const MAX_COUNT: nat := 0xFFFF_FFFF

  type Addr = nat

  datatype Tag = Str | Ctor | Closure

  /** `Null` is a managed tag with no object behind it, which the runtime treats as unmanaged. */
  datatype Value = Scalar(n: int) | Null(tag: Tag) | Ref(tag: Tag, addr: Addr)

  /** `fields` are a constructor's fields or a closure's captures; a string has none. */
  datatype Obj = Obj(tag: Tag, refcount: nat, immortal: bool, fields: seq<Value>) {
    /** A saturated count is no longer accurate, so the object is kept for good. */
    predicate Pinned() {
      immortal || refcount == 0 || refcount == MAX_COUNT
    }
  }

  datatype Cell = Freed | Live(obj: Obj)

  // ---------------------------------------------------------------- counting references

  function One(v: Value, a: Addr): nat {
    if v.Ref? && v.addr == a then 1 else 0
  }

  /** References to `a` in the fields from position `i` on. */
  function FieldRefs(fields: seq<Value>, i: nat, a: Addr): nat
    requires i <= |fields|
    decreases |fields| - i
  {
    if i == |fields| then 0 else One(fields[i], a) + FieldRefs(fields, i + 1, a)
  }

  function CellRefs(c: Cell, a: Addr): nat {
    if c.Live? then FieldRefs(c.obj.fields, 0, a) else 0
  }

  /** References to `a` in the first `n` cells. */
  function HeapRefs(cells: seq<Cell>, n: nat, a: Addr): nat
    requires n <= |cells|
  {
    if n == 0 then 0 else HeapRefs(cells, n - 1, a) + CellRefs(cells[n - 1], a)
  }

  function AllRefs(cells: seq<Cell>, a: Addr): nat { HeapRefs(cells, |cells|, a) }

  lemma {:induction false} HeapRefsUpdate(cells: seq<Cell>, d: Addr, c: Cell, n: nat, a: Addr)
    requires d < |cells| && n <= |cells|
    ensures HeapRefs(cells[d := c], n, a) ==
      HeapRefs(cells, n, a) + if d < n then CellRefs(c, a) - CellRefs(cells[d], a) else 0
  {
    if n > 0 { HeapRefsUpdate(cells, d, c, n - 1, a); }
  }

  lemma {:induction false} HeapRefsAppend(cells: seq<Cell>, c: Cell, n: nat, a: Addr)
    requires n <= |cells|
    ensures HeapRefs(cells + [c], n, a) == HeapRefs(cells, n, a)
  {
    if n > 0 { HeapRefsAppend(cells, c, n - 1, a); }
  }

  lemma {:induction false} SlotUpdate(fields: seq<Value>, k: nat, v: Value, i: nat, a: Addr)
    requires k < |fields| && i <= |fields|
    ensures FieldRefs(fields[k := v], i, a) ==
      FieldRefs(fields, i, a) + if i <= k then One(v, a) - One(fields[k], a) else 0
    decreases |fields| - i
  {
    if i < |fields| { SlotUpdate(fields, k, v, i + 1, a); }
  }

  ghost predicate PointsTo(c: Cell, a: Addr) {
    c.Live? && exists i :: 0 <= i < |c.obj.fields| && c.obj.fields[i].Ref? && c.obj.fields[i].addr == a
  }

  lemma {:induction false} FieldRefsMember(fields: seq<Value>, i: nat, a: Addr)
    requires i <= |fields|
    ensures FieldRefs(fields, i, a) > 0 <==> exists k :: i <= k < |fields| && fields[k].Ref? && fields[k].addr == a
    decreases |fields| - i
  {
    if i < |fields| { FieldRefsMember(fields, i + 1, a); }
  }

  lemma {:induction false} HeapRefsMember(cells: seq<Cell>, n: nat, a: Addr)
    requires n <= |cells|
    ensures HeapRefs(cells, n, a) > 0 <==> exists b :: 0 <= b < n && PointsTo(cells[b], a)
  {
    if n > 0 {
      HeapRefsMember(cells, n - 1, a);
      if cells[n - 1].Live? { FieldRefsMember(cells[n - 1].obj.fields, 0, a); }
    }
  }

  // ---------------------------------------------------------------- a sound heap

  ghost predicate IsLive(cells: seq<Cell>, a: Addr) {
    a < |cells| && cells[a].Live?
  }

  /** A reference names a live object of its own tag. */
  ghost predicate Refers(cells: seq<Cell>, v: Value) {
    v.Ref? ==> IsLive(cells, v.addr) && cells[v.addr].obj.tag == v.tag
  }

  ghost predicate SoundCell(cells: seq<Cell>, a: Addr)
    requires a < |cells|
  {
    cells[a].Live? ==>
      var o := cells[a].obj;
      && o.refcount <= MAX_COUNT
      && (o.tag == Str ==> o.fields == [])
      && forall i :: 0 <= i < |o.fields| ==>
           Refers(cells, o.fields[i]) && (o.fields[i].Ref? ==> o.fields[i].addr < a)
  }

  /** Every live object is counted exactly, `held` being the references that are not fields. The
      objects of `dying` have lost their last reference and wait to be freed. */
  ghost predicate Sound(cells: seq<Cell>, held: multiset<Addr>, dying: set<Addr>) {
    && (forall a {:trigger SoundCell(cells, a)} :: 0 <= a < |cells| ==> SoundCell(cells, a))
    && (forall a :: a in held ==> IsLive(cells, a))
    && (forall a :: a in dying ==> IsLive(cells, a) && !cells[a].obj.immortal && cells[a].obj.refcount == 0)
    && (forall a {:trigger Counted(cells, held, dying, a)} :: 0 <= a < |cells| ==> Counted(cells, held, dying, a))
  }

  ghost predicate Counted(cells: seq<Cell>, held: multiset<Addr>, dying: set<Addr>, a: Addr)
    requires a < |cells|
  {
    cells[a].Live? ==>
      var o := cells[a].obj;
      && (!o.immortal && o.refcount == 0 ==> a in dying)
      && (o.immortal || o.refcount == MAX_COUNT || o.refcount == held[a] + AllRefs(cells, a))
  }

  // ---------------------------------------------------------------- what release leaves behind

  /** `after` is `before` with some unpinned objects freed and some counts lowered. */
  ghost predicate Shrunk(before: seq<Cell>, after: seq<Cell>) {
    && |after| == |before|
    && forall a {:trigger ShrunkCell(before[a], after[a])} :: 0 <= a < |before| ==> ShrunkCell(before[a], after[a])
  }

  ghost predicate ShrunkCell(before: Cell, after: Cell) {
    match before
    case Freed => after == Freed
    case Live(o) =>
      if o.Pinned() then after == before
      else after.Live? ==> after.obj == o.(refcount := after.obj.refcount) && 0 < after.obj.refcount <= o.refcount
  }

  /** A live object is held by a root, by being pinned, or by a live object that is held. */
  ghost predicate Held(cells: seq<Cell>, roots: multiset<Addr>, a: Addr)
    decreases |cells| - a
  {
    && IsLive(cells, a)
    && (a in roots || cells[a].obj.Pinned() || exists b ::
      a < b < |cells| && PointsTo(cells[b], a) && Held(cells, roots, b))
  }

  /** The caller's reference to `a` is gone, the counts are exact again, nothing else changed
      but what had to. */
  ghost predicate Released(before: seq<Cell>, roots: multiset<Addr>, a: Addr, after: seq<Cell>) {
    && a in roots
    && Sound(before, roots, {})
    && Sound(after, roots - multiset{a}, {})
    && Shrunk(before, after)
  }

  lemma SurvivorIsHeld(before: seq<Cell>, roots: multiset<Addr>, a: Addr, after: seq<Cell>, x: Addr)
    requires Released(before, roots, a, after) && IsLive(after, x)
    ensures Held(before, roots - multiset{a}, x)
    decreases |before| - x
  {
    assert ShrunkCell(before[x], after[x]);
    var left := roots - multiset{a};
    if x !in left && !before[x].obj.Pinned() {
      assert SoundCell(before, x) && Counted(after, left, {}, x);
      assert AllRefs(after, x) > 0;
      HeapRefsMember(after, |after|, x);
      var b: nat :| b < |after| && PointsTo(after[b], x);
      assert ShrunkCell(before[b], after[b]);
      assert SoundCell(after, b);
      SurvivorIsHeld(before, roots, a, after, b);
    }
  }

  lemma HeldSurvives(before: seq<Cell>, roots: multiset<Addr>, a: Addr, after: seq<Cell>, x: Addr)
    requires Released(before, roots, a, after) && Held(before, roots - multiset{a}, x)
    ensures IsLive(after, x)
    decreases |before| - x
  {
    assert ShrunkCell(before[x], after[x]);
    var left := roots - multiset{a};
    if x !in left && !before[x].obj.Pinned() {
      var b :| x < b < |before| && PointsTo(before[b], x) && Held(before, left, b);
      HeldSurvives(before, roots, a, after, b);
      assert ShrunkCell(before[b], after[b]);
      assert SoundCell(after, b);
      var i :| 0 <= i < |after[b].obj.fields| && after[b].obj.fields[i].Ref? && after[b].obj.fields[i].addr == x;
      assert Refers(after, after[b].obj.fields[i]);
    }
  }

  /** Release is exact: it frees what only the released reference kept alive, and nothing else. */
  lemma ReleaseIsExact(before: seq<Cell>, roots: multiset<Addr>, a: Addr, after: seq<Cell>, x: Addr)
    requires Released(before, roots, a, after)
    ensures IsLive(after, x) <==> Held(before, roots - multiset{a}, x)
  {
    if IsLive(after, x) { SurvivorIsHeld(before, roots, a, after, x); }
    if Held(before, roots - multiset{a}, x) { HeldSurvives(before, roots, a, after, x); }
  }

  // ---------------------------------------------------------------- taking against copying

  /** Two heaps with the same live objects, the same fields and the same roots count alike. */
  lemma {:induction false} SameFieldsSameRefs(left: seq<Cell>, right: seq<Cell>, n: nat, a: Addr)
    requires |left| == |right| && n <= |left|
    requires forall x :: 0 <= x < n ==> CellRefs(left[x], a) == CellRefs(right[x], a)
    ensures HeapRefs(left, n, a) == HeapRefs(right, n, a)
  {
    if n > 0 { SameFieldsSameRefs(left, right, n - 1, a); }
  }

  /** The heap a take leaves: the slot of the sole owner is cleared, the reference moves out. */
  function Cleared(cells: seq<Cell>, p: Addr, i: nat): seq<Cell>
    requires p < |cells| && cells[p].Live? && i < |cells[p].obj.fields|
  {
    cells[p := Live(cells[p].obj.(fields := cells[p].obj.fields[i := Scalar(0)]))]
  }

  /** The heap a copy leaves: the field's object has one more reference, unless it is pinned. */
  function Retained(cells: seq<Cell>, v: Value): seq<Cell> {
    if v.Ref? && v.addr < |cells| && cells[v.addr].Live? && !cells[v.addr].obj.Pinned()
    then cells[v.addr := Live(cells[v.addr].obj.(refcount := cells[v.addr].obj.refcount + 1))]
    else cells
  }

  function AddRoot(roots: multiset<Addr>, v: Value): multiset<Addr> {
    if v.Ref? then roots + multiset{v.addr} else roots
  }

  /** A constructor whose only reference is the root `p`. */
  ghost predicate SoleOwner(cells: seq<Cell>, roots: multiset<Addr>, p: Addr, i: nat) {
    && Sound(cells, roots, {}) && p in roots && IsLive(cells, p)
    && !cells[p].obj.immortal && cells[p].obj.refcount == 1
    && i < |cells[p].obj.fields|
  }

  lemma SoleOwnerIsUnreferenced(cells: seq<Cell>, roots: multiset<Addr>, p: Addr, i: nat)
    requires SoleOwner(cells, roots, p, i)
    ensures roots[p] == 1 && AllRefs(cells, p) == 0
    ensures forall b :: 0 <= b < |cells| ==> !PointsTo(cells[b], p)
  {
    assert Counted(cells, roots, {}, p);
    HeapRefsMember(cells, |cells|, p);
  }

  lemma RetainIsSound(cells: seq<Cell>, roots: multiset<Addr>, dying: set<Addr>, v: Value)
    requires Sound(cells, roots, dying) && Refers(cells, v)
    requires v.Ref? ==> v.addr !in dying
    ensures Sound(Retained(cells, v), AddRoot(roots, v), dying)
  {
    var next := Retained(cells, v);
    forall a | 0 <= a < |cells| ensures SoundCell(next, a) && Counted(next, AddRoot(roots, v), dying, a) {
      assert SoundCell(cells, a) && Counted(cells, roots, dying, a);
      if v.Ref? {
        assert SoundCell(cells, v.addr);
        HeapRefsUpdate(cells, v.addr, next[v.addr], |cells|, a);
        forall k | next[a].Live? && 0 <= k < |next[a].obj.fields| ensures Refers(next, next[a].obj.fields[k]) {
          assert Refers(cells, cells[a].obj.fields[k]);
        }
      }
    }
  }

  lemma ClearIsSound(cells: seq<Cell>, roots: multiset<Addr>, p: Addr, i: nat)
    requires SoleOwner(cells, roots, p, i)
    ensures Sound(Cleared(cells, p, i), AddRoot(roots, cells[p].obj.fields[i]), {})
  {
    var next, v := Cleared(cells, p, i), cells[p].obj.fields[i];
    assert SoundCell(cells, p);
    assert Refers(cells, v);
    forall a | 0 <= a < |cells| ensures SoundCell(next, a) && Counted(next, AddRoot(roots, v), {}, a) {
      assert SoundCell(cells, a) && Counted(cells, roots, {}, a);
      HeapRefsUpdate(cells, p, next[p], |cells|, a);
      SlotUpdate(cells[p].obj.fields, i, Scalar(0), 0, a);
      forall k | next[a].Live? && 0 <= k < |next[a].obj.fields| ensures Refers(next, next[a].obj.fields[k]) {
        assert Refers(cells, cells[a].obj.fields[k]);
      }
    }
  }

  lemma {:induction false} HeldAgree(copied: seq<Cell>, taken: seq<Cell>, roots: multiset<Addr>, p: Addr, x: Addr)
    requires |copied| == |taken| && p !in roots
    requires IsLive(copied, p) && !copied[p].obj.Pinned()
    requires forall b :: 0 <= b < |copied| ==> !PointsTo(copied[b], p)
    requires forall b :: 0 <= b < |copied| && b != p ==> SameBut(copied[b], taken[b])
    requires Held(copied, roots, x)
    ensures x != p && Held(taken, roots, x)
    decreases |copied| - x
  {
    if x !in roots && !copied[x].obj.Pinned() {
      var b :| x < b < |copied| && PointsTo(copied[b], x) && Held(copied, roots, b);
      HeldAgree(copied, taken, roots, p, b);
      assert SameBut(copied[b], taken[b]);
    }
    assert SameBut(copied[x], taken[x]);
  }

  /** The same object up to a count that pins neither. */
  ghost predicate SameBut(left: Cell, right: Cell) {
    match (left, right)
    case (Freed, Freed) => true
    case (Live(l), Live(r)) =>
      l.(refcount := 0) == r.(refcount := 0) && (l.Pinned() <==> r.Pinned()) && (l.Pinned() ==> l == r)
    case _ => false
  }

  /** Two exact heaps with the same objects alive are the same heap. */
  lemma SameSurvivors(left: seq<Cell>, right: seq<Cell>, roots: multiset<Addr>)
    requires |left| == |right| && Sound(left, roots, {}) && Sound(right, roots, {})
    requires forall x :: 0 <= x < |left| ==> SameBut(left[x], right[x])
    ensures left == right
  {
    forall x: nat | x < |left| ensures left[x] == right[x] {
      assert SameBut(left[x], right[x]);
      assert SoundCell(left, x) && SoundCell(right, x);
      assert Counted(left, roots, {}, x) && Counted(right, roots, {}, x);
      forall b | 0 <= b < |left| ensures CellRefs(left[b], x) == CellRefs(right[b], x) {
        assert SameBut(left[b], right[b]);
      }
      SameFieldsSameRefs(left, right, |left|, x);
    }
  }

  /** What a release leaves is determined by the heap it started from. */
  lemma ReleaseDetermined(before: seq<Cell>, roots: multiset<Addr>, a: Addr, left: seq<Cell>, right: seq<Cell>)
    requires Released(before, roots, a, left) && Released(before, roots, a, right)
    ensures left == right
  {
    forall x: nat | x < |left| ensures SameBut(left[x], right[x]) {
      ReleaseIsExact(before, roots, a, left, x);
      ReleaseIsExact(before, roots, a, right, x);
      assert ShrunkCell(before[x], left[x]) && ShrunkCell(before[x], right[x]);
      assert SoundCell(before, x);
    }
    SameSurvivors(left, right, roots - multiset{a});
  }

  /** Copying a field out of a sole owner and releasing it, or moving the field and releasing it,
      leave the same heap exactly when the copy does not saturate the field's count. */
  lemma MoveIsCopy(cells: seq<Cell>, roots: multiset<Addr>, p: Addr, i: nat, copied: seq<Cell>, taken: seq<Cell>)
    requires SoleOwner(cells, roots, p, i)
    requires Released(Retained(cells, cells[p].obj.fields[i]), AddRoot(roots, cells[p].obj.fields[i]), p, copied)
    requires Released(Cleared(cells, p, i), AddRoot(roots, cells[p].obj.fields[i]), p, taken)
    ensures copied == taken <==> !Saturates(cells, cells[p].obj.fields[i])
  {
    var v := cells[p].obj.fields[i];
    var copy, take := Retained(cells, v), Cleared(cells, p, i);
    var left := AddRoot(roots, v) - multiset{p};
    assert SoundCell(cells, p);
    assert Refers(cells, v);
    if Saturates(cells, v) {
      assert ShrunkCell(copy[v.addr], copied[v.addr]) && ShrunkCell(take[v.addr], taken[v.addr]);
      return;
    }
    SoleOwnerIsUnreferenced(cells, roots, p, i);
    assert p !in left;
    forall b: nat | b < |cells| ensures !PointsTo(copy[b], p) && !PointsTo(take[b], p) {
      assert !PointsTo(cells[b], p);
    }
    forall b: nat | b < |cells| && b != p ensures SameBut(copy[b], take[b]) && SameBut(take[b], copy[b]) {
      assert SoundCell(cells, b);
    }
    forall x: nat | x < |cells| ensures SameBut(copied[x], taken[x]) {
      ReleaseIsExact(copy, AddRoot(roots, v), p, copied, x);
      ReleaseIsExact(take, AddRoot(roots, v), p, taken, x);
      if Held(copy, left, x) { HeldAgree(copy, take, left, p, x); }
      if Held(take, left, x) { HeldAgree(take, copy, left, p, x); }
      assert ShrunkCell(copy[x], copied[x]) && ShrunkCell(take[x], taken[x]);
      assert SoundCell(cells, x);
    }
    SameSurvivors(copied, taken, left);
  }

  /** Copying a field and releasing the parent, or taking the field and releasing the parent, leave
      the same heap for every parent, shared and immortal ones too, unless the parent had no other
      owner and the copy saturates the field's count. */
  lemma TakeIsCopy(cells: seq<Cell>, roots: multiset<Addr>, parent: Value, i: nat, copied: seq<Cell>, taken: seq<Cell>)
    requires Sound(cells, roots, {}) && parent.Ref? && Refers(cells, parent) && parent.addr in roots
    requires var v := FieldAt(cells, parent, i);
      && Released(Retained(cells, v), AddRoot(roots, v), parent.addr, copied)
      && Released(AfterTake(cells, roots, parent, i), AddRoot(roots, v), parent.addr, taken)
    ensures copied == taken <==> !(MovesOut(cells, roots, parent, i) && Saturates(cells, FieldAt(cells, parent, i)))
  {
    var v := FieldAt(cells, parent, i);
    if MovesOut(cells, roots, parent, i) {
      MoveIsCopy(cells, roots, parent.addr, i, copied, taken);
    } else {
      ReleaseDetermined(Retained(cells, v), AddRoot(roots, v), parent.addr, copied, taken);
    }
  }

  /** What reading a constructor's field yields: unit for anything that is not one. */
  function FieldAt(cells: seq<Cell>, v: Value, i: nat): Value {
    if v.Ref? && v.tag == Ctor && v.addr < |cells| && cells[v.addr].Live? && i < |cells[v.addr].obj.fields|
    then cells[v.addr].obj.fields[i]
    else Scalar(0)
  }

  /** The heap after a reference to each of `vs` is retained in turn. */
  function RetainedAll(cells: seq<Cell>, vs: seq<Value>): seq<Cell> {
    if vs == [] then cells else Retained(RetainedAll(cells, vs[..|vs| - 1]), vs[|vs| - 1])
  }

  /** A constructor is read back field by field as it was made, whatever is retained since, itself included. */
  lemma {:induction false} MadeFieldsAreRead(cells: seq<Cell>, fields: seq<Value>, vs: seq<Value>, i: nat)
    ensures FieldAt(RetainedAll(cells + [Live(Obj(Ctor, 1, false, fields))], vs), Ref(Ctor, |cells|), i) ==
      if i < |fields| then fields[i] else Scalar(0)
  {
    if vs != [] { MadeFieldsAreRead(cells, fields, vs[..|vs| - 1], i); }
  }

  /** Taking moves the field out: nobody else holds the constructor. */
  ghost predicate MovesOut(cells: seq<Cell>, roots: multiset<Addr>, parent: Value, i: nat) {
    parent.Ref? && parent.tag == Ctor && SoleOwner(cells, roots, parent.addr, i)
  }

  /** The heap a take leaves. */
  ghost function AfterTake(cells: seq<Cell>, roots: multiset<Addr>, parent: Value, i: nat): seq<Cell> {
    if MovesOut(cells, roots, parent, i) then Cleared(cells, parent.addr, i)
      else Retained(cells, FieldAt(cells, parent, i))
  }

  /** One more reference would make the count inaccurate. */
  predicate Saturates(cells: seq<Cell>, v: Value) {
    v.Ref? && v.addr < |cells| && cells[v.addr].Live? && !cells[v.addr].obj.Pinned()
      && cells[v.addr].obj.refcount + 1 == MAX_COUNT
  }

  // ---------------------------------------------------------------- where the two differ

  /** A string counted `n` times, and above it a constructor of one field, or nothing any more. */
  function Pair(n: nat, top: Cell): seq<Cell> { [Live(Obj(Str, n, false, [])), top] }

  function Owner(field: Value): Cell { Live(Obj(Ctor, 1, false, [field])) }

  /** `k` roots hold the string, and one the constructor if it is there. */
  function RootsOf(k: nat, top: Cell): multiset<Addr> {
    multiset{}[0 := k][1 := if top.Live? then 1 else 0]
  }

  lemma PairIsSound(n: nat, field: Value, top: Cell, k: nat)
    requires 0 < n <= MAX_COUNT && (top == Freed || top == Owner(field)) && (field.Scalar? || field == Ref(Str, 0))
    requires n == MAX_COUNT || n == k + if top.Live? && field.Ref? then 1 else 0
    ensures Sound(Pair(n, top), RootsOf(k, top), {})
  {
    var cells, roots := Pair(n, top), RootsOf(k, top);
    forall a: Addr | a < |cells| ensures SoundCell(cells, a) && Counted(cells, roots, {}, a) {
      assert CellRefs(cells[0], a) == FieldRefs([], 0, a) == 0;
      assert HeapRefs(cells, 1, a) == HeapRefs(cells, 0, a) + 0;
      if top.Live? { assert FieldRefs([field], 0, a) == One(field, a) + FieldRefs([field], 1, a); }
    }
  }

  lemma CopyOfPair(n: nat)
    requires n + 1 == MAX_COUNT
    ensures var v := Ref(Str, 0);
      Released(Retained(Pair(n, Owner(v)), v), AddRoot(RootsOf(n - 1, Owner(v)), v), 1, Pair(MAX_COUNT, Freed))
  {
    var v := Ref(Str, 0);
    PairIsSound(MAX_COUNT, v, Owner(v), n);
    PairIsSound(MAX_COUNT, v, Freed, n);
    assert AddRoot(RootsOf(n - 1, Owner(v)), v) == RootsOf(n, Owner(v));
    assert RootsOf(n, Owner(v)) - multiset{1} == RootsOf(n, Freed);
    assert Retained(Pair(n, Owner(v)), v) == Pair(MAX_COUNT, Owner(v));
  }

  lemma TakeOfPair(n: nat)
    requires n + 1 == MAX_COUNT
    ensures var v := Ref(Str, 0);
      Released(Cleared(Pair(n, Owner(v)), 1, 0), AddRoot(RootsOf(n - 1, Owner(v)), v), 1, Pair(n, Freed))
  {
    var v, x := Ref(Str, 0), Scalar(0);
    PairIsSound(n, x, Owner(x), n);
    PairIsSound(n, v, Freed, n);
    assert AddRoot(RootsOf(n - 1, Owner(v)), v) == RootsOf(n, Owner(x));
    assert RootsOf(n, Owner(x)) - multiset{1} == RootsOf(n, Freed);
    assert [v][0 := x] == [x];
    assert Cleared(Pair(n, Owner(v)), 1, 0) == Pair(n, Owner(x));
  }

  /** Where the parent had no other owner and the copy saturates the count, the two do differ: the copied
      string is kept for good, the taken one goes on being counted. */
  lemma TakenIsNotCopied(n: nat)
    requires n + 1 == MAX_COUNT
    ensures var cells, roots, v := Pair(n, Owner(Ref(Str, 0))), RootsOf(n - 1, Owner(Ref(Str, 0))), Ref(Str, 0);
      && Sound(cells, roots, {}) && FieldAt(cells, Ref(Ctor, 1), 0) == v
      && MovesOut(cells, roots, Ref(Ctor, 1), 0) && Saturates(cells, v)
      && Released(Retained(cells, v), AddRoot(roots, v), 1, Pair(MAX_COUNT, Freed))
      && Released(AfterTake(cells, roots, Ref(Ctor, 1), 0), AddRoot(roots, v), 1, Pair(n, Freed))
      && Pair(MAX_COUNT, Freed) != Pair(n, Freed)
  {
    var v := Ref(Str, 0);
    PairIsSound(n, v, Owner(v), n - 1);
    CopyOfPair(n);
    TakeOfPair(n);
    assert Pair(MAX_COUNT, Freed)[0].obj.refcount != Pair(n, Freed)[0].obj.refcount;
  }
}
