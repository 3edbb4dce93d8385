// Message memory: buffers on an over-aligned allocator on a pool on a base allocator. The
// over-aligned allocator hides a pointer to the block's beginning in the block itself.

module Allocators {
  import MixedRadix

  /** A byte of memory: one of the eight bytes of a stored pointer, or anything else. */
  datatype Byte = PointerByte(p: nat, k: nat) | User(v: bv8)

  /** What one over-aligned allocation obtained: its block of base memory, and the number of
      elements asked for. */
  datatype Block = Block(base: nat, count: nat)

  /** free: the pool's lists by size; base: outstanding blocks of the base allocator with their
      sizes; live: over-aligned allocations by the address handed out. */
  datatype Heap = Heap(free: map<nat, seq<nat>>, memory: map<nat, Byte>, base: map<nat, nat>, live: map<nat, Block>)

  const POINTER_SIZE: nat := 8

  /** Alignment and element size of the over-aligned allocator. */
  datatype Config = Config(alignment: nat, elemSize: nat)

  ghost predicate ConfigOk(c: Config) {
    c.alignment > 0 && c.alignment % POINTER_SIZE == 0 && c.elemSize > 0
  }

  // ------------------------------------------------------------------ addresses

  /** x & ~(a - 1), for a power of two a: the largest multiple of a that is at most x. */
  function RoundDown(x: nat, a: nat): (r: nat)
    requires a > 0
    ensures r <= x < r + a
  {
    if x < a then 0 else a + RoundDown(x - a, a)
  }

  lemma {:induction false} RoundDownMultiple(x: nat, a: nat, m: nat)
    requires a > 0 && m > 0 && a % m == 0
    ensures RoundDown(x, a) % m == 0
  {
    if x >= a {
      RoundDownMultiple(x - a, a, m);
      ModSum(a, RoundDown(x - a, a), m);
    }
  }

  lemma {:induction false} ModSum(a: nat, b: nat, m: nat)
    requires m > 0 && a % m == 0 && b % m == 0
    ensures (a + b) % m == 0
  {
    var i, j := a / m, b / m;
    assert a + b == (i + j) * m + 0;
    MixedRadix.DivUnique(a + b, m, i + j, 0);
  }

  /** The address handed out for a block that starts at v. */
  function Aligned(v: nat, alignment: nat): (r: nat)
    requires alignment > 0
  {
    RoundDown(v + alignment, alignment)
  }

  lemma {:induction false} SelfMod(a: nat)
    requires a > 0
    ensures a % a == 0
  {
    MixedRadix.DivUnique(a, a, 1, 0);
  }

  /** The aligned address leaves room for the back pointer below and for the elements above. */
  lemma {:induction false} AlignedInside(v: nat, alignment: nat)
    requires alignment > 0 && alignment % POINTER_SIZE == 0 && v % POINTER_SIZE == 0
    ensures Aligned(v, alignment) % alignment == 0
    ensures v + POINTER_SIZE <= Aligned(v, alignment) <= v + alignment
  {
    SelfMod(alignment);
    RoundDownMultiple(v + alignment, alignment, alignment);
    RoundDownMultiple(v + alignment, alignment, POINTER_SIZE);
    NextMultiple(v, Aligned(v, alignment));
  }

  lemma {:induction false} NextMultiple(v: nat, r: nat)
    requires v % POINTER_SIZE == 0 && r % POINTER_SIZE == 0 && v < r
    ensures v + POINTER_SIZE <= r
  {
  }

  /** Bytes of the elements. */
  function Payload(c: Config, count: nat): nat {
    if count == 0 then 0 else c.elemSize + Payload(c, count - 1)
  }

  lemma {:induction false} PayloadIsProduct(c: Config, count: nat)
    ensures Payload(c, count) == count * c.elemSize
  {
    if count > 0 {
      PayloadIsProduct(c, count - 1);
    }
  }

  function BlockBytes(c: Config, count: nat): (n: nat) {
    Payload(c, count) + c.alignment
  }

  // ------------------------------------------------------------------ stored pointers

  ghost predicate Stored(memory: map<nat, Byte>, at: nat, p: nat) {
    forall k: nat :: k < POINTER_SIZE ==> ByteAt(memory, at, p, k)
  }

  ghost predicate ByteAt(memory: map<nat, Byte>, at: nat, p: nat, k: nat) {
    at + k in memory && memory[at + k] == PointerByte(p, k)
  }

  /** *((void**)res - 1) = vptr, at - 8 bytes below the address handed out. */
  function Store(memory: map<nat, Byte>, at: nat, p: nat): map<nat, Byte> {
    memory[at := PointerByte(p, 0)][at + 1 := PointerByte(p, 1)][at + 2 := PointerByte(p, 2)][at + 3 := PointerByte(p, 3)]
          [at + 4 := PointerByte(p, 4)][at + 5 := PointerByte(p, 5)][at + 6 := PointerByte(p, 6)][at + 7 := PointerByte(p, 7)]
  }

  lemma {:induction false} StoreStores(memory: map<nat, Byte>, at: nat, p: nat)
    ensures Stored(Store(memory, at, p), at, p)
    ensures forall a: nat :: !(at <= a < at + POINTER_SIZE) && a in memory ==> a in Store(memory, at, p) && Store(memory, at, p)[a] == memory[a]
  {
    forall k: nat | k < POINTER_SIZE
      ensures ByteAt(Store(memory, at, p), at, p, k)
    {
      assert k == 0 || k == 1 || k == 2 || k == 3 || k == 4 || k == 5 || k == 6 || k == 7;
    }
  }

  // ------------------------------------------------------------------ invariant

  /** Different blocks of the base allocator do not overlap, and are aligned for pointers. */
  ghost predicate BaseOk(base: map<nat, nat>) {
    && (forall p {:trigger p in base} :: p in base ==> p % POINTER_SIZE == 0)
    && (forall p, q :: p in base && q in base && p < q ==> p + base[p] <= q)
  }

  ghost predicate FreeOk(free: map<nat, seq<nat>>, base: map<nat, nat>) {
    && (forall n, i :: n in free && 0 <= i < |free[n]| ==> free[n][i] in base && base[free[n][i]] == n)
    && (forall n, i, j :: n in free && 0 <= i < j < |free[n]| ==> free[n][i] != free[n][j])
  }

  ghost predicate IsFree(free: map<nat, seq<nat>>, p: nat, n: nat) {
    n in free && p in free[n]
  }

  /** An allocation sits in its own block of base memory, of the size that its count demands,
      at the aligned address, with the pointer to the block's beginning stored below it. */
  ghost predicate Placed(c: Config, h: Heap, r: nat)
    requires ConfigOk(c) && r in h.live
  {
    var b := h.live[r];
    && b.base in h.base && h.base[b.base] == BlockBytes(c, b.count) && !IsFree(h.free, b.base, h.base[b.base])
    && r == Aligned(b.base, c.alignment) && r >= POINTER_SIZE && Stored(h.memory, r - POINTER_SIZE, b.base)
  }

  ghost predicate Used(c: Config, h: Heap, p: nat)
    requires ConfigOk(c)
  {
    Aligned(p, c.alignment) in h.live && h.live[Aligned(p, c.alignment)].base == p
  }

  ghost predicate Consistent(c: Config, h: Heap) {
    && ConfigOk(c) && BaseOk(h.base) && FreeOk(h.free, h.base)
    && (forall r {:trigger Placed(c, h, r)} :: r in h.live ==> Placed(c, h, r))
    && (forall p {:trigger Used(c, h, p)} :: p in h.base ==> Used(c, h, p) || IsFree(h.free, p, h.base[p]))
  }

  // ------------------------------------------------------------------ what the invariant says

  /** Addresses handed out are aligned, their elements and back pointers lie inside their base
      blocks, and two allocations never share a byte. */
  lemma {:induction false} BlocksApart(c: Config, h: Heap, r: nat, s: nat)
    requires Consistent(c, h) && r in h.live && s in h.live
    ensures r % c.alignment == 0
    ensures var b := h.live[r]; b.base in h.base && b.base <= r - POINTER_SIZE && r + Payload(c, b.count) <= b.base + h.base[b.base]
    ensures r != s ==>
      r + Payload(c, h.live[r].count) <= s - POINTER_SIZE || s + Payload(c, h.live[s].count) <= r - POINTER_SIZE
  {
    assert Placed(c, h, r) && Placed(c, h, s);
    AlignedInside(h.live[r].base, c.alignment);
    AlignedInside(h.live[s].base, c.alignment);
  }

  /** Per size, the base blocks outstanding are those in use and those in the pool's list, and
      no block is both: nothing is leaked and nothing is handed out twice. */
  lemma {:induction false} BaseIsLivePlusFree(c: Config, h: Heap, n: nat)
    requires Consistent(c, h)
    ensures (set p | p in h.base && h.base[p] == n) ==
      (set r | r in h.live && BlockBytes(c, h.live[r].count) == n :: h.live[r].base) + (set p | p in h.base && IsFree(h.free, p, n))
    ensures (set r | r in h.live && BlockBytes(c, h.live[r].count) == n :: h.live[r].base) !! (set p | p in h.base && IsFree(h.free, p, n))
  {
    forall p | p in h.base && h.base[p] == n && !IsFree(h.free, p, n)
      ensures p in (set r | r in h.live && BlockBytes(c, h.live[r].count) == n :: h.live[r].base)
    {
      assert Used(c, h, p);
      assert Placed(c, h, Aligned(p, c.alignment));
    }
    forall r | r in h.live
      ensures Placed(c, h, r)
    {
    }
  }

  // ------------------------------------------------------------------ the operations

  /** What the base allocator promises for a new block. */
  ghost predicate NewBlock(base: map<nat, nat>, p: nat, n: nat) {
    p % POINTER_SIZE == 0 && p !in base && forall q {:trigger q in base} :: q in base ==> q + base[q] <= p || p + n <= q
  }

  /** pool_impl::allocate. */
  function PoolTake(h: Heap, n: nat, new_: nat): (r: (Heap, nat)) {
    if n in h.free && |h.free[n]| > 0 then
      var l := h.free[n];
      (h.(free := h.free[n := l[..|l| - 1]]), l[|l| - 1])
    else (h.(base := h.base[new_ := n]), new_)
  }

  /** aligned_allocator_adaptor::allocate, the base allocator returning new_ if it is asked. */
  function Allocate(c: Config, h: Heap, count: nat, new_: nat): (Heap, nat)
    requires ConfigOk(c)
  {
    var (g, v) := PoolTake(h, BlockBytes(c, count), new_);
    var r := Aligned(v, c.alignment);
    (g.(memory := Store(g.memory, if r >= POINTER_SIZE then r - POINTER_SIZE else 0, v), live := g.live[r := Block(v, count)]), r)
  }

  /** What taking block v of n bytes leaves: nobody uses it, and all other blocks are as before. */
  ghost predicate Took(h: Heap, g: Heap, v: nat, n: nat) {
    && BaseOk(g.base) && FreeOk(g.free, g.base) && v in g.base && g.base[v] == n && !IsFree(g.free, v, n)
    && (forall r {:trigger r in h.live} :: r in h.live ==> h.live[r].base != v)
    && (forall p {:trigger p in h.base} :: p in h.base ==> p in g.base && g.base[p] == h.base[p])
    && (forall p, k {:trigger IsFree(g.free, p, k)} :: p != v ==> (IsFree(g.free, p, k) <==> IsFree(h.free, p, k)))
    && (forall p {:trigger p in g.base} :: p in g.base && p != v ==> p in h.base)
    && g.live == h.live && g.memory == h.memory
  }

  lemma {:induction false} LastOnce(l: seq<nat>, p: nat)
    requires |l| > 0 && forall i, j :: 0 <= i < j < |l| ==> l[i] != l[j]
    ensures p in l[..|l| - 1] <==> p in l && p != l[|l| - 1]
  {
    if p in l && p != l[|l| - 1] {
      var i :| 0 <= i < |l| && l[i] == p;
      assert l[..|l| - 1][i] == p;
    }
  }

  lemma {:induction false} TakeFree(c: Config, h: Heap, n: nat)
    requires Consistent(c, h) && n in h.free && |h.free[n]| > 0
    ensures var (g, v) := PoolTake(h, n, 0); Took(h, g, v, n)
  {
    var l := h.free[n];
    var (g, v) := PoolTake(h, n, 0);
    assert v in l;
    forall r | r in h.live
      ensures h.live[r].base != v
    {
      assert Placed(c, h, r);
    }
    forall p, k | p != v
      ensures IsFree(g.free, p, k) <==> IsFree(h.free, p, k)
    {
      LastOnce(l, p);
    }
    LastOnce(l, v);
  }

  lemma {:induction false} NewBaseOk(free: map<nat, seq<nat>>, base: map<nat, nat>, n: nat, new_: nat)
    requires BaseOk(base) && FreeOk(free, base) && NewBlock(base, new_, n)
    ensures BaseOk(base[new_ := n]) && FreeOk(free, base[new_ := n])
    ensures forall k :: !IsFree(free, new_, k)
  {
  }

  lemma {:induction false} TakeNew(c: Config, h: Heap, n: nat, new_: nat)
    requires Consistent(c, h) && NewBlock(h.base, new_, n) && !(n in h.free && |h.free[n]| > 0)
    ensures Took(h, h.(base := h.base[new_ := n]), new_, n)
  {
    NewBaseOk(h.free, h.base, n, new_);
    forall r | r in h.live
      ensures h.live[r].base != new_
    {
      assert Placed(c, h, r);
    }
  }

  /** The pool hands out a block that nobody uses, of the size asked for. */
  lemma {:induction false} TakeKeeps(c: Config, h: Heap, n: nat, new_: nat)
    requires Consistent(c, h) && NewBlock(h.base, new_, n)
    ensures var (g, v) := PoolTake(h, n, new_); Took(h, g, v, n)
  {
    if n in h.free && |h.free[n]| > 0 {
      TakeFree(c, h, n);
    } else {
      TakeNew(c, h, n, new_);
    }
  }

  /** A stored pointer outside of the bytes written stays. */
  lemma {:induction false} StoreApart(memory: map<nat, Byte>, at: nat, p: nat, other: nat, q: nat)
    requires Stored(memory, other, q) && (at + POINTER_SIZE <= other || other + POINTER_SIZE <= at)
    ensures Stored(Store(memory, at, p), other, q)
  {
    StoreStores(memory, at, p);
    forall k: nat | k < POINTER_SIZE
      ensures ByteAt(Store(memory, at, p), other, q, k)
    {
      assert ByteAt(memory, other, q, k);
    }
  }

  /** Back pointers in different base blocks do not overlap. */
  lemma {:induction false} PointersApart(c: Config, base: map<nat, nat>, v: nat, w: nat)
    requires ConfigOk(c) && BaseOk(base) && v in base && w in base && v != w
    requires base[v] >= c.alignment && base[w] >= c.alignment
    ensures var s, r := Aligned(v, c.alignment), Aligned(w, c.alignment);
      s >= POINTER_SIZE && r >= POINTER_SIZE && s != r && (s <= r - POINTER_SIZE || r <= s - POINTER_SIZE)
  {
    AlignedInside(v, c.alignment);
    AlignedInside(w, c.alignment);
  }

  /** The heap once block v, taken for count elements, has been set up. */
  function SetUp(c: Config, m: Heap, v: nat, count: nat): Heap
    requires ConfigOk(c) && Aligned(v, c.alignment) >= POINTER_SIZE
  {
    var r := Aligned(v, c.alignment);
    m.(memory := Store(m.memory, r - POINTER_SIZE, v), live := m.live[r := Block(v, count)])
  }

  /** An allocation that was there before: a block of its own, and its back pointer untouched. */
  lemma {:induction false} OldPointer(c: Config, h: Heap, m: Heap, v: nat, count: nat, s: nat)
    requires ConfigOk(c) && s in h.live && Placed(c, h, s) && Took(h, m, v, BlockBytes(c, count))
    requires Aligned(v, c.alignment) >= POINTER_SIZE
    ensures s != Aligned(v, c.alignment) && s >= POINTER_SIZE
    ensures Stored(SetUp(c, m, v, count).memory, s - POINTER_SIZE, h.live[s].base)
  {
    OldBlock(c, h, m, v, count, s);
    PointersApart(c, m.base, v, h.live[s].base);
    StoreApart(m.memory, Aligned(v, c.alignment) - POINTER_SIZE, v, s - POINTER_SIZE, h.live[s].base);
  }

  lemma {:induction false} OldBlock(c: Config, h: Heap, m: Heap, v: nat, count: nat, s: nat)
    requires ConfigOk(c) && s in h.live && Placed(c, h, s) && Took(h, m, v, BlockBytes(c, count))
    ensures h.live[s].base in m.base && m.base[h.live[s].base] >= c.alignment && h.live[s].base != v && m.base[v] >= c.alignment
  {
  }

  lemma {:induction false} OldStays(c: Config, h: Heap, m: Heap, v: nat, count: nat, s: nat)
    requires ConfigOk(c) && s in h.live && Placed(c, h, s) && Took(h, m, v, BlockBytes(c, count))
    requires Aligned(v, c.alignment) >= POINTER_SIZE
    ensures s != Aligned(v, c.alignment) && Placed(c, SetUp(c, m, v, count), s)
  {
    assert h.live[s].base in m.base && !IsFree(m.free, h.live[s].base, m.base[h.live[s].base]);
    OldPointer(c, h, m, v, count, s);
  }

  lemma {:induction false} NewPlaced(c: Config, h: Heap, m: Heap, v: nat, count: nat)
    requires Consistent(c, h) && Took(h, m, v, BlockBytes(c, count)) && v % POINTER_SIZE == 0
    requires Aligned(v, c.alignment) >= POINTER_SIZE
    ensures Placed(c, SetUp(c, m, v, count), Aligned(v, c.alignment))
  {
    StoreStores(m.memory, Aligned(v, c.alignment) - POINTER_SIZE, v);
  }

  /** Every base block is in use or free, also with the new one set up. */
  lemma {:induction false} StillCovered(c: Config, h: Heap, m: Heap, v: nat, count: nat, p: nat)
    requires Consistent(c, h) && Took(h, m, v, BlockBytes(c, count)) && p in m.base
    requires Aligned(v, c.alignment) >= POINTER_SIZE && Aligned(v, c.alignment) !in h.live
    ensures Used(c, SetUp(c, m, v, count), p) || IsFree(m.free, p, m.base[p])
  {
    if p != v {
      assert p in h.base;
      assert Used(c, h, p) || IsFree(h.free, p, h.base[p]);
      assert IsFree(m.free, p, m.base[p]) <==> IsFree(h.free, p, h.base[p]);
    }
  }

  lemma {:induction false} SetUpKeeps(c: Config, h: Heap, m: Heap, v: nat, count: nat)
    requires Consistent(c, h) && Took(h, m, v, BlockBytes(c, count))
    ensures Aligned(v, c.alignment) >= POINTER_SIZE && Aligned(v, c.alignment) !in h.live
    ensures Consistent(c, SetUp(c, m, v, count))
  {
    AlignedInside(v, c.alignment);
    var r, g := Aligned(v, c.alignment), SetUp(c, m, v, count);
    NewPlaced(c, h, m, v, count);
    forall s | s in h.live
      ensures s != r && Placed(c, g, s)
    {
      assert Placed(c, h, s);
      OldStays(c, h, m, v, count, s);
    }
    forall p | p in g.base
      ensures Used(c, g, p) || IsFree(g.free, p, g.base[p])
    {
      StillCovered(c, h, m, v, count, p);
    }
  }

  lemma {:induction false} AllocateKeeps(c: Config, h: Heap, count: nat, new_: nat)
    requires Consistent(c, h) && NewBlock(h.base, new_, BlockBytes(c, count))
    ensures var (g, r) := Allocate(c, h, count, new_);
      && Consistent(c, g) && r !in h.live && r > 0 && r in g.live && g.live[r].count == count
      && g.live == h.live[r := g.live[r]]
      && g.live[r].base in g.base && g.base[g.live[r].base] == count * c.elemSize + c.alignment
  {
    var (m, v) := PoolTake(h, BlockBytes(c, count), new_);
    TakeKeeps(c, h, BlockBytes(c, count), new_);
    SetUpKeeps(c, h, m, v, count);
    PayloadIsProduct(c, count);
  }

  /** pool_impl::deallocate. */
  function PoolGive(h: Heap, p: nat, n: nat): Heap {
    h.(free := h.free[n := (if n in h.free then h.free[n] else []) + [p]])
  }

  /** aligned_allocator_adaptor::deallocate: the pointer found below the address goes back to
      the pool. */
  function Deallocate(c: Config, h: Heap, r: nat, count: nat): Heap
    requires ConfigOk(c) && r >= POINTER_SIZE && r - POINTER_SIZE in h.memory && h.memory[r - POINTER_SIZE].PointerByte?
  {
    var v := h.memory[r - POINTER_SIZE].p;
    PoolGive(h.(live := h.live - {r}), v, BlockBytes(c, count))
  }

  /** The address below the allocation holds the pointer that came from the pool. */
  lemma {:induction false} BackPointer(c: Config, h: Heap, r: nat)
    requires Consistent(c, h) && r in h.live
    ensures r >= POINTER_SIZE && r - POINTER_SIZE in h.memory && h.memory[r - POINTER_SIZE] == PointerByte(h.live[r].base, 0)
  {
    assert Placed(c, h, r);
    assert ByteAt(h.memory, r - POINTER_SIZE, h.live[r].base, 0);
  }

  lemma {:induction false} GiveFreeOk(c: Config, h: Heap, r: nat)
    requires Consistent(c, h) && r in h.live
    ensures var p, n := h.live[r].base, BlockBytes(c, h.live[r].count);
      && p in h.base && h.base[p] == n && FreeOk(PoolGive(h, p, n).free, h.base) && !IsFree(h.free, p, n)
      && (forall q, k :: IsFree(PoolGive(h, p, n).free, q, k) <==> IsFree(h.free, q, k) || (q == p && k == n))
  {
    assert Placed(c, h, r);
  }

  /** The heap once the allocation at r has gone back to the pool. */
  function Returned(c: Config, h: Heap, r: nat): Heap
    requires r in h.live
  {
    PoolGive(h.(live := h.live - {r}), h.live[r].base, BlockBytes(c, h.live[r].count))
  }

  lemma {:induction false} OthersPlaced(c: Config, h: Heap, r: nat, s: nat)
    requires Consistent(c, h) && r in h.live && s in h.live && s != r
    ensures Placed(c, Returned(c, h, r), s)
  {
    assert Placed(c, h, s) && Placed(c, h, r);
    GiveFreeOk(c, h, r);
  }

  lemma {:induction false} ReturnCovers(c: Config, h: Heap, r: nat, p: nat)
    requires Consistent(c, h) && r in h.live && p in h.base
    ensures Used(c, Returned(c, h, r), p) || IsFree(Returned(c, h, r).free, p, h.base[p])
  {
    assert Used(c, h, p) || IsFree(h.free, p, h.base[p]);
    assert Placed(c, h, r);
    GiveFreeOk(c, h, r);
  }

  /** Every block returns to the pool with the pointer and the size it was taken with. */
  lemma {:induction false} DeallocateKeeps(c: Config, h: Heap, r: nat)
    requires Consistent(c, h) && r in h.live
    ensures r >= POINTER_SIZE && r - POINTER_SIZE in h.memory && h.memory[r - POINTER_SIZE].PointerByte?
    ensures Deallocate(c, h, r, h.live[r].count) == Returned(c, h, r) && Consistent(c, Returned(c, h, r))
    ensures var g, b := Returned(c, h, r), h.live[r];
      && g.live == h.live - {r} && g.base == h.base
      && b.base in h.base && IsFree(g.free, b.base, h.base[b.base]) && !IsFree(h.free, b.base, h.base[b.base])
  {
    BackPointer(c, h, r);
    GiveFreeOk(c, h, r);
    var g := Returned(c, h, r);
    forall s | s in g.live
      ensures Placed(c, g, s)
    {
      OthersPlaced(c, h, r, s);
    }
    forall p | p in g.base
      ensures Used(c, g, p) || IsFree(g.free, p, g.base[p])
    {
      ReturnCovers(c, h, r, p);
    }
  }

  /** The block given back last is the next one handed out for its size: nothing is asked of the
      base allocator, and the heap is the one before. */
  lemma {:induction false} GiveThenTake(c: Config, h: Heap, r: nat, new_: nat)
    requires Consistent(c, h) && r in h.live
    ensures var (g, s) := Allocate(c, Returned(c, h, r), h.live[r].count, new_);
      && s == r && g.live == h.live && g.base == h.base && (forall p, n :: IsFree(g.free, p, n) <==> IsFree(h.free, p, n))
  {
    assert Placed(c, h, r);
    var b, n := h.live[r], BlockBytes(c, h.live[r].count);
    var l := if n in h.free then h.free[n] else [];
    assert (l + [b.base])[..|l|] == l;
    assert h.free[n := l + [b.base]][n := l] == h.free[n := l];
    assert PoolTake(Returned(c, h, r), n, new_) == (h.(free := h.free[n := l], live := h.live - {r}), b.base);
    assert (h.live - {r})[r := b] == h.live;
  }

  lemma {:induction false} UserApart(memory: map<nat, Byte>, a: nat, v: bv8, other: nat, q: nat)
    requires Stored(memory, other, q) && (a < other || other + POINTER_SIZE <= a)
    ensures Stored(memory[a := User(v)], other, q)
  {
    forall k: nat {:trigger ByteAt(memory[a := User(v)], other, q, k)} | k < POINTER_SIZE
      ensures ByteAt(memory[a := User(v)], other, q, k)
    {
      assert ByteAt(memory, other, q, k);
    }
  }

  /** The owner of an allocation writes one of its bytes. */
  lemma {:induction false} WriteKeeps(c: Config, h: Heap, r: nat, i: nat, v: bv8)
    requires Consistent(c, h) && r in h.live && i < Payload(c, h.live[r].count)
    ensures Consistent(c, h.(memory := h.memory[r + i := User(v)]))
  {
    var g := h.(memory := h.memory[r + i := User(v)]);
    forall s | s in g.live
      ensures Placed(c, g, s)
    {
      assert Placed(c, h, s);
      BlocksApart(c, h, r, s);
      BlocksApart(c, h, s, r);
      UserApart(h.memory, r + i, v, s - POINTER_SIZE, h.live[s].base);
    }
    forall p | p in g.base
      ensures Used(c, g, p) || IsFree(g.free, p, g.base[p])
    {
      assert Used(c, h, p) || IsFree(h.free, p, h.base[p]);
    }
  }

  // ------------------------------------------------------------------ message buffers

  /** allocation and message_buffer: the memory held, and how much of it is used. Address 0 is
      the null pointer. */
  datatype Buffer = Buffer(pointer: nat, capacity: nat, size: nat)

  const EMPTY: Buffer := Buffer(0, 0, 0)

  /** A buffer holds memory exactly if it has capacity, and then an allocation of that size. */
  ghost predicate Holds(h: Heap, b: Buffer) {
    && (b.capacity == 0 <==> b.pointer == 0)
    && (b.capacity > 0 ==> b.pointer in h.live && h.live[b.pointer].count == b.capacity)
    && b.size <= b.capacity
  }

  /** Every allocation belongs to exactly one buffer. */
  ghost predicate Owners(h: Heap, buffers: map<nat, Buffer>) {
    && (forall i {:trigger i in buffers} :: i in buffers ==> Holds(h, buffers[i]))
    && (forall i, j :: i in buffers && j in buffers && i != j && buffers[i].capacity > 0 ==> buffers[i].pointer != buffers[j].pointer)
    && (forall r {:trigger r in h.live} :: r in h.live ==> exists i :: i in buffers && buffers[i].capacity > 0 && buffers[i].pointer == r)
    && 0 !in h.live
  }

  /** ~allocation: the heap once the buffer's memory, if it has any, is back in the pool. */
  function Freed(c: Config, h: Heap, b: Buffer): Heap {
    if b.pointer in h.live then Returned(c, h, b.pointer) else h
  }

  /** A larger block for a buffer; the old one is given back only then. */
  function Replaced(c: Config, h: Heap, b: Buffer, n: nat, new_: nat): (Heap, nat)
    requires ConfigOk(c)
  {
    var (g, r) := Allocate(c, h, n, new_);
    (Freed(c, g, b), r)
  }

  function Reserved(c: Config, h: Heap, buffers: map<nat, Buffer>, i: nat, n: nat, new_: nat): (Heap, map<nat, Buffer>)
    requires ConfigOk(c) && i in buffers
  {
    if n <= buffers[i].capacity then (h, buffers)
    else
      var (g, r) := Replaced(c, h, buffers[i], n, new_);
      (g, buffers[i := Buffer(r, n, buffers[i].size)])
  }

  /** Buffers of one program on one pool. */
  class Buffers {
    const config: Config
    var heap: Heap
    var buffers: map<nat, Buffer>

    ghost predicate Valid()
      reads this
    {
      Consistent(config, heap) && Owners(heap, buffers)
    }

    constructor (c: Config)
      requires ConfigOk(c)
      ensures Valid() && config == c && buffers == map[] && heap == Heap(map[], map[], map[], map[])
    {
      config, heap, buffers := c, Heap(map[], map[], map[], map[]), map[];
    }

    /** message_buffer(n): new_ is the block the base allocator returns if the pool asks it. */
    method Construct(i: nat, n: nat, new_: nat)
      requires Valid() && i !in buffers && NewBlock(heap.base, new_, BlockBytes(config, n))
      modifies this`heap, this`buffers
      ensures Valid() && i in buffers && buffers == old(buffers)[i := buffers[i]] && buffers[i].capacity == buffers[i].size == n
      ensures if n == 0 then heap == old(heap) else (heap, buffers[i].pointer) == Allocate(config, old(heap), n, new_)
    {
      if n == 0 {
        OwnersEmpty(heap, buffers, i);
        buffers := buffers[i := EMPTY];
      } else {
        var b := TakeFor(n, new_, i);
        buffers := buffers[i := b];
      }
    }

    /** allocation(alloc, n) */
    method TakeFor(n: nat, new_: nat, ghost i: nat) returns (b: Buffer)
      requires Valid() && i !in buffers && n > 0 && NewBlock(heap.base, new_, BlockBytes(config, n))
      modifies this`heap
      ensures Consistent(config, heap) && Owners(heap, buffers[i := b])
      ensures (heap, b.pointer) == Allocate(config, old(heap), n, new_) && b.capacity == b.size == n
    {
      var r := Take(n, new_);
      OwnersTake(old(heap), heap, buffers, i, r, n, n);
      b := Buffer(r, n, n);
    }

    /** allocate_traits::allocate on behalf of a buffer. */
    method Take(n: nat, new_: nat) returns (r: nat)
      requires Consistent(config, heap) && NewBlock(heap.base, new_, BlockBytes(config, n))
      modifies this`heap
      ensures Consistent(config, heap) && r > 0 && r !in old(heap).live && r in heap.live && heap.live[r].count == n
      ensures heap.live == old(heap).live[r := heap.live[r]] && (heap, r) == Allocate(config, old(heap), n, new_)
      ensures heap.live[r].base in heap.base && heap.base[heap.live[r].base] == n * config.elemSize + config.alignment
    {
      AllocateKeeps(config, heap, n, new_);
      var a := Allocate(config, heap, n, new_);
      heap := a.0;
      r := a.1;
    }

    method Give(r: nat, n: nat)
      requires Consistent(config, heap) && r in heap.live && heap.live[r].count == n
      modifies this`heap
      ensures Consistent(config, heap) && heap == Returned(config, old(heap), r)
    {
      DeallocateKeeps(config, heap, r);
      heap := Deallocate(config, heap, r, n);
    }

    /** ~allocation */
    method Destroy(i: nat)
      requires Valid() && i in buffers
      modifies this`heap, this`buffers
      ensures Valid() && buffers == old(buffers) - {i} && heap == Freed(config, old(heap), old(buffers)[i])
    {
      var b := buffers[i];
      if b.pointer != 0 {
        Give(b.pointer, b.capacity);
      }
      OwnersGive(old(heap), heap, buffers, i);
      buffers := buffers - {i};
    }

    /** reserve: a larger block is taken before the old one is given back. */
    method Reserve(i: nat, n: nat, new_: nat)
      requires Valid() && i in buffers && NewBlock(heap.base, new_, BlockBytes(config, n))
      modifies this`heap, this`buffers
      ensures Valid() && (heap, buffers) == Reserved(config, old(heap), old(buffers), i, n, new_)
      ensures buffers.Keys == old(buffers).Keys && forall j :: j in buffers && j != i ==> buffers[j] == old(buffers)[j]
      ensures buffers[i].size == old(buffers)[i].size
      ensures if n <= old(buffers)[i].capacity then buffers == old(buffers) && heap == old(heap) else buffers[i].capacity == n
    {
      if n <= buffers[i].capacity {
        return;
      }
      var r := Replace(i, n, new_);
      buffers := buffers[i := Buffer(r, n, buffers[i].size)];
    }

    /** A new block for a buffer, and the old one, if any, back to the pool. */
    method Replace(i: nat, n: nat, new_: nat) returns (r: nat)
      requires Valid() && i in buffers && n > buffers[i].capacity && NewBlock(heap.base, new_, BlockBytes(config, n))
      modifies this`heap
      ensures Consistent(config, heap) && Owners(heap, buffers[i := Buffer(r, n, buffers[i].size)])
      ensures (heap, r) == Replaced(config, old(heap), buffers[i], n, new_)
    {
      var b := buffers[i];
      r := Take(n, new_);
      ghost var mid := heap;
      assert Holds(old(heap), b);
      if b.pointer != 0 {
        Give(b.pointer, b.capacity);
      }
      OwnersSwap(old(heap), mid, heap, buffers, i, r, n);
    }

    /** resize */
    method Resize(i: nat, n: nat, new_: nat)
      requires Valid() && i in buffers && NewBlock(heap.base, new_, BlockBytes(config, n))
      modifies this`heap, this`buffers
      ensures Valid() && i in buffers && buffers[i].size == n <= buffers[i].capacity
      ensures var (h, b) := Reserved(config, old(heap), old(buffers), i, n, new_);
        heap == h && i in b && buffers == b[i := b[i].(size := n)]
    {
      Reserve(i, n, new_);
      OwnersResize(heap, buffers, i, n);
      buffers := buffers[i := buffers[i].(size := n)];
    }

    /** The owner of a buffer writes byte k of its memory. */
    method Write(i: nat, k: nat, v: bv8)
      requires Valid() && i in buffers && buffers[i].capacity > 0 && k < Payload(config, buffers[i].capacity)
      modifies this`heap
      ensures Valid() && heap == old(heap).(memory := old(heap).memory[buffers[i].pointer + k := User(v)])
    {
      assert Holds(heap, buffers[i]);
      WriteKeeps(config, heap, buffers[i].pointer, k, v);
      heap := heap.(memory := heap.memory[buffers[i].pointer + k := User(v)]);
      OwnersFrame(old(heap), heap, buffers);
    }

    /** clear: no memory is given back. */
    method Clear(i: nat)
      requires Valid() && i in buffers
      modifies this`buffers
      ensures Valid() && buffers == old(buffers)[i := old(buffers)[i].(size := 0)]
    {
      OwnersResize(heap, buffers, i, 0);
      buffers := buffers[i := buffers[i].(size := 0)];
    }

    /** message_buffer(message_buffer&&) */
    method MoveConstruct(i: nat, other: nat)
      requires Valid() && i !in buffers && other in buffers
      modifies this`buffers
      ensures Valid() && buffers == old(buffers)[i := old(buffers)[other]][other := EMPTY]
    {
      OwnersMove(heap, buffers, i, other);
      buffers := buffers[i := buffers[other]][other := EMPTY];
    }

    /** operator=(message_buffer&) of another buffer: its own memory goes back first. */
    method MoveAssign(i: nat, other: nat)
      requires Valid() && i in buffers && other in buffers && i != other
      modifies this`heap, this`buffers
      ensures Valid() && buffers == old(buffers)[i := old(buffers)[other]][other := EMPTY]
      ensures heap == Freed(config, old(heap), old(buffers)[i])
    {
      MoveOver(buffers, i, other);
      Destroy(i);
      MoveConstruct(i, other);
    }
  }

  // How the ownership changes.

  lemma {:induction false} OwnersFrame(h: Heap, g: Heap, buffers: map<nat, Buffer>)
    requires Owners(h, buffers) && g.live == h.live
    ensures Owners(g, buffers)
  {
    forall j | j in buffers
      ensures Holds(g, buffers[j])
    {
      assert Holds(h, buffers[j]);
    }
  }

  lemma {:induction false} OwnersEmpty(h: Heap, buffers: map<nat, Buffer>, i: nat)
    requires Owners(h, buffers) && i !in buffers
    ensures Owners(h, buffers[i := EMPTY])
  {
    var now := buffers[i := EMPTY];
    forall j | j in now
      ensures Holds(h, now[j])
    {
      assert j != i ==> Holds(h, buffers[j]);
    }
    forall s | s in h.live
      ensures exists j :: j in now && now[j].capacity > 0 && now[j].pointer == s
    {
      var j :| j in buffers && buffers[j].capacity > 0 && buffers[j].pointer == s;
      assert now[j].pointer == s;
    }
  }

  lemma {:induction false} OwnersTake(h: Heap, g: Heap, buffers: map<nat, Buffer>, i: nat, r: nat, n: nat, size: nat)
    requires Owners(h, buffers) && i !in buffers && r !in h.live && r > 0 && r in g.live && n > 0 && size <= n
    requires g.live == h.live[r := g.live[r]] && g.live[r].count == n
    ensures Owners(g, buffers[i := Buffer(r, n, size)])
  {
    var now := buffers[i := Buffer(r, n, size)];
    forall s | s in g.live
      ensures exists j :: j in now && now[j].capacity > 0 && now[j].pointer == s
    {
      if s == r {
        assert now[i].pointer == s;
      } else {
        var j :| j in buffers && buffers[j].capacity > 0 && buffers[j].pointer == s;
        assert now[j].pointer == s;
      }
    }
    forall j | j in now
      ensures Holds(g, now[j])
    {
      assert j != i ==> Holds(h, buffers[j]);
    }
  }

  lemma {:induction false} OwnersGive(h: Heap, g: Heap, buffers: map<nat, Buffer>, i: nat)
    requires Owners(h, buffers) && i in buffers
    requires g.live == if buffers[i].pointer != 0 then h.live - {buffers[i].pointer} else h.live
    ensures Owners(g, buffers - {i})
  {
    var now := buffers - {i};
    assert Holds(h, buffers[i]);
    forall s | s in g.live
      ensures exists j :: j in now && now[j].capacity > 0 && now[j].pointer == s
    {
      var j :| j in buffers && buffers[j].capacity > 0 && buffers[j].pointer == s;
      assert j in now;
    }
    forall j | j in now
      ensures Holds(g, now[j])
    {
      assert Holds(h, buffers[j]);
    }
  }

  lemma {:induction false} OwnersSwap(h: Heap, mid: Heap, g: Heap, buffers: map<nat, Buffer>, i: nat, r: nat, n: nat)
    requires Owners(h, buffers) && i in buffers && r !in h.live && r > 0 && r in mid.live && n > buffers[i].capacity
    requires mid.live == h.live[r := mid.live[r]] && mid.live[r].count == n
    requires g.live == if buffers[i].pointer != 0 then mid.live - {buffers[i].pointer} else mid.live
    ensures Owners(g, buffers[i := Buffer(r, n, buffers[i].size)])
  {
    var b := buffers[i];
    assert Holds(h, b);
    var without := h.(live := if b.pointer != 0 then h.live - {b.pointer} else h.live);
    OwnersGive(h, without, buffers, i);
    SwapLive(h.live, mid.live, b.pointer, r);
    OwnersTake(without, g, buffers - {i}, i, r, n, b.size);
    SameReplacement(buffers, i, Buffer(r, n, b.size));
  }

  lemma {:induction false} SwapLive(live: map<nat, Block>, mid: map<nat, Block>, p: nat, r: nat)
    requires r in mid && r !in live && mid == live[r := mid[r]] && (p != 0 ==> p in live)
    ensures var gone := if p != 0 then mid - {p} else mid;
      r in gone && gone[r] == mid[r] && gone == (if p != 0 then live - {p} else live)[r := gone[r]]
  {
  }

  lemma {:induction false} SameReplacement(buffers: map<nat, Buffer>, i: nat, b: Buffer)
    ensures (buffers - {i})[i := b] == buffers[i := b]
  {
  }

  lemma {:induction false} OwnersResize(h: Heap, buffers: map<nat, Buffer>, i: nat, n: nat)
    requires Owners(h, buffers) && i in buffers && n <= buffers[i].capacity
    ensures Owners(h, buffers[i := buffers[i].(size := n)])
  {
    var now := buffers[i := buffers[i].(size := n)];
    forall j | j in now
      ensures Holds(h, now[j])
    {
      assert Holds(h, buffers[j]);
    }
    forall s | s in h.live
      ensures exists j :: j in now && now[j].capacity > 0 && now[j].pointer == s
    {
      var j :| j in buffers && buffers[j].capacity > 0 && buffers[j].pointer == s;
      assert now[j].pointer == s;
    }
  }

  lemma {:induction false} MoveOver(buffers: map<nat, Buffer>, i: nat, other: nat)
    requires i in buffers && other in buffers && i != other
    ensures other in buffers - {i} && (buffers - {i})[other] == buffers[other]
    ensures (buffers - {i})[i := buffers[other]][other := EMPTY] == buffers[i := buffers[other]][other := EMPTY]
  {
    assert (buffers - {i})[i := buffers[other]] == buffers[i := buffers[other]];
  }

  lemma {:induction false} OwnersMove(h: Heap, buffers: map<nat, Buffer>, i: nat, other: nat)
    requires Owners(h, buffers) && i !in buffers && other in buffers
    ensures Owners(h, buffers[i := buffers[other]][other := EMPTY])
  {
    var now := buffers[i := buffers[other]][other := EMPTY];
    forall j | j in now
      ensures Holds(h, now[j])
    {
      assert Holds(h, buffers[if j == i then other else j]);
    }
    forall s | s in h.live
      ensures exists j :: j in now && now[j].capacity > 0 && now[j].pointer == s
    {
      var j :| j in buffers && buffers[j].capacity > 0 && buffers[j].pointer == s;
      assert now[if j == other then i else j].pointer == s;
    }
  }

  /** Once all buffers are gone, all base memory is in the pool: its destructor gives each block
      back once, with the size it was allocated with. */
  lemma {:induction false} AllReturned(c: Config, h: Heap)
    requires Consistent(c, h) && Owners(h, map[])
    ensures h.live == map[]
    ensures forall p, n :: p in h.base && h.base[p] == n <==> IsFree(h.free, p, n)
  {
    forall p | p in h.base
      ensures IsFree(h.free, p, h.base[p])
    {
      assert Used(c, h, p) || IsFree(h.free, p, h.base[p]);
    }
  }
}
