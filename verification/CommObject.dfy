// The buffered communication object (communication_object_2.hpp): tag offsets, buffer layout,
// and the exchange / wait life cycle. One device; buffers are keyed by
// (receiving domain id, sending domain id).

module CommObject {
  import opened MixedRadix
  import opened LoopNest
  import opened OrderedMap
  import opened Pattern

  datatype Option<+T> = None | Some(value: T)

  /** Identity of a field: the id of the domain it lives on and its number among the fields
      of that domain. */
  datatype FieldPtr = FieldPtr(domain: int, slot: nat)

  datatype FieldInfo = FieldInfo(field: FieldPtr, spaces: seq<SpacePair>, offset: nat)

  datatype Buffer = Buffer(address: int, tag: int, size: nat, infos: seq<FieldInfo>)

  type Memory = seq<Entry<Buffer>>

  /** One buffer_info handed to exchange: a field bound to the pattern of its domain. The
      container is the pattern container's identity, maxTag its largest tag. */
  datatype Arg = Arg(container: int, maxTag: nat, domain: int, recv: HaloMap, send: HaloMap,
                     field: FieldPtr, elemSize: nat, align: nat, comps: nat)

  ghost predicate ValidArg(a: Arg) {
    a.elemSize > 0 && a.align > 0
  }

  // ------------------------------------------------------------------ number of elements

  function BoxSize(p: SpacePair): int {
    if |p.local.first| == |p.local.last| then Product(Extents(p.local.first, p.local.last)) else 0
  }

  function NumElements(spaces: seq<SpacePair>): int {
    if spaces == [] then 0 else NumElements(spaces[..|spaces| - 1]) + BoxSize(spaces[|spaces| - 1])
  }

  /** iteration_space::size. */
  method SpaceSize(p: SpacePair) returns (s: int)
    requires |p.local.first| == |p.local.last| > 0
    ensures s == BoxSize(p)
  {
    ghost var e := Extents(p.local.first, p.local.last);
    s := p.local.last[0] - p.local.first[0] + 1;
    var i := 1;
    while i < |p.local.first|
      invariant 1 <= i <= |e|
      invariant s * Product(e[i..]) == Product(e)
    {
      assert e[i..][1..] == e[i + 1..];
      MulShuffle(s, e[i], Product(e[i + 1..]));
      assert s * (e[i] * Product(e[i + 1..])) == s * e[i] * Product(e[i + 1..]);
      s := s * (p.local.last[i] - p.local.first[i] + 1);
      i := i + 1;
    }
    assert e[i..] == [];
  }

  /** pattern::num_elements. */
  method CountElements(spaces: seq<SpacePair>) returns (s: int)
    requires forall l :: 0 <= l < |spaces| ==> |spaces[l].local.first| == |spaces[l].local.last| > 0
    ensures s == NumElements(spaces)
  {
    s := 0;
    for l := 0 to |spaces|
      invariant s == NumElements(spaces[..l])
    {
      assert spaces[..l + 1][..l] == spaces[..l];
      var n := SpaceSize(spaces[l]);
      s := s + n;
    }
    assert spaces[..|spaces|] == spaces;
  }

  // ------------------------------------------------------------------ tag offsets

  /** Container c occurs among the first n arguments. */
  predicate Met(args: seq<Arg>, c: int, n: nat)
    requires n <= |args|
  {
    n > 0 && (args[n - 1].container == c || Met(args, c, n - 1))
  }

  /** max_tag after the first n arguments: every container counts once, when first met. */
  function TagsUsed(args: seq<Arg>, n: nat): nat
    requires n <= |args|
  {
    if n == 0 then 0
    else TagsUsed(args, n - 1) + if Met(args, args[n - 1].container, n - 1) then 0 else args[n - 1].maxTag + 1
  }

  /** Offset of container c in pat_ptr_map after the first n arguments: the value of max_tag
      when c was first met. */
  function OffsetAfter(args: seq<Arg>, c: int, n: nat): nat
    requires n <= |args|
  {
    if n == 0 then 0
    else if args[n - 1].container == c && !Met(args, c, n - 1) then TagsUsed(args, n - 1)
    else OffsetAfter(args, c, n - 1)
  }

  function TagOffset(args: seq<Arg>, c: int): nat {
    OffsetAfter(args, c, |args|)
  }

  ghost predicate OffsetMap(m: map<int, nat>, args: seq<Arg>, k: nat)
    requires k <= |args|
  {
    && (forall c :: c in m <==> Met(args, c, k))
    && (forall c :: c in m ==> m[c] == OffsetAfter(args, c, k))
  }

  lemma {:induction false} OffsetsKnown(m: map<int, nat>, args: seq<Arg>)
    requires OffsetMap(m, args, |args|)
    ensures forall k :: 0 <= k < |args| ==>
      args[k].container in m && m[args[k].container] == TagOffset(args, args[k].container)
  {
    forall k | 0 <= k < |args|
      ensures Met(args, args[k].container, |args|)
    {
      MetAt(args, k, |args|);
    }
  }

  lemma {:induction false} MetAt(args: seq<Arg>, k: nat, n: nat)
    requires k < n <= |args|
    ensures Met(args, args[k].container, n)
    decreases n
  {
    if k < n - 1 {
      MetAt(args, k, n - 1);
    }
  }

  /** Argument k is the first one of its container. */
  ghost predicate FirstOf(args: seq<Arg>, k: nat) {
    k < |args| && forall m :: 0 <= m < k ==> args[m].container != args[k].container
  }

  /** Arguments l and k are the first ones of two containers, with no other container's first one
      between them. */
  ghost predicate NextOf(args: seq<Arg>, l: nat, k: nat) {
    l < k && FirstOf(args, l) && FirstOf(args, k) && forall m: nat :: l < m < k ==> !FirstOf(args, m)
  }

  lemma {:induction false} MetIffNotFirst(args: seq<Arg>, k: nat)
    requires k < |args|
    ensures Met(args, args[k].container, k) <==> !FirstOf(args, k)
  {
    if Met(args, args[k].container, k) {
      var m := MetWitness(args, args[k].container, k);
    }
    if !FirstOf(args, k) {
      var m :| 0 <= m < k && args[m].container == args[k].container;
      MetAt(args, m, k);
    }
  }

  lemma {:induction false} FirstOffset(args: seq<Arg>, k: nat, n: nat)
    requires FirstOf(args, k) && k < n <= |args|
    ensures OffsetAfter(args, args[k].container, n) == TagsUsed(args, k)
    decreases n
  {
    MetIffNotFirst(args, k);
    if k < n - 1 {
      MetAt(args, k, n - 1);
      FirstOffset(args, k, n - 1);
    }
  }

  lemma {:induction false} NoTagsBetween(args: seq<Arg>, l: nat, k: nat)
    requires l < k <= |args| && FirstOf(args, l) && forall m: nat :: l < m < k ==> !FirstOf(args, m)
    ensures TagsUsed(args, k) == TagsUsed(args, l) + args[l].maxTag + 1
    decreases k
  {
    MetIffNotFirst(args, k - 1);
    if l < k - 1 {
      NoTagsBetween(args, l, k - 1);
    }
  }

  /** The tag ranges of the containers lie end to end, in the order in which they are met. */
  ghost predicate Gapless(args: seq<Arg>, offsets: seq<nat>)
    requires |offsets| == |args|
  {
    && (args != [] ==> offsets[0] == 0)
    && (forall k, l :: 0 <= k < |args| && 0 <= l < |args| && args[k].container == args[l].container ==> offsets[k] == offsets[l])
    && forall l: nat, k: nat :: NextOf(args, l, k) ==> offsets[k] == offsets[l] + args[l].maxTag + 1
  }

  lemma {:induction false} NoGaps(args: seq<Arg>, offsets: seq<nat>)
    requires |offsets| == |args| && forall k :: 0 <= k < |args| ==> offsets[k] == TagOffset(args, args[k].container)
    ensures Gapless(args, offsets)
  {
    if args != [] {
      FirstOffset(args, 0, |args|);
    }
    forall l: nat, k: nat | NextOf(args, l, k)
      ensures offsets[k] == offsets[l] + args[l].maxTag + 1
    {
      FirstOffset(args, l, |args|);
      FirstOffset(args, k, |args|);
      NoTagsBetween(args, l, k);
    }
  }

  /** Builds pat_ptr_map and reads the offset of every argument from it. */
  method TagOffsets(args: seq<Arg>) returns (offsets: seq<nat>)
    ensures |offsets| == |args| && Gapless(args, offsets)
    ensures forall k :: 0 <= k < |args| ==> offsets[k] == TagOffset(args, args[k].container)
  {
    var patPtrMap: map<int, nat> := map[];
    var maxTag := 0;
    for k := 0 to |args|
      invariant maxTag == TagsUsed(args, k)
      invariant OffsetMap(patPtrMap, args, k)
    {
      var c := args[k].container;
      if c !in patPtrMap {
        patPtrMap := patPtrMap[c := maxTag];
        maxTag := maxTag + (args[k].maxTag + 1);
      }
    }
    OffsetsKnown(patPtrMap, args);
    offsets := seq(|args|, k requires 0 <= k < |args| => patPtrMap[args[k].container]);
    NoGaps(args, offsets);
  }

  /** A container's largest tag does not depend on the argument it is reached through. */
  ghost predicate SameMaxTag(args: seq<Arg>) {
    forall k, l ::
      0 <= k < |args| && 0 <= l < |args| && args[k].container == args[l].container ==> args[k].maxTag == args[l].maxTag
  }

  lemma {:induction false} MetWitness(args: seq<Arg>, c: int, n: nat) returns (k: nat)
    requires n <= |args| && Met(args, c, n)
    ensures k < n && args[k].container == c
    decreases n
  {
    k := n - 1;
    if args[n - 1].container != c {
      k := MetWitness(args, c, n - 1);
    }
  }

  lemma {:induction false} OffsetBelow(args: seq<Arg>, k: nat, n: nat)
    requires SameMaxTag(args) && k < n <= |args|
    ensures OffsetAfter(args, args[k].container, n) + args[k].maxTag < TagsUsed(args, n)
    decreases n
  {
    var c := args[k].container;
    if Met(args, c, n - 1) {
      var l := MetWitness(args, c, n - 1);
      OffsetBelow(args, l, n - 1);
    } else if k < n - 1 {
      MetAt(args, k, n - 1);
    }
  }

  lemma {:induction false} RangesDisjointAfter(args: seq<Arg>, k: nat, l: nat, n: nat)
    requires SameMaxTag(args) && k < n <= |args| && l < n && args[k].container != args[l].container
    ensures var x, y := OffsetAfter(args, args[k].container, n), OffsetAfter(args, args[l].container, n);
      x + args[k].maxTag < y || y + args[l].maxTag < x
    decreases n
  {
    var c, d := args[k].container, args[l].container;
    if Met(args, c, n - 1) && Met(args, d, n - 1) {
      var k' := MetWitness(args, c, n - 1);
      var l' := MetWitness(args, d, n - 1);
      RangesDisjointAfter(args, k', l', n - 1);
    } else if Met(args, c, n - 1) {
      var k' := MetWitness(args, c, n - 1);
      OffsetBelow(args, k', n - 1);
      if l < n - 1 {
        MetAt(args, l, n - 1);
      }
    } else {
      if k < n - 1 {
        MetAt(args, k, n - 1);
      }
      MetAt(args, l, n - 1);
      OffsetBelow(args, l, n - 1);
    }
  }

  /** Different containers use disjoint tag ranges. */
  lemma {:induction false} TagRangesDisjoint(args: seq<Arg>, k: nat, l: nat)
    requires SameMaxTag(args) && k < |args| && l < |args|
    requires args[k].container != args[l].container
    ensures TagOffset(args, args[k].container) + args[k].maxTag < TagOffset(args, args[l].container)
         || TagOffset(args, args[l].container) + args[l].maxTag < TagOffset(args, args[k].container)
  {
    RangesDisjointAfter(args, k, l, |args|);
  }

  // ------------------------------------------------------------------ buffer layout

  /** What one halo of one field adds to a buffer. */
  datatype Piece = Piece(address: int, tag: int, spaces: seq<SpacePair>, field: FieldPtr,
                         elemSize: nat, align: nat, count: nat)

  function Aligned(size: nat, align: nat): nat
    requires align > 0
  {
    var r := (size + align - 1) / align;
    assert r >= 0;
    r * align
  }

  lemma {:induction false} AlignedUp(size: nat, align: nat)
    requires align > 0
    ensures size <= Aligned(size, align) < size + align
    ensures Aligned(size, align) % align == 0
  {
    var n := size + align - 1;
    var q := n / align;
    DivNat(n, align);
    assert n == q * align + n % align;
    ModMultiple(q, align);
  }

  lemma {:induction false} ModMultiple(q: nat, a: nat)
    requires a > 0
    ensures (q * a) % a == 0
  {
    DivUnique(q * a, a, q, 0);
  }

  /** The state of a buffer before a piece is appended: created, recycled or continued. */
  function Opened(b: Option<Buffer>, p: Piece): Buffer {
    if b.None? then Buffer(p.address, p.tag, 0, [])
    else if b.value.size == 0 then Buffer(p.address, p.tag, b.value.size, [])
    else b.value
  }

  function Appended(b: Buffer, p: Piece): Buffer
    requires p.align > 0
  {
    AlignedUp(b.size, p.align);
    var padding := Aligned(b.size, p.align) - b.size;
    Buffer(b.address, b.tag, b.size + padding + p.count * p.elemSize,
           b.infos + [FieldInfo(p.field, p.spaces, b.size + padding)])
  }

  function Lookup(m: Memory, k: Key): Option<Buffer> {
    if Contains(m, k) then Some(Get(m, k)) else None
  }

  function BufferKey(a: Arg, e: Entry<Halo>, receive: bool): Key {
    if receive then Key(a.domain, e.key.major) else Key(e.key.major, a.domain)
  }

  function PieceOf(a: Arg, e: Entry<Halo>, offset: nat): Piece
    requires NumElements(e.val.spaces) * a.comps >= 0
  {
    Piece(e.val.rank, e.key.minor + offset, e.val.spaces, a.field, a.elemSize, a.align,
          NumElements(e.val.spaces) * a.comps)
  }

  /** Body of the allocate loop for one halo. */
  function AllocateOne(m: Memory, a: Arg, e: Entry<Halo>, offset: nat, receive: bool): Memory
    requires a.align > 0
  {
    if NumElements(e.val.spaces) * a.comps < 1 then m
    else
      var k := BufferKey(a, e, receive);
      var p := PieceOf(a, e, offset);
      Put(m, k, Appended(Opened(Lookup(m, k), p), p))
  }

  function AllocateHalos(m: Memory, a: Arg, halos: HaloMap, offset: nat, receive: bool, n: nat): Memory
    requires a.align > 0 && n <= |halos|
  {
    if n == 0 then m
    else AllocateOne(AllocateHalos(m, a, halos, offset, receive, n - 1), a, halos[n - 1], offset, receive)
  }

  function Halos(a: Arg, receive: bool): HaloMap {
    if receive then a.recv else a.send
  }

  function AllocateArgs(m: Memory, args: seq<Arg>, receive: bool, n: nat): Memory
    requires n <= |args| && forall k :: 0 <= k < |args| ==> args[k].align > 0
  {
    if n == 0 then m
    else
      var a := args[n - 1];
      AllocateHalos(AllocateArgs(m, args, receive, n - 1), a, Halos(a, receive),
                    TagOffset(args, a.container), receive, |Halos(a, receive)|)
  }

  ghost predicate SpacesShaped(halos: HaloMap) {
    forall j, l :: 0 <= j < |halos| && 0 <= l < |halos[j].val.spaces| ==>
      |halos[j].val.spaces[l].local.first| == |halos[j].val.spaces[l].local.last| > 0
  }

  /** allocate: lays the halos of one field out in the buffers. */
  method Allocate(m: Memory, a: Arg, halos: HaloMap, offset: nat, receive: bool) returns (r: Memory)
    requires ValidArg(a) && SpacesShaped(halos)
    ensures r == AllocateHalos(m, a, halos, offset, receive, |halos|)
  {
    r := m;
    for j := 0 to |halos|
      invariant r == AllocateHalos(m, a, halos, offset, receive, j)
    {
      var e := halos[j];
      var elements := CountElements(e.val.spaces);
      var numElements := elements * a.comps;
      if numElements >= 1 {
        var k := BufferKey(a, e, receive);
        var b := FindBuffer(r, k, e, offset, PieceOf(a, e, offset));
        b := AddSlice(b, a, e, numElements, PieceOf(a, e, offset));
        r := Put(r, k, b);
      }
    }
  }

  /** The buffer of a domain pair: found, created, or recycled if it holds nothing. */
  method FindBuffer(m: Memory, k: Key, e: Entry<Halo>, offset: nat, ghost p: Piece) returns (b: Buffer)
    requires p.address == e.val.rank && p.tag == e.key.minor + offset
    ensures b == Opened(Lookup(m, k), p)
    ensures Contains(m, k) && Get(m, k).size > 0 ==> b == Get(m, k)
    ensures !Contains(m, k) || Get(m, k).size == 0 ==> b == Buffer(e.val.rank, e.key.minor + offset, 0, [])
  {
    if !Contains(m, k) {
      b := Buffer(e.val.rank, e.key.minor + offset, 0, []);
    } else {
      b := Get(m, k);
      if b.size == 0 {
        b := Buffer(e.val.rank, e.key.minor + offset, b.size, []);
      }
    }
  }

  /** A slice for numElements elements at the next aligned position. */
  method AddSlice(b: Buffer, a: Arg, e: Entry<Halo>, numElements: nat, ghost p: Piece) returns (r: Buffer)
    requires a.align > 0 && p.align == a.align && p.elemSize == a.elemSize && p.count == numElements
    requires p.field == a.field && p.spaces == e.val.spaces
    ensures r == Appended(b, p)
    ensures r.address == b.address && r.tag == b.tag && |r.infos| == |b.infos| + 1 && r.infos[..|b.infos|] == b.infos
    ensures r.infos[|b.infos|].field == a.field && r.infos[|b.infos|].spaces == e.val.spaces
    ensures var offset := r.infos[|b.infos|].offset;
      b.size <= offset < b.size + a.align && offset % a.align == 0 && r.size == offset + numElements * a.elemSize
  {
    AlignedUp(b.size, a.align);
    var padding := Aligned(b.size, a.align) - b.size;
    r := Buffer(b.address, b.tag, b.size + padding + numElements * a.elemSize,
                b.infos + [FieldInfo(a.field, e.val.spaces, b.size + padding)]);
  }

  // ------------------------------------------------------------------ one buffer at a time

  ghost predicate ArgsOk(args: seq<Arg>) {
    forall k :: 0 <= k < |args| ==> ValidArg(args[k]) && SpacesShaped(args[k].recv) && SpacesShaped(args[k].send)
  }

  /** Pieces that the first n halos of an argument add to the buffer with the given key. */
  function HaloPieces(a: Arg, halos: HaloMap, offset: nat, receive: bool, key: Key, n: nat): seq<Piece>
    requires n <= |halos|
  {
    if n == 0 then []
    else
      var before := HaloPieces(a, halos, offset, receive, key, n - 1);
      var e := halos[n - 1];
      if NumElements(e.val.spaces) * a.comps >= 1 && BufferKey(a, e, receive) == key
      then before + [PieceOf(a, e, offset)] else before
  }

  function ArgPieces(args: seq<Arg>, receive: bool, key: Key, n: nat): seq<Piece>
    requires n <= |args|
  {
    if n == 0 then []
    else
      var a := args[n - 1];
      ArgPieces(args, receive, key, n - 1)
      + HaloPieces(a, Halos(a, receive), TagOffset(args, a.container), receive, key, |Halos(a, receive)|)
  }

  ghost predicate PiecesOk(ps: seq<Piece>) {
    forall i :: 0 <= i < |ps| ==> ps[i].align > 0 && ps[i].elemSize > 0 && ps[i].count > 0
  }

  /** The buffer after appending the pieces one by one. */
  ghost function Fill(b: Option<Buffer>, ps: seq<Piece>): Option<Buffer>
    requires PiecesOk(ps)
  {
    if ps == [] then b
    else
      var p := ps[|ps| - 1];
      Some(Appended(Opened(Fill(b, ps[..|ps| - 1]), p), p))
  }

  lemma {:induction false} FillAppend(b: Option<Buffer>, ps: seq<Piece>, qs: seq<Piece>)
    requires PiecesOk(ps) && PiecesOk(qs)
    ensures PiecesOk(ps + qs)
    ensures Fill(b, ps + qs) == Fill(Fill(b, ps), qs)
    decreases |qs|
  {
    if qs == [] {
      assert ps + qs == ps;
    } else {
      FillAppend(b, ps, qs[..|qs| - 1]);
      assert (ps + qs)[..|ps + qs| - 1] == ps + qs[..|qs| - 1];
    }
  }

  lemma {:induction false} HaloPiecesOk(a: Arg, halos: HaloMap, offset: nat, receive: bool, key: Key, n: nat)
    requires ValidArg(a) && n <= |halos|
    ensures PiecesOk(HaloPieces(a, halos, offset, receive, key, n))
  {
    if n > 0 {
      HaloPiecesOk(a, halos, offset, receive, key, n - 1);
    }
  }

  lemma {:induction false} ArgPiecesOk(args: seq<Arg>, receive: bool, key: Key, n: nat)
    requires ArgsOk(args) && n <= |args|
    ensures PiecesOk(ArgPieces(args, receive, key, n))
  {
    if n > 0 {
      ArgPiecesOk(args, receive, key, n - 1);
      var a := args[n - 1];
      HaloPiecesOk(a, Halos(a, receive), TagOffset(args, a.container), receive, key, |Halos(a, receive)|);
    }
  }

  lemma {:induction false} LookupPut(m: Memory, k: Key, b: Buffer, key: Key)
    requires Sorted(m)
    ensures Sorted(Put(m, k, b))
    ensures Lookup(Put(m, k, b), key) == if key == k then Some(b) else Lookup(m, key)
  {
    PutSorted(m, k, b);
    PutGet(m, k, b, key, b);
    if key != k && Contains(m, key) {
      PutGet(m, k, b, key, Get(m, key));
      GetIn(m, key, Get(m, key));
      PutIn(m, k, b, Entry(key, Get(m, key)));
      GetIn(Put(m, k, b), key, Get(m, key));
    }
  }

  lemma {:induction false} HalosLookup(m: Memory, a: Arg, halos: HaloMap, offset: nat, receive: bool, n: nat, key: Key)
    requires Sorted(m) && ValidArg(a) && n <= |halos|
    ensures Sorted(AllocateHalos(m, a, halos, offset, receive, n))
    ensures PiecesOk(HaloPieces(a, halos, offset, receive, key, n))
    ensures Lookup(AllocateHalos(m, a, halos, offset, receive, n), key)
         == Fill(Lookup(m, key), HaloPieces(a, halos, offset, receive, key, n))
  {
    HaloPiecesOk(a, halos, offset, receive, key, n);
    if n > 0 {
      HalosLookup(m, a, halos, offset, receive, n - 1, key);
      var e := halos[n - 1];
      if NumElements(e.val.spaces) * a.comps >= 1 {
        var before := AllocateHalos(m, a, halos, offset, receive, n - 1);
        var k, p := BufferKey(a, e, receive), PieceOf(a, e, offset);
        var ps := HaloPieces(a, halos, offset, receive, key, n - 1);
        assert (ps + [p])[..|ps|] == ps;
        LookupPut(before, k, Appended(Opened(Lookup(before, k), p), p), key);
      }
    }
  }

  /** A buffer depends only on its own pieces, in argument order. */
  lemma {:induction false} ArgsLookup(m: Memory, args: seq<Arg>, receive: bool, n: nat, key: Key)
    requires Sorted(m) && ArgsOk(args) && n <= |args|
    ensures Sorted(AllocateArgs(m, args, receive, n))
    ensures PiecesOk(ArgPieces(args, receive, key, n))
    ensures Lookup(AllocateArgs(m, args, receive, n), key) == Fill(Lookup(m, key), ArgPieces(args, receive, key, n))
  {
    ArgPiecesOk(args, receive, key, n);
    if n > 0 {
      ArgsLookup(m, args, receive, n - 1, key);
      var a := args[n - 1];
      var off := TagOffset(args, a.container);
      HalosLookup(AllocateArgs(m, args, receive, n - 1), a, Halos(a, receive), off, receive, |Halos(a, receive)|, key);
      FillAppend(Lookup(m, key), ArgPieces(args, receive, key, n - 1),
                 HaloPieces(a, Halos(a, receive), off, receive, key, |Halos(a, receive)|));
    }
  }

  // ------------------------------------------------------------------ layout

  function End(p: Piece, f: FieldInfo): nat {
    f.offset + p.count * p.elemSize
  }

  /** The slices of the pieces: each at the first multiple of its alignment behind the one before,
      the first at 0, and the last one filling the buffer. */
  ghost predicate LaidOut(b: Buffer, ps: seq<Piece>)
    requires PiecesOk(ps)
  {
    && |b.infos| == |ps| > 0
    && b.address == ps[0].address && b.tag == ps[0].tag
    && (forall i :: 0 <= i < |ps| ==> b.infos[i].field == ps[i].field && b.infos[i].spaces == ps[i].spaces)
    && (forall i :: 0 <= i < |ps| ==> b.infos[i].offset % ps[i].align == 0)
    && b.infos[0].offset == 0
    && (forall i :: 0 < i < |ps| ==> b.infos[i].offset < End(ps[i - 1], b.infos[i - 1]) + ps[i].align)
    && (forall i, j :: 0 <= i < j < |ps| ==> End(ps[i], b.infos[i]) <= b.infos[j].offset)
    && (forall i :: 0 <= i < |ps| ==> End(ps[i], b.infos[i]) <= b.size)
    && End(ps[|ps| - 1], b.infos[|ps| - 1]) == b.size > 0
  }

  lemma {:induction false} AppendedSlice(b: Buffer, p: Piece) returns (offset: nat)
    requires p.align > 0 && p.elemSize > 0 && p.count > 0
    ensures var c := Appended(b, p);
      && c.infos == b.infos + [FieldInfo(p.field, p.spaces, offset)]
      && c.address == b.address && c.tag == b.tag
      && c.size == End(p, FieldInfo(p.field, p.spaces, offset)) > offset
    ensures b.size <= offset < b.size + p.align && offset % p.align == 0
    ensures b.size == 0 ==> offset == 0
  {
    AlignedUp(b.size, p.align);
    AlignedZero(p.align);
    MulPositive(p.count, p.elemSize);
    offset := Aligned(b.size, p.align);
  }

  lemma {:induction false} LaidOutAppend(b: Buffer, ps: seq<Piece>, p: Piece)
    requires PiecesOk(ps) && LaidOut(b, ps)
    requires p.align > 0 && p.elemSize > 0 && p.count > 0
    ensures PiecesOk(ps + [p]) && LaidOut(Appended(b, p), ps + [p])
  {
    var offset := AppendedSlice(b, p);
    var c, qs := Appended(b, p), ps + [p];
    forall i | 0 <= i < |qs|
      ensures c.infos[i] == if i < |ps| then b.infos[i] else FieldInfo(p.field, p.spaces, offset)
      ensures qs[i] == if i < |ps| then ps[i] else p
    {
    }
    forall i, j | 0 <= i < j < |qs|
      ensures End(qs[i], c.infos[i]) <= c.infos[j].offset
    {
      assert End(ps[i], b.infos[i]) <= b.size;
    }
  }

  lemma {:induction false} FirstLaidOut(p: Piece)
    requires p.align > 0 && p.elemSize > 0 && p.count > 0
    ensures PiecesOk([p]) && LaidOut(Appended(Buffer(p.address, p.tag, 0, []), p), [p])
  {
    var offset := AppendedSlice(Buffer(p.address, p.tag, 0, []), p);
  }

  /** Fields of mixed sizes and alignments: every slice is aligned to its type, slices are
      pairwise disjoint and lie inside the buffer. */
  lemma {:induction false} FillLaidOut(ps: seq<Piece>)
    requires PiecesOk(ps) && ps != []
    ensures Fill(None, ps).Some? && LaidOut(Fill(None, ps).value, ps)
    decreases |ps|
  {
    var n := |ps| - 1;
    var p := ps[n];
    assert ps == ps[..n] + [p];
    if n == 0 {
      FirstLaidOut(p);
      assert ps[..0] == [] && ps == [p];
    } else {
      FillLaidOut(ps[..n]);
      LaidOutAppend(Fill(None, ps[..n]).value, ps[..n], p);
    }
  }

  lemma {:induction false} AlignedZero(align: nat)
    requires align > 0
    ensures Aligned(0, align) == 0
  {
    DivUnique(align - 1, align, 0, align - 1);
  }

  ghost predicate SameShape(p: Piece, q: Piece) {
    p.elemSize == q.elemSize && p.align == q.align && p.count == q.count && p.tag == q.tag
  }

  ghost predicate SameShapes(ps: seq<Piece>, qs: seq<Piece>) {
    |ps| == |qs| && forall i :: 0 <= i < |ps| ==> SameShape(ps[i], qs[i])
  }

  ghost predicate SameLayout(a: Buffer, b: Buffer) {
    && a.size == b.size && a.tag == b.tag && |a.infos| == |b.infos|
    && forall i :: 0 <= i < |a.infos| ==> a.infos[i].offset == b.infos[i].offset
  }

  lemma {:induction false} AppendedAgrees(a: Buffer, b: Buffer, p: Piece, q: Piece)
    requires SameLayout(a, b) && SameShape(p, q) && p.align > 0
    ensures SameLayout(Appended(a, p), Appended(b, q))
  {
    var c, d := Appended(a, p), Appended(b, q);
    forall i | 0 <= i < |c.infos|
      ensures c.infos[i].offset == d.infos[i].offset
    {
      if i < |a.infos| {
        assert c.infos[i] == a.infos[i] && d.infos[i] == b.infos[i];
      }
    }
  }

  /** Both ends of a channel compute the same tag, size and offsets from matching pieces. */
  lemma {:induction false} LayoutAgrees(ps: seq<Piece>, qs: seq<Piece>)
    requires PiecesOk(ps) && PiecesOk(qs) && SameShapes(ps, qs) && ps != []
    ensures var a, b := Fill(None, ps), Fill(None, qs);
      && a.Some? && b.Some? && |a.value.infos| == |ps| && SameLayout(a.value, b.value)
    decreases |ps|
  {
    var n := |ps| - 1;
    assert SameShape(ps[n], qs[n]);
    if n > 0 {
      LayoutAgrees(ps[..n], qs[..n]);
      FillLaidOut(ps[..n]);
      FillLaidOut(qs[..n]);
    } else {
      assert ps[..0] == [] && qs[..0] == [];
    }
    AppendedAgrees(Opened(Fill(None, ps[..n]), ps[n]), Opened(Fill(None, qs[..n]), qs[n]), ps[n], qs[n]);
  }
}
