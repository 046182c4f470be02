/**
 * Writing through a list of pointers into the raw buffers they share, and what that does to the
 * bytes the list stands for.
 */
module RopeWrites {
  import opened Registers
  import opened Ropes

  function Overwrite(b: seq<Byte>, at: nat, src: seq<Byte>): (r: seq<Byte>)
    requires at + |src| <= |b|
    ensures |r| == |b|
  {
    b[..at] + src + b[at + |src|..]
  }

  ghost predicate ShapeAt(raws: Raws, raws': Raws, r: RawId) {
    r in raws && r in raws' && |raws[r].bytes| == |raws'[r].bytes| && raws[r].addr == raws'[r].addr
  }

  /** The same raw buffers, of the same sizes, at the same addresses. */
  ghost predicate SameShape(raws: Raws, raws': Raws) {
    raws.Keys == raws'.Keys && forall r {:trigger ShapeAt(raws, raws', r)} | r in raws :: ShapeAt(raws, raws', r)
  }

  ghost predicate BytesAt(raws: Raws, raws': Raws, r: RawId) {
    r in raws && r in raws' && raws[r].bytes == raws'[r].bytes && raws[r].addr == raws'[r].addr
  }

  /** The same raw buffers with the same bytes; only cached checksums may differ. */
  ghost predicate SameBytes(raws: Raws, raws': Raws) {
    raws.Keys == raws'.Keys && forall r {:trigger BytesAt(raws, raws', r)} | r in raws :: BytesAt(raws, raws', r)
  }

  lemma ShapeKeeps(raws: Raws, raws': Raws, ps: seq<Ptr>)
    requires SameShape(raws, raws') && AllIn(raws, ps)
    ensures AllIn(raws', ps)
  {
    forall i | 0 <= i < |ps| ensures InRaw(raws', ps[i]) {
      assert InRaw(raws, ps[i]) && ShapeAt(raws, raws', ps[i].raw);
    }
  }

  lemma ShapeTrans(a: Raws, b: Raws, c: Raws)
    requires SameShape(a, b) && SameShape(b, c)
    ensures SameShape(a, c)
  {
    forall r | r in a ensures ShapeAt(a, c, r) {
      assert ShapeAt(a, b, r) && ShapeAt(b, c, r);
    }
  }

  /** Writing inside one pointer drops the checksums cached for its raw buffer. */
  function WritePtr(raws: Raws, p: Ptr, at: nat, src: seq<Byte>): Raws
    requires InRaw(raws, p) && at + |src| <= p.len
  {
    raws[p.raw := Raw(Overwrite(raws[p.raw].bytes, p.off + at, src), raws[p.raw].addr, map[])]
  }

  lemma WritePtrShape(raws: Raws, p: Ptr, at: nat, src: seq<Byte>)
    requires InRaw(raws, p) && at + |src| <= p.len
    ensures SameShape(raws, WritePtr(raws, p, at, src))
  {
    forall r | r in raws ensures ShapeAt(raws, WritePtr(raws, p, at, src), r) {}
  }

  lemma WritePtrAllIn(raws: Raws, p: Ptr, at: nat, src: seq<Byte>, ps: seq<Ptr>)
    requires InRaw(raws, p) && at + |src| <= p.len && AllIn(raws, ps)
    ensures AllIn(WritePtr(raws, p, at, src), ps)
  {
    WritePtrShape(raws, p, at, src);
    ShapeKeeps(raws, WritePtr(raws, p, at, src), ps);
  }

  /** How much of `n` bytes written at offset `at` of a segment fits in it. */
  function Chunk(p: Ptr, at: nat, n: nat): nat
    requires at <= p.len
  {
    if n < p.len - at then n else p.len - at
  }

  /** The raw buffers after writing `src` over the list from offset `at`, segment by segment. */
  ghost function WriteList(raws: Raws, ps: seq<Ptr>, at: nat, src: seq<Byte>): Raws
    requires AllIn(raws, ps) && at + |src| <= Total(ps)
    decreases |ps|
  {
    if src == [] then raws
    else if at >= ps[0].len then WriteList(raws, ps[1..], at - ps[0].len, src)
    else
      var n := Chunk(ps[0], at, |src|);
      WritePtrAllIn(raws, ps[0], at, src[..n], ps[1..]);
      WriteList(WritePtr(raws, ps[0], at, src[..n]), ps[1..], 0, src[n..])
  }

  lemma {:induction false} WriteListShape(raws: Raws, ps: seq<Ptr>, at: nat, src: seq<Byte>)
    requires AllIn(raws, ps) && at + |src| <= Total(ps)
    ensures SameShape(raws, WriteList(raws, ps, at, src))
    decreases |ps|
  {
    if src == [] {
      forall r | r in raws ensures ShapeAt(raws, raws, r) {}
    } else if at >= ps[0].len {
      WriteListShape(raws, ps[1..], at - ps[0].len, src);
    } else {
      var n := Chunk(ps[0], at, |src|);
      WritePtrShape(raws, ps[0], at, src[..n]);
      WritePtrAllIn(raws, ps[0], at, src[..n], ps[1..]);
      WriteListShape(WritePtr(raws, ps[0], at, src[..n]), ps[1..], 0, src[n..]);
      ShapeTrans(raws, WritePtr(raws, ps[0], at, src[..n]), WriteList(raws, ps, at, src));
    }
  }

  lemma PosInRest(ps: seq<Ptr>, k: nat)
    requires 0 < k <= |ps|
    ensures Total(ps[..k]) == ps[0].len + Total(ps[1..][..k - 1])
  {
    assert ps[..k][1..] == ps[1..][..k - 1];
  }

  /** A write starts in the segment its offset lies in. */
  lemma {:induction false} WriteFrom(raws: Raws, ps: seq<Ptr>, k: nat, d: nat, src: seq<Byte>)
    requires AllIn(raws, ps) && k <= |ps| && Total(ps[..k]) + d + |src| <= Total(ps)
    ensures d + |src| <= Total(ps[k..])
    ensures WriteList(raws, ps, Total(ps[..k]) + d, src) == WriteList(raws, ps[k..], d, src)
    decreases k
  {
    TotalCut(ps, k);
    if k == 0 {
      assert ps[..0] == [] && ps[0..] == ps;
    } else {
      PosInRest(ps, k);
      assert ps[1..][k - 1..] == ps[k..];
      TotalCut(ps[1..], k - 1);
      WriteFrom(raws, ps[1..], k - 1, d, src);
    }
  }

  lemma SuffixTail(ps: seq<Ptr>, k: nat)
    requires k < |ps|
    ensures ps[k..][0] == ps[k] && ps[k..][1..] == ps[k + 1..]
  {
  }

  /** A write can be done one segment at a time. */
  lemma {:induction false} WriteStep(raws: Raws, ps: seq<Ptr>, k: nat, d: nat, src: seq<Byte>, n: nat)
    requires AllIn(raws, ps) && k < |ps| && d < ps[k].len && src != [] && Total(ps[..k]) + d + |src| <= Total(ps)
    requires n == Chunk(ps[k], d, |src|)
    ensures AllIn(WritePtr(raws, ps[k], d, src[..n]), ps)
    ensures WriteList(raws, ps, Total(ps[..k]) + d, src) ==
            WriteList(WritePtr(raws, ps[k], d, src[..n]), ps, Total(ps[..k]) + d + n, src[n..])
  {
    var first := WritePtr(raws, ps[k], d, src[..n]);
    WritePtrAllIn(raws, ps[k], d, src[..n], ps);
    WriteFrom(raws, ps, k, d, src);
    SuffixTail(ps, k);
    if n < |src| {
      TotalNext(ps, k);
      WriteFrom(first, ps, k + 1, 0, src[n..]);
    }
  }

  // ---------------------------------------------------------------- writes refine overwriting

  predicate Overlap(p: Ptr, q: Ptr) {
    p.raw == q.raw && 0 < p.len && 0 < q.len && p.off < q.Stop() && q.off < p.Stop()
  }

  predicate NoOverlap(ps: seq<Ptr>) {
    forall i, j {:trigger ps[i], ps[j]} | 0 <= i < j < |ps| :: !Overlap(ps[i], ps[j])
  }

  lemma WritePtrOutside(raws: Raws, p: Ptr, at: nat, src: seq<Byte>, q: Ptr)
    requires InRaw(raws, p) && at + |src| <= p.len && InRaw(raws, q) && !Overlap(p, q)
    ensures InRaw(WritePtr(raws, p, at, src), q) && Bytes(WritePtr(raws, p, at, src), q) == Bytes(raws, q)
  {
  }

  lemma WritePtrInside(raws: Raws, p: Ptr, at: nat, src: seq<Byte>)
    requires InRaw(raws, p) && at + |src| <= p.len
    ensures InRaw(WritePtr(raws, p, at, src), p)
    ensures Bytes(WritePtr(raws, p, at, src), p) == Overwrite(Bytes(raws, p), at, src)
  {
    OverwriteInside(raws[p.raw].bytes, p.off, p.len, at, src);
  }

  lemma OverwriteInside(b: seq<Byte>, off: nat, len: nat, at: nat, src: seq<Byte>)
    requires off + len <= |b| && at + |src| <= len
    ensures Overwrite(b, off + at, src)[off..off + len] == Overwrite(b[off..off + len], at, src)
  {
    var mid := b[off..off + len];
    assert b[..off + at] == b[..off] + mid[..at];
    assert b[off + at + |src|..] == mid[at + |src|..] + b[off + len..];
    assert Overwrite(b, off + at, src) == b[..off] + Overwrite(mid, at, src) + b[off + len..];
  }

  lemma {:induction false} FlatOutside(raws: Raws, p: Ptr, at: nat, src: seq<Byte>, ps: seq<Ptr>)
    requires InRaw(raws, p) && at + |src| <= p.len && AllIn(raws, ps)
    requires forall i {:trigger ps[i]} | 0 <= i < |ps| :: !Overlap(p, ps[i])
    ensures AllIn(WritePtr(raws, p, at, src), ps) && Flat(WritePtr(raws, p, at, src), ps) == Flat(raws, ps)
  {
    WritePtrAllIn(raws, p, at, src, ps);
    if ps != [] {
      WritePtrOutside(raws, p, at, src, ps[0]);
      FlatOutside(raws, p, at, src, ps[1..]);
    }
  }

  lemma {:induction false} WriteListOutside(raws: Raws, ps: seq<Ptr>, at: nat, src: seq<Byte>, q: Ptr)
    requires AllIn(raws, ps) && at + |src| <= Total(ps) && InRaw(raws, q)
    requires forall i {:trigger ps[i]} | 0 <= i < |ps| :: !Overlap(ps[i], q)
    ensures InRaw(WriteList(raws, ps, at, src), q) && Bytes(WriteList(raws, ps, at, src), q) == Bytes(raws, q)
    decreases |ps|
  {
    if src == [] {
    } else if at >= ps[0].len {
      WriteListOutside(raws, ps[1..], at - ps[0].len, src, q);
    } else {
      var n := Chunk(ps[0], at, |src|);
      WritePtrAllIn(raws, ps[0], at, src[..n], ps[1..]);
      WritePtrOutside(raws, ps[0], at, src[..n], q);
      WriteListOutside(WritePtr(raws, ps[0], at, src[..n]), ps[1..], 0, src[n..], q);
    }
  }

  lemma OverwriteAfter(a: seq<Byte>, b: seq<Byte>, at: nat, src: seq<Byte>)
    requires |a| <= at && at + |src| <= |a| + |b|
    ensures Overwrite(a + b, at, src) == a + Overwrite(b, at - |a|, src)
  {
  }

  lemma OverwriteAcross(a: seq<Byte>, b: seq<Byte>, at: nat, src: seq<Byte>, n: nat)
    requires at < |a| && at + |src| <= |a| + |b| && n == if |src| < |a| - at then |src| else |a| - at
    ensures Overwrite(a + b, at, src) == Overwrite(a, at, src[..n]) + Overwrite(b, 0, src[n..])
  {
  }

  lemma FlatFirst(raws: Raws, ps: seq<Ptr>, first: seq<Byte>, rest: seq<Byte>)
    requires AllIn(raws, ps) && ps != [] && first == Bytes(raws, ps[0]) && rest == Flat(raws, ps[1..])
    ensures Flat(raws, ps) == first + rest
  {
  }

  /** A write through the list overwrites the bytes at its offset and no others. */
  ghost predicate WritesRight(raws: Raws, ps: seq<Ptr>, at: nat, src: seq<Byte>)
    requires AllIn(raws, ps) && at + |src| <= Total(ps)
  {
    var w := WriteList(raws, ps, at, src);
    && AllIn(w, ps) && |Flat(raws, ps)| == Total(ps)
    && Flat(w, ps) == Overwrite(Flat(raws, ps), at, src)
  }

  /** Writing through a list whose segments do not overlap overwrites its bytes. */
  lemma {:induction false} WriteIsOverwrite(raws: Raws, ps: seq<Ptr>, at: nat, src: seq<Byte>)
    requires AllIn(raws, ps) && NoOverlap(ps) && at + |src| <= Total(ps)
    ensures WritesRight(raws, ps, at, src)
    decreases |ps|, 1
  {
    WriteListShape(raws, ps, at, src);
    ShapeKeeps(raws, WriteList(raws, ps, at, src), ps);
    FlatLength(raws, ps);
    if src == [] {
    } else if at >= ps[0].len {
      WriteIsOverwrite(raws, ps[1..], at - ps[0].len, src);
      WriteListOutside(raws, ps[1..], at - ps[0].len, src, ps[0]);
      OverwriteAfter(Bytes(raws, ps[0]), Flat(raws, ps[1..]), at, src);
    } else {
      WriteAcross(raws, ps, at, src);
    }
  }

  lemma {:induction false} WriteAcross(raws: Raws, ps: seq<Ptr>, at: nat, src: seq<Byte>)
    requires AllIn(raws, ps) && NoOverlap(ps) && at + |src| <= Total(ps) && src != [] && at < ps[0].len
    requires |Flat(raws, ps)| == Total(ps) && AllIn(WriteList(raws, ps, at, src), ps)
    ensures Flat(WriteList(raws, ps, at, src), ps) == Overwrite(Flat(raws, ps), at, src)
    decreases |ps|, 0
  {
    var n := Chunk(ps[0], at, |src|);
    var first, rest := WritePtr(raws, ps[0], at, src[..n]), ps[1..];
    FlatOutside(raws, ps[0], at, src[..n], rest);
    WritePtrInside(raws, ps[0], at, src[..n]);
    WriteIsOverwrite(first, rest, 0, src[n..]);
    WriteListOutside(first, rest, 0, src[n..], ps[0]);
    OverwriteAcross(Bytes(raws, ps[0]), Flat(raws, rest), at, src, n);
    FlatFirst(WriteList(raws, ps, at, src), ps, Overwrite(Bytes(raws, ps[0]), at, src[..n]), Overwrite(Flat(raws, rest), 0, src[n..]));
  }

  /** One byte is written in the segment it lies in. */
  lemma WriteOne(raws: Raws, ps: seq<Ptr>, k: nat, d: nat, v: Byte)
    requires AllIn(raws, ps) && k < |ps| && d < ps[k].len
    ensures Total(ps[..k]) + d < Total(ps)
    ensures WriteList(raws, ps, Total(ps[..k]) + d, [v]) == WritePtr(raws, ps[k], d, [v])
  {
    TotalNext(ps, k);
    WriteFrom(raws, ps, k, d, [v]);
    assert Chunk(ps[k..][0], d, 1) == 1 && [v][..1] == [v] && [v][1..] == [];
  }

  lemma AnotherByte(b: Byte) returns (v: Byte)
    ensures v != b
  {
    v := if b == 0 then 1 else 0;
  }

  /** Through a list with overlapping segments, some write of one byte shows in a second place. */
  lemma OverlapShows(raws: Raws, ps: seq<Ptr>, i: nat, j: nat) returns (at: nat, v: Byte)
    requires AllIn(raws, ps) && i < j < |ps| && Overlap(ps[i], ps[j])
    ensures at < Total(ps) && !WritesRight(raws, ps, at, [v])
  {
    var x := if ps[i].off < ps[j].off then ps[j].off else ps[i].off;
    var di, dj := x - ps[i].off, x - ps[j].off;
    FlatSegment(raws, ps, j);
    v := AnotherByte(Flat(raws, ps)[Total(ps[..j]) + dj]);
    at := Total(ps[..i]) + di;
    SameCellShows(raws, ps, i, di, j, dj, v);
  }

  lemma {:induction false} SameCellShows(raws: Raws, ps: seq<Ptr>, i: nat, di: nat, j: nat, dj: nat, v: Byte)
    requires AllIn(raws, ps) && i < j < |ps| && di < ps[i].len && dj < ps[j].len
    requires ps[i].raw == ps[j].raw && ps[i].off + di == ps[j].off + dj
    requires Total(ps[..j]) + dj < |Flat(raws, ps)| && Flat(raws, ps)[Total(ps[..j]) + dj] != v
    ensures Total(ps[..i]) + di < Total(ps) && !WritesRight(raws, ps, Total(ps[..i]) + di, [v])
  {
    FlatLength(raws, ps);
    TotalNext(ps, i);
    StartsLater(ps, i + 1, j);
    WriteOne(raws, ps, i, di, v);
    WritePtrAllIn(raws, ps[i], di, [v], ps);
    ByteShows(raws, WritePtr(raws, ps[i], di, [v]), ps, i, di, j, dj, v);
    OverwriteElsewhere(Flat(raws, ps), Total(ps[..i]) + di, v, Total(ps[..j]) + dj);
  }

  lemma OverwriteElsewhere(b: seq<Byte>, at: nat, v: Byte, k: nat)
    requires at < k < |b|
    ensures Overwrite(b, at, [v])[k] == b[k]
  {
  }

  lemma ByteShows(raws: Raws, w: Raws, ps: seq<Ptr>, i: nat, di: nat, j: nat, dj: nat, v: Byte)
    requires AllIn(raws, ps) && AllIn(w, ps) && i < |ps| && j < |ps| && di < ps[i].len && dj < ps[j].len
    requires ps[i].raw == ps[j].raw && ps[i].off + di == ps[j].off + dj && w == WritePtr(raws, ps[i], di, [v])
    ensures Total(ps[..j]) + dj < |Flat(w, ps)| && Flat(w, ps)[Total(ps[..j]) + dj] == v
  {
    FlatSegment(w, ps, j);
    assert Bytes(w, ps[j])[dj] == v;
  }

  /** Every write through the list is right if and only if no two of its segments overlap. */
  lemma WritesRightExactly(raws: Raws, ps: seq<Ptr>)
    requires AllIn(raws, ps)
    ensures NoOverlap(ps) <==>
            forall at: nat, src {:trigger WritesRight(raws, ps, at, src)} | at + |src| <= Total(ps) :: WritesRight(raws, ps, at, src)
  {
    if NoOverlap(ps) {
      forall at: nat, src | at + |src| <= Total(ps) ensures WritesRight(raws, ps, at, src) {
        WriteIsOverwrite(raws, ps, at, src);
      }
    } else {
      var i, j :| 0 <= i < j < |ps| && Overlap(ps[i], ps[j]);
      var at, v := OverlapShows(raws, ps, i, j);
    }
  }

  // ---------------------------------------------------------------- zeroing a range

  /** Where the zeroed range ends in fact: a range that starts inside a segment, after its first
      byte, and ends before the segment does, is zeroed up to the end of the segment. */
  function ZeroEnd(ps: seq<Ptr>, o: nat, l: nat): (e: nat)
    requires o + l <= Total(ps)
    ensures o + l <= e <= Total(ps)
  {
    if ps == [] then o + l
    else if o >= ps[0].len then ps[0].len + ZeroEnd(ps[1..], o - ps[0].len, l)
    else if o > 0 && o + l < ps[0].len then ps[0].len
    else o + l
  }

  ghost predicate Inside(ps: seq<Ptr>, k: nat, o: nat, l: nat) {
    k < |ps| && Total(ps[..k]) < o && o + l < Total(ps[..k]) + ps[k].len
  }

  ghost predicate InsideOneSegment(ps: seq<Ptr>, o: nat, l: nat) {
    exists k {:trigger Inside(ps, k, o, l)} :: Inside(ps, k, o, l)
  }

  /** The end of the zeroed range, told from the segment in which it starts. */
  lemma {:induction false} ZeroEndAt(ps: seq<Ptr>, o: nat, l: nat, k: nat)
    requires o + l <= Total(ps) && k < |ps| && Total(ps[..k]) <= o < Total(ps[..k]) + ps[k].len
    ensures ZeroEnd(ps, o, l) == if Inside(ps, k, o, l) then Total(ps[..k]) + ps[k].len else o + l
  {
    if k == 0 {
      assert ps[..0] == [];
    } else {
      PosInRest(ps, k);
      ZeroEndAt(ps[1..], o - ps[0].len, l, k - 1);
    }
  }

  lemma {:induction false} ZeroFound(ps: seq<Ptr>, o: nat, l: nat) returns (k: nat)
    requires o + l <= Total(ps) && ZeroEnd(ps, o, l) != o + l
    ensures Inside(ps, k, o, l)
    decreases |ps|
  {
    if o >= ps[0].len {
      var k0 := ZeroFound(ps[1..], o - ps[0].len, l);
      k := k0 + 1;
      PosInRest(ps, k);
    } else {
      k := 0;
      assert ps[..0] == [];
    }
  }

  /** Exactly the ranges strictly inside one segment are zeroed too far. */
  lemma ZeroEndExact(ps: seq<Ptr>, o: nat, l: nat)
    requires o + l <= Total(ps)
    ensures ZeroEnd(ps, o, l) == o + l <==> !InsideOneSegment(ps, o, l)
  {
    if InsideOneSegment(ps, o, l) {
      var k :| Inside(ps, k, o, l);
      ZeroEndAt(ps, o, l, k);
    }
    if ZeroEnd(ps, o, l) != o + l {
      var k := ZeroFound(ps, o, l);
    }
  }
}
