/**
 * Buffer lists as values: pointers into raw buffers, the bytes a list of pointers stands for,
 * and cursors into such a list.
 */
module Ropes {
  import opened Registers
  import opened Crc

  type RawId = nat

  /** A raw buffer: its bytes, its address, and checksums cached per byte range as (seed, checksum). */
  datatype Raw = Raw(bytes: seq<Byte>, addr: nat, crcs: map<(nat, nat), (Word, Word)>)

  type Raws = map<RawId, Raw>

  /** A stretch of a raw buffer. */
  datatype Ptr = Ptr(raw: RawId, off: nat, len: nat) {
    function Stop(): nat { off + len }
  }

  predicate InRaw(raws: Raws, p: Ptr) {
    p.raw in raws && p.Stop() <= |raws[p.raw].bytes|
  }

  ghost predicate AllIn(raws: Raws, ps: seq<Ptr>) {
    forall i {:trigger ps[i]} | 0 <= i < |ps| :: InRaw(raws, ps[i])
  }

  predicate NoneEmpty(ps: seq<Ptr>) {
    forall i {:trigger ps[i]} | 0 <= i < |ps| :: ps[i].len > 0
  }

  function Bytes(raws: Raws, p: Ptr): (b: seq<Byte>)
    requires InRaw(raws, p)
    ensures |b| == p.len
  {
    raws[p.raw].bytes[p.off..p.Stop()]
  }

  /** The bytes a list of pointers stands for. */
  ghost function Flat(raws: Raws, ps: seq<Ptr>): seq<Byte>
    requires AllIn(raws, ps)
  {
    if ps == [] then [] else Bytes(raws, ps[0]) + Flat(raws, ps[1..])
  }

  function Total(ps: seq<Ptr>): nat {
    if ps == [] then 0 else ps[0].len + Total(ps[1..])
  }

  // ---------------------------------------------------------------- concatenation

  lemma {:induction false} FlatLength(raws: Raws, ps: seq<Ptr>)
    requires AllIn(raws, ps)
    ensures |Flat(raws, ps)| == Total(ps)
  {
    if ps != [] { FlatLength(raws, ps[1..]); }
  }

  lemma Assoc3<T>(a: seq<T>, b: seq<T>, c: seq<T>)
    ensures (a + b) + c == a + (b + c)
  {
  }

  lemma {:induction false} FlatConcat(raws: Raws, ps: seq<Ptr>, qs: seq<Ptr>)
    requires AllIn(raws, ps) && AllIn(raws, qs)
    ensures AllIn(raws, ps + qs) && Flat(raws, ps + qs) == Flat(raws, ps) + Flat(raws, qs)
  {
    if ps == [] {
      assert ps + qs == qs;
    } else {
      assert (ps + qs)[0] == ps[0] && (ps + qs)[1..] == ps[1..] + qs;
      FlatConcat(raws, ps[1..], qs);
      Assoc3(Bytes(raws, ps[0]), Flat(raws, ps[1..]), Flat(raws, qs));
    }
  }

  lemma {:induction false} TotalConcat(ps: seq<Ptr>, qs: seq<Ptr>)
    ensures Total(ps + qs) == Total(ps) + Total(qs)
  {
    if ps == [] {
      assert ps + qs == qs;
    } else {
      assert (ps + qs)[1..] == ps[1..] + qs;
      TotalConcat(ps[1..], qs);
    }
  }

  lemma FlatOne(raws: Raws, p: Ptr)
    requires InRaw(raws, p)
    ensures AllIn(raws, [p]) && Flat(raws, [p]) == Bytes(raws, p) && Total([p]) == p.len
  {
    assert [p][1..] == [];
  }

  lemma FlatSnoc(raws: Raws, ps: seq<Ptr>, p: Ptr)
    requires AllIn(raws, ps) && InRaw(raws, p)
    ensures AllIn(raws, ps + [p]) && Flat(raws, ps + [p]) == Flat(raws, ps) + Bytes(raws, p)
    ensures Total(ps + [p]) == Total(ps) + p.len
  {
    FlatOne(raws, p);
    FlatConcat(raws, ps, [p]);
    TotalConcat(ps, [p]);
  }

  /** Cutting a list between two segments cuts the bytes. */
  lemma FlatCut(raws: Raws, ps: seq<Ptr>, k: nat)
    requires AllIn(raws, ps) && k <= |ps|
    ensures AllIn(raws, ps[..k]) && AllIn(raws, ps[k..]) && Total(ps) == Total(ps[..k]) + Total(ps[k..])
    ensures |Flat(raws, ps)| == Total(ps)
    ensures Flat(raws, ps[..k]) == Flat(raws, ps)[..Total(ps[..k])]
    ensures Flat(raws, ps[k..]) == Flat(raws, ps)[Total(ps[..k])..]
  {
    assert ps == ps[..k] + ps[k..];
    FlatConcat(raws, ps[..k], ps[k..]);
    TotalConcat(ps[..k], ps[k..]);
    FlatLength(raws, ps);
    FlatLength(raws, ps[..k]);
  }

  lemma TotalCut(ps: seq<Ptr>, k: nat)
    requires k <= |ps|
    ensures Total(ps) == Total(ps[..k]) + Total(ps[k..])
  {
    assert ps == ps[..k] + ps[k..];
    TotalConcat(ps[..k], ps[k..]);
  }

  /** Where segment k lies. */
  lemma TotalNext(ps: seq<Ptr>, k: nat)
    requires k < |ps|
    ensures Total(ps[..k + 1]) == Total(ps[..k]) + ps[k].len && Total(ps[..k + 1]) <= Total(ps)
  {
    assert ps[..k + 1] == ps[..k] + [ps[k]];
    TotalConcat(ps[..k], [ps[k]]);
    assert [ps[k]][1..] == [];
    TotalCut(ps, k + 1);
  }

  /** The bytes of segment k. */
  lemma FlatSegment(raws: Raws, ps: seq<Ptr>, k: nat)
    requires AllIn(raws, ps) && k < |ps|
    ensures Total(ps[..k]) + ps[k].len <= |Flat(raws, ps)| == Total(ps)
    ensures Bytes(raws, ps[k]) == Flat(raws, ps)[Total(ps[..k])..Total(ps[..k]) + ps[k].len]
  {
    FlatCut(raws, ps, k);
    TotalNext(ps, k);
    assert Flat(raws, ps[k..]) == Bytes(raws, ps[k]) + Flat(raws, ps[k..][1..]);
  }

  /** The bytes of a part of segment k. */
  lemma FlatPart(raws: Raws, ps: seq<Ptr>, k: nat, at: nat, n: nat)
    requires AllIn(raws, ps) && k < |ps| && at + n <= ps[k].len
    ensures InRaw(raws, Part(ps[k], at, n)) && Total(ps[..k]) + at + n <= |Flat(raws, ps)| == Total(ps)
    ensures Bytes(raws, Part(ps[k], at, n)) == Flat(raws, ps)[Total(ps[..k]) + at..Total(ps[..k]) + at + n]
  {
    FlatSegment(raws, ps, k);
    SliceOfSlice(raws[ps[k].raw].bytes, ps[k].off, ps[k].Stop(), at, at + n);
    SliceOfSlice(Flat(raws, ps), Total(ps[..k]), Total(ps[..k]) + ps[k].len, at, at + n);
  }

  /** The byte at offset d of segment k. */
  lemma FlatByte(raws: Raws, ps: seq<Ptr>, k: nat, d: nat)
    requires AllIn(raws, ps) && k < |ps| && d < ps[k].len
    ensures Total(ps[..k]) + d < |Flat(raws, ps)|
    ensures Flat(raws, ps)[Total(ps[..k]) + d] == raws[ps[k].raw].bytes[ps[k].off + d]
  {
    FlatSegment(raws, ps, k);
    assert Bytes(raws, ps[k])[d] == raws[ps[k].raw].bytes[ps[k].off + d];
  }

  lemma SliceOfSlice<T>(s: seq<T>, a: nat, b: nat, c: nat, d: nat)
    requires a <= b <= |s| && c <= d <= b - a
    ensures s[a..b][c..d] == s[a + c..a + d]
  {
    forall i | 0 <= i < d - c ensures s[a..b][c..d][i] == s[a + c..a + d][i] {
      assert s[a..b][c..d][i] == s[a..b][c + i] == s[a + c + i];
    }
  }

  lemma CutJoin<T>(s: seq<T>, a: nat, b: nat)
    requires a <= b <= |s|
    ensures s[a..b] + s[b..] == s[a..]
  {
  }

  lemma SliceJoin<T>(s: seq<T>, a: nat, b: nat, c: nat)
    requires a <= b <= c <= |s|
    ensures s[a..b] + s[b..c] == s[a..c]
  {
  }

  /** A pointer to part of what p points to. */
  function Part(p: Ptr, at: nat, n: nat): Ptr
    requires at + n <= p.len
  {
    Ptr(p.raw, p.off + at, n)
  }

  // ---------------------------------------------------------------- cursors

  /** A place in a list, with the offset it claims to have: inside a segment, or past the last
      segment (by `over` bytes, after a failed move).  A cursor whose segment was freed is dangling. */
  datatype Cursor = At(off: nat, seg: nat, inSeg: nat) | End(off: nat, over: nat) | Dangling(off: nat)

  predicate Settled(ps: seq<Ptr>, c: Cursor) {
    match c
    case At(_, seg, inSeg) => seg < |ps| && inSeg < ps[seg].len
    case End(_, _) => true
    case Dangling(_) => false
  }

  /** The cursor is somewhere in the list, or its segment was freed. */
  predicate InList(ps: seq<Ptr>, c: Cursor) { c.Dangling? || Settled(ps, c) }

  /** Where the cursor is in fact. */
  function Pos(ps: seq<Ptr>, c: Cursor): nat
    requires Settled(ps, c)
  {
    match c
    case At(_, seg, inSeg) => Total(ps[..seg]) + inSeg
    case End(_, over) => Total(ps) + over
  }

  /** The cursor may be used: it is at the end, from where it is always sought again, or it is
      where it claims to be. */
  predicate CursorOk(ps: seq<Ptr>, c: Cursor) {
    Settled(ps, c) && (c.At? ==> Pos(ps, c) == c.off)
  }

  function Begin(ps: seq<Ptr>): Cursor {
    if ps == [] then End(0, 0) else At(0, 0, 0)
  }

  lemma BeginOk(ps: seq<Ptr>)
    requires NoneEmpty(ps)
    ensures CursorOk(ps, Begin(ps)) && Pos(ps, Begin(ps)) == 0
  {
    assert ps[..0] == [];
  }

  /** A cursor before the end is before the last byte. */
  lemma InsideTotal(ps: seq<Ptr>, c: Cursor)
    requires Settled(ps, c) && c.At?
    ensures Pos(ps, c) < Total(ps)
  {
    TotalNext(ps, c.seg);
  }

  /** Moves a cursor forward over the segments; fails when that leads past the end. */
  method AdvanceForward(ps: seq<Ptr>, c: Cursor, n: nat) returns (ok: bool, r: Cursor)
    requires NoneEmpty(ps) && Settled(ps, c)
    ensures ok <==> n == 0 || Pos(ps, c) + n <= Total(ps)
    ensures ok ==> Settled(ps, r) && Pos(ps, r) == Pos(ps, c) + n && r.off == c.off + n
    ensures !ok ==> r == End(c.off, Pos(ps, c) + n - Total(ps))
    ensures ok && c.At? && c.inSeg + n < ps[c.seg].len ==> r == At(c.off + n, c.seg, c.inSeg + n)
    ensures ok && c.At? && c.inSeg + n == ps[c.seg].len ==>
              r == if c.seg + 1 == |ps| then End(c.off + n, 0) else At(c.off + n, c.seg + 1, 0)
  {
    if n == 0 { return true, c; }
    if c.End? { return false, End(c.off, c.over + n); }
    var seg, inSeg: nat := c.seg, c.inSeg + n;
    while inSeg > 0
      invariant c.seg <= seg <= |ps| && Total(ps[..seg]) + inSeg == Pos(ps, c) + n
      invariant seg == c.seg ==> inSeg == c.inSeg + n
      invariant seg > c.seg ==> c.inSeg + n >= ps[c.seg].len
      decreases |ps| - seg
    {
      if seg == |ps| {
        assert ps[..|ps|] == ps;
        return false, End(c.off, inSeg);
      }
      TotalNext(ps, seg);
      if inSeg >= ps[seg].len {
        inSeg, seg := inSeg - ps[seg].len, seg + 1;
      } else {
        break;
      }
    }
    TotalCut(ps, seg);
    OnlyPlace(ps, c.seg, c.inSeg + n, seg, inSeg);
    if seg == |ps| {
      assert ps[..|ps|] == ps;
      return true, End(c.off + n, inSeg);
    }
    return true, At(c.off + n, seg, inSeg);
  }

  /** Reaching exactly the end of a segment is being at the start of the next. */
  lemma OnlyPlace(ps: seq<Ptr>, k: nat, d: nat, seg: nat, inSeg: nat)
    requires NoneEmpty(ps) && k < |ps| && k <= seg <= |ps| && Total(ps[..seg]) + inSeg == Total(ps[..k]) + d
    ensures seg > k && d == ps[k].len ==> seg == k + 1 && inSeg == 0
  {
    if seg > k && d == ps[k].len {
      TotalNext(ps, k);
      if seg > k + 1 {
        TotalNext(ps, k + 1);
        StartsLater(ps, k + 2, seg);
      }
    }
  }

  lemma StartsLater(ps: seq<Ptr>, i: nat, j: nat)
    requires i <= j <= |ps|
    ensures Total(ps[..i]) <= Total(ps[..j])
  {
    assert ps[..j][..i] == ps[..i];
    TotalCut(ps[..j], i);
  }

  /** Moves a cursor back.  A cursor that is ahead of where it claims to be stays ahead by as much. */
  method AdvanceBack(ps: seq<Ptr>, c: Cursor, n: nat) returns (ok: bool, r: Cursor)
    requires NoneEmpty(ps) && Settled(ps, c)
    requires c.off <= Pos(ps, c) && (n <= c.off || Pos(ps, c) == c.off)
    ensures ok <==> n <= c.off
    ensures ok ==> Settled(ps, r) && Pos(ps, r) == Pos(ps, c) - n && r.off == c.off - n
    ensures !ok ==> r == Begin(ps)
  {
    var off, left := c.off, n;
    var seg, inSeg := if c.At? then c.seg else |ps|, if c.At? then c.inSeg else c.over;
    assert ps[..|ps|] == ps;
    while left > 0
      invariant 0 <= left <= n && 0 <= inSeg && 0 <= off && 0 <= seg <= |ps|
      invariant seg < |ps| ==> inSeg < ps[seg].len || (left > 0 && inSeg == ps[seg].len)
      invariant Total(ps[..seg]) + inSeg - left == Pos(ps, c) - n && off - left == c.off - n
      decreases left, if inSeg > 0 then 0 else 1
    {
      if inSeg > 0 {
        var d := if left > inSeg then inSeg else left;
        inSeg, off, left := inSeg - d, off - d, left - d;
      } else if off > 0 {
        assert ps[..0] == [];
        TotalNext(ps, seg - 1);
        seg := seg - 1;
        inSeg := ps[seg].len;
      } else {
        StartsAtZero(ps, seg);
        return false, if seg == |ps| then End(off, inSeg) else At(off, seg, inSeg);
      }
    }
    return true, if seg == |ps| then End(off, inSeg) else At(off, seg, inSeg);
  }

  /** Only the first segment starts at offset zero. */
  lemma StartsAtZero(ps: seq<Ptr>, k: nat)
    requires NoneEmpty(ps) && k <= |ps| && Total(ps[..k]) == 0
    ensures k == 0
  {
    if k > 0 { TotalNext(ps, k - 1); }
  }

  /** A cursor left at the end of a list that has grown since goes back from the new end. */
  lemma StaleEnd(ps: seq<Ptr>, p: Ptr)
    ensures Pos(ps, End(Total(ps), 0)) == Total(ps)
    ensures Pos(ps + [p], End(Total(ps), 0)) == Total(ps) + p.len
  {
    TotalConcat(ps, [p]);
    assert [p][1..] == [];
  }

  method Seek(ps: seq<Ptr>, n: nat) returns (ok: bool, r: Cursor)
    requires NoneEmpty(ps)
    ensures ok <==> n <= Total(ps)
    ensures ok ==> CursorOk(ps, r) && Pos(ps, r) == r.off == n
    ensures !ok ==> r.End?
  {
    BeginOk(ps);
    ok, r := AdvanceForward(ps, Begin(ps), n);
  }

  /** From where a copy starts: a cursor at the end is first sought again from its offset. */
  function CopyStart(ps: seq<Ptr>, c: Cursor): nat
    requires Settled(ps, c)
  {
    if c.End? then c.off else Pos(ps, c)
  }

  /** From where a copy at offset `off` starts that goes on from a cursor which claims that offset. */
  function ReadStart(ps: seq<Ptr>, c: Cursor, off: nat): nat
    requires c.off == off ==> Settled(ps, c)
  {
    if c.off == off then CopyStart(ps, c) else off
  }

  /** A cursor at the end is sought again, since the list may have grown. */
  method Resume(ps: seq<Ptr>, c: Cursor) returns (ok: bool, r: Cursor)
    requires NoneEmpty(ps) && Settled(ps, c)
    ensures ok <==> CopyStart(ps, c) <= Total(ps)
    ensures Settled(ps, r) && (!ok ==> r.End?)
    ensures ok ==> Pos(ps, r) == CopyStart(ps, c) && r.off == c.off
  {
    if c.End? {
      ok, r := Seek(ps, c.off);
    } else {
      InsideTotal(ps, c);
      ok, r := true, c;
    }
  }

  /** The bytes under a cursor follow what was read up to it. */
  lemma ReadOn(raws: Raws, ps: seq<Ptr>, all: seq<Byte>, c: Cursor, start: nat, out: seq<Byte>, n: nat)
    requires AllIn(raws, ps) && all == Flat(raws, ps) && Settled(ps, c) && c.At? && c.inSeg + n <= ps[c.seg].len
    requires start <= Pos(ps, c) <= |all| && out == all[start..Pos(ps, c)]
    ensures InRaw(raws, Part(ps[c.seg], c.inSeg, n)) && Pos(ps, c) + n <= |all|
    ensures out + Bytes(raws, Part(ps[c.seg], c.inSeg, n)) == all[start..Pos(ps, c) + n]
  {
    FlatPart(raws, ps, c.seg, c.inSeg, n);
    SliceJoin(all, start, Pos(ps, c), Pos(ps, c) + n);
  }

  /** Copies n bytes out from a cursor.  A usable cursor yields the bytes at its offset. */
  method CopyOut(raws: Raws, ps: seq<Ptr>, c: Cursor, n: nat) returns (ok: bool, out: seq<Byte>, r: Cursor)
    requires AllIn(raws, ps) && NoneEmpty(ps) && Settled(ps, c)
    ensures ok <==> CopyStart(ps, c) + n <= Total(ps) == |Flat(raws, ps)|
    ensures ok ==> out == Flat(raws, ps)[CopyStart(ps, c)..CopyStart(ps, c) + n]
    ensures ok ==> Settled(ps, r) && Pos(ps, r) == CopyStart(ps, c) + n && r.off == c.off + n
    ensures !ok ==> r.End?
  {
    FlatLength(raws, ps);
    ghost var start, all := CopyStart(ps, c), Flat(raws, ps);
    out := [];
    ok, r := Resume(ps, c);
    if !ok { return; }
    var left := n;
    while left > 0
      invariant 0 <= left <= n && Settled(ps, r) && Pos(ps, r) <= |all|
      invariant Pos(ps, r) + left == start + n && r.off + left == c.off + n
      invariant out == all[start..Pos(ps, r)]
    {
      if r.End? { return false, out, r; }
      var howmuch := ps[r.seg].len - r.inSeg;
      if left < howmuch { howmuch := left; }
      ReadOn(raws, ps, all, r, start, out, howmuch);
      out := out + Bytes(raws, Part(ps[r.seg], r.inSeg, howmuch));
      left := left - howmuch;
      ok, r := AdvanceForward(ps, r, howmuch);
    }
    ok := true;
  }

  /** The segment in which offset `off` lies, and the offset inside it. */
  method SkipTo(ps: seq<Ptr>, off: nat) returns (k: nat, d: nat)
    requires NoneEmpty(ps) && off <= Total(ps)
    ensures k <= |ps| && Total(ps[..k]) + d == off
    ensures off < Total(ps) ==> k < |ps| && d < ps[k].len
    ensures off == Total(ps) ==> k == |ps| && d == 0
    ensures Place(ps, k, d, off)
  {
    k, d := 0, off;
    assert ps[..0] == [] && ps[..|ps|] == ps;
    while d > 0 && d >= ps[k].len
      invariant 0 <= k <= |ps| && Total(ps[..k]) + d == off && (d > 0 ==> k < |ps|)
    {
      TotalNext(ps, k);
      d, k := d - ps[k].len, k + 1;
    }
    assert k == |ps| ==> ps[..k] == ps;
    if k < |ps| { TotalNext(ps, k); }
  }

  /** The part of a list from `off`, n bytes long, as pointers into the same raw buffers; and the
      place where it ends. */
  method Slice(ghost raws: Raws, ps: seq<Ptr>, off: nat, n: nat) returns (out: seq<Ptr>, k: nat, d: nat)
    requires AllIn(raws, ps) && NoneEmpty(ps) && off + n <= Total(ps)
    ensures Sliced(raws, ps, off, off + n, out) && Place(ps, k, d, off + n)
  {
    FlatLength(raws, ps);
    ghost var at := off;
    k, d := SkipTo(ps, off);
    out := [];
    var left := n;
    while left > 0
      invariant 0 <= left <= n && at + left == off + n && Sliced(raws, ps, off, at, out) && Place(ps, k, d, at)
    {
      var howmuch;
      out, k, d, howmuch := SliceNext(raws, ps, off, at, out, k, d, left);
      at, left := at + howmuch, left - howmuch;
    }
  }

  /** Adds as much as the segment at a place has of what is left. */
  method SliceNext(ghost raws: Raws, ps: seq<Ptr>, ghost off: nat, ghost at: nat, out: seq<Ptr>, k: nat, d: nat, left: nat)
    returns (out': seq<Ptr>, k': nat, d': nat, n: nat)
    requires NoneEmpty(ps) && Sliced(raws, ps, off, at, out) && Place(ps, k, d, at) && 0 < left && at + left <= Total(ps)
    ensures 0 < n <= left && Sliced(raws, ps, off, at + n, out') && Place(ps, k', d', at + n)
  {
    PlaceInside(ps, k, d, at);
    n := if d + left < ps[k].len then left else ps[k].len - d;
    SliceStep(raws, ps, k, d, off, at, out, n);
    out' := out + [Part(ps[k], d, n)];
    k', d' := NextPlaceIn(ps, k, d, n, at);
  }

  /** `out` stands for the bytes from `off` to `at`. */
  ghost predicate Sliced(raws: Raws, ps: seq<Ptr>, off: nat, at: nat, out: seq<Ptr>) {
    && AllIn(raws, ps) && off <= at <= |Flat(raws, ps)| && AllIn(raws, out) && AllWithin(out, ps)
    && Flat(raws, out) == Flat(raws, ps)[off..at] && Total(out) == at - off
  }

  predicate Within(q: Ptr, p: Ptr) {
    q.raw == p.raw && p.off <= q.off && q.Stop() <= p.Stop()
  }

  /** Every segment of qs is a non-empty part of one of ps. */
  ghost predicate AllWithin(qs: seq<Ptr>, ps: seq<Ptr>) {
    forall i {:trigger qs[i]} | 0 <= i < |qs| :: PartOf(qs[i], ps)
  }

  ghost predicate PartOf(q: Ptr, ps: seq<Ptr>) {
    q.len > 0 && exists k {:trigger ps[k]} :: 0 <= k < |ps| && Within(q, ps[k])
  }

  lemma WithinStep(qs: seq<Ptr>, ps: seq<Ptr>, k: nat, d: nat, m: nat)
    requires AllWithin(qs, ps) && k < |ps| && d + m <= ps[k].len && m > 0
    ensures AllWithin(qs + [Part(ps[k], d, m)], ps)
  {
    assert Within(Part(ps[k], d, m), ps[k]);
  }

  lemma SliceStep(raws: Raws, ps: seq<Ptr>, k: nat, d: nat, off: nat, at: nat, out: seq<Ptr>, m: nat)
    requires Sliced(raws, ps, off, at, out) && k < |ps| && d + m <= ps[k].len && m > 0 && at == Total(ps[..k]) + d
    ensures Sliced(raws, ps, off, at + m, out + [Part(ps[k], d, m)])
  {
    FlatPart(raws, ps, k, d, m);
    FlatSnoc(raws, out, Part(ps[k], d, m));
    SliceJoin(Flat(raws, ps), off, at, at + m);
    WithinStep(out, ps, k, d, m);
  }

  /** Compares two lists segment against segment. */
  method SameContents(raws: Raws, ps: seq<Ptr>, qs: seq<Ptr>) returns (same: bool)
    requires AllIn(raws, ps) && AllIn(raws, qs) && NoneEmpty(ps) && NoneEmpty(qs)
    ensures same <==> Flat(raws, ps) == Flat(raws, qs)
  {
    FlatLength(raws, ps);
    FlatLength(raws, qs);
    if Total(ps) != Total(qs) { return false; }
    var a: nat, aoff: nat, b: nat, boff: nat := 0, 0, 0, 0;
    ghost var done := 0;
    assert ps[..0] == [] && qs[..0] == [];
    while a < |ps|
      invariant Place(ps, a, aoff, done) && Place(qs, b, boff, done) && Matched(raws, ps, qs, done)
      decreases Total(ps) - done
    {
      PlaceInside(ps, a, aoff, done);
      PlaceInside(qs, b, boff, done);
      var eq, n := CompareHere(raws, ps, qs, a, aoff, b, boff, done);
      if !eq { return false; }
      a, aoff := NextPlaceIn(ps, a, aoff, n, done);
      b, boff := NextPlaceIn(qs, b, boff, n, done);
      done := done + n;
    }
    PlaceInside(ps, a, aoff, done);
    MatchedAll(raws, ps, qs);
    return true;
  }

  ghost predicate Matched(raws: Raws, ps: seq<Ptr>, qs: seq<Ptr>, done: nat) {
    && AllIn(raws, ps) && AllIn(raws, qs) && done <= |Flat(raws, ps)| == |Flat(raws, qs)|
    && Flat(raws, ps)[..done] == Flat(raws, qs)[..done]
  }

  lemma MatchedAll(raws: Raws, ps: seq<Ptr>, qs: seq<Ptr>)
    requires AllIn(raws, ps) && Matched(raws, ps, qs, Total(ps))
    ensures Flat(raws, ps) == Flat(raws, qs)
  {
    FlatLength(raws, ps);
    assert Flat(raws, ps)[..Total(ps)] == Flat(raws, ps) && Flat(raws, qs)[..Total(ps)] == Flat(raws, qs);
  }

  lemma PartAt(raws: Raws, ps: seq<Ptr>, k: nat, d: nat, n: nat, at: nat)
    requires AllIn(raws, ps) && Place(ps, k, d, at) && k < |ps| && d + n <= ps[k].len
    ensures InRaw(raws, Part(ps[k], d, n)) && at + n <= |Flat(raws, ps)|
    ensures Bytes(raws, Part(ps[k], d, n)) == Flat(raws, ps)[at..at + n]
  {
    FlatPart(raws, ps, k, d, n);
  }

  /** Compares what is left of two segments, as far as both go. */
  method CompareHere(raws: Raws, ps: seq<Ptr>, qs: seq<Ptr>, a: nat, aoff: nat, b: nat, boff: nat, ghost done: nat)
    returns (eq: bool, n: nat)
    requires Place(ps, a, aoff, done) && Place(qs, b, boff, done) && Matched(raws, ps, qs, done) && a < |ps| && b < |qs|
    ensures 0 < n && aoff + n <= ps[a].len && boff + n <= qs[b].len
    ensures eq ==> Matched(raws, ps, qs, done + n)
    ensures !eq ==> Flat(raws, ps) != Flat(raws, qs)
  {
    n := ps[a].len - aoff;
    if n > qs[b].len - boff { n := qs[b].len - boff; }
    PartAt(raws, ps, a, aoff, n, done);
    PartAt(raws, qs, b, boff, n, done);
    CompareOn(Flat(raws, ps), Flat(raws, qs), done, n);
    eq := Bytes(raws, Part(ps[a], aoff, n)) == Bytes(raws, Part(qs[b], boff, n));
  }

  method NextPlaceIn(ps: seq<Ptr>, k: nat, d: nat, n: nat, ghost at: nat) returns (k': nat, d': nat)
    requires NoneEmpty(ps) && Place(ps, k, d, at) && k < |ps| && d + n <= ps[k].len
    ensures Place(ps, k', d', at + n)
  {
    PlaceNext(ps, k, d, at, n);
    if d + n == ps[k].len { return k + 1, 0; }
    return k, d + n;
  }

  ghost predicate Place(ps: seq<Ptr>, k: nat, d: nat, at: nat) {
    k <= |ps| && (if k < |ps| then d < ps[k].len else d == 0) && Total(ps[..k]) + d == at <= Total(ps)
  }

  lemma PlaceInside(ps: seq<Ptr>, k: nat, d: nat, at: nat)
    requires Place(ps, k, d, at)
    ensures k < |ps| <==> at < Total(ps)
  {
    if k < |ps| { TotalNext(ps, k); } else { assert ps[..k] == ps; }
  }

  lemma PlaceNext(ps: seq<Ptr>, k: nat, d: nat, at: nat, n: nat)
    requires NoneEmpty(ps) && Place(ps, k, d, at) && k < |ps| && d + n <= ps[k].len
    ensures if d + n == ps[k].len then Place(ps, k + 1, 0, at + n) else Place(ps, k, d + n, at + n)
  {
    TotalNext(ps, k);
  }

  lemma CompareOn<T>(s: seq<T>, t: seq<T>, a: nat, n: nat)
    requires a + n <= |s| == |t| && s[..a] == t[..a]
    ensures s[a..a + n] == t[a..a + n] ==> s[..a + n] == t[..a + n]
    ensures s == t ==> s[a..a + n] == t[a..a + n]
  {
    SliceJoin(s, 0, a, a + n);
    SliceJoin(t, 0, a, a + n);
  }

  // ---------------------------------------------------------------- cutting at a place

  /** The segments before a place. */
  function Upto(ps: seq<Ptr>, k: nat, d: nat): seq<Ptr>
    requires k <= |ps| && (d > 0 ==> k < |ps| && d <= ps[k].len)
  {
    if d == 0 then ps[..k] else ps[..k] + [Part(ps[k], 0, d)]
  }

  /** The segments from a place on. */
  function From(ps: seq<Ptr>, k: nat, d: nat): seq<Ptr>
    requires k <= |ps| && (d > 0 ==> k < |ps| && d <= ps[k].len)
  {
    if d == 0 then ps[k..] else [Part(ps[k], d, ps[k].len - d)] + ps[k + 1..]
  }

  lemma {:induction false} UptoFlat(raws: Raws, ps: seq<Ptr>, k: nat, d: nat, at: nat)
    requires AllIn(raws, ps) && NoneEmpty(ps) && Place(ps, k, d, at)
    ensures AllIn(raws, Upto(ps, k, d)) && AllWithin(Upto(ps, k, d), ps) && at <= |Flat(raws, ps)|
    ensures Flat(raws, Upto(ps, k, d)) == Flat(raws, ps)[..at] && Total(Upto(ps, k, d)) == at
  {
    FlatCut(raws, ps, k);
    forall i | 0 <= i < k ensures PartOf(ps[..k][i], ps) { assert Within(ps[i], ps[i]); }
    if d > 0 {
      FlatPart(raws, ps, k, 0, d);
      FlatSnoc(raws, ps[..k], Part(ps[k], 0, d));
      SliceJoin(Flat(raws, ps), 0, Total(ps[..k]), at);
      assert Within(Part(ps[k], 0, d), ps[k]);
    }
  }

  lemma FromWithin(ps: seq<Ptr>, k: nat, d: nat)
    requires NoneEmpty(ps) && k <= |ps| && (d > 0 ==> k < |ps| && d < ps[k].len)
    ensures AllWithin(From(ps, k, d), ps)
  {
    var q := From(ps, k, d);
    forall i | 0 <= i < |q| ensures PartOf(q[i], ps) {
      assert Within(q[i], ps[k + i]);
    }
  }

  lemma {:induction false} PutBefore(raws: Raws, p: Ptr, ps: seq<Ptr>)
    requires InRaw(raws, p) && AllIn(raws, ps)
    ensures AllIn(raws, [p] + ps) && Flat(raws, [p] + ps) == Bytes(raws, p) + Flat(raws, ps) && Total([p] + ps) == p.len + Total(ps)
  {
    FlatOne(raws, p);
    FlatConcat(raws, [p], ps);
    TotalConcat([p], ps);
  }

  lemma {:induction false} TailAt(raws: Raws, ps: seq<Ptr>, k: nat, d: nat, at: nat, end: nat)
    requires AllIn(raws, ps) && Place(ps, k, d, at) && k < |ps| && end == Total(ps[..k + 1])
    ensures InRaw(raws, Part(ps[k], d, ps[k].len - d)) && at <= end <= |Flat(raws, ps)| && end == at + (ps[k].len - d)
    ensures Bytes(raws, Part(ps[k], d, ps[k].len - d)) == Flat(raws, ps)[at..end]
  {
    TotalNext(ps, k);
    PartAt(raws, ps, k, d, ps[k].len - d, at);
  }

  lemma {:induction false} FromInside(raws: Raws, ps: seq<Ptr>, k: nat, d: nat, at: nat)
    requires AllIn(raws, ps) && Place(ps, k, d, at) && 0 < d
    ensures AllIn(raws, From(ps, k, d)) && at <= |Flat(raws, ps)|
    ensures Flat(raws, From(ps, k, d)) == Flat(raws, ps)[at..] && Total(From(ps, k, d)) == Total(ps) - at
  {
    var tail := Part(ps[k], d, ps[k].len - d);
    TailAt(raws, ps, k, d, at, Total(ps[..k + 1]));
    FlatCut(raws, ps, k + 1);
    PutBefore(raws, tail, ps[k + 1..]);
    Rejoin(Flat(raws, ps), at, Total(ps[..k + 1]), Bytes(raws, tail), Flat(raws, ps[k + 1..]));
  }

  lemma Rejoin<T>(s: seq<T>, a: nat, b: nat, x: seq<T>, y: seq<T>)
    requires a <= b <= |s| && x == s[a..b] && y == s[b..]
    ensures x + y == s[a..]
  {
    CutJoin(s, a, b);
  }

  lemma {:induction false} FromFlat(raws: Raws, ps: seq<Ptr>, k: nat, d: nat, at: nat)
    requires AllIn(raws, ps) && NoneEmpty(ps) && Place(ps, k, d, at)
    ensures AllIn(raws, From(ps, k, d)) && AllWithin(From(ps, k, d), ps) && at <= |Flat(raws, ps)|
    ensures Flat(raws, From(ps, k, d)) == Flat(raws, ps)[at..] && Total(From(ps, k, d)) == Total(ps) - at
  {
    FromWithin(ps, k, d);
    if d > 0 { FromInside(raws, ps, k, d, at); } else { FlatCut(raws, ps, k); }
  }
}
