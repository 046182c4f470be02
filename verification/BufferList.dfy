/**
 * Buffer lists: lists of pointers into shared raw buffers, with a private buffer for small
 * appends and a cached cursor.  Every operation is proved to do to the bytes of the list what
 * the corresponding operation on a sequence does.
 */
module BufferLists {
  import opened Options
  import opened Registers
  import opened Crc
  import opened Ropes
  import opened RopeWrites
  import opened RawMemory
  import opened Division

  const PAGE_SIZE: nat := 4096

  /** The raw buffers in existence.  `used` is the part of each that some pointer may refer to;
      `owner` is the list, if any, that appends to it. */
  class Memory {
    var raws: Raws
    var next: RawId
    ghost var used: map<RawId, nat>
    ghost var owner: map<RawId, BufferList>

    ghost predicate Valid()
      reads this
    {
      MemOk(raws, used) && owner.Keys <= raws.Keys && forall r | r in raws :: r < next
    }

    constructor ()
      ensures Valid() && raws == map[]
    {
      raws, next, used, owner := map[], 0, map[], map[];
    }

    /** Allocates n bytes with unknown contents at an aligned address. */
    method Create(n: nat, align: nat) returns (r: RawId, raw: Raw)
      requires Valid() && align > 0
      modifies this`next
      ensures Valid() && r !in raws
      ensures |raw.bytes| == n && raw.addr % align == 0 && raw.crcs == map[]
      ensures forall x | x in raws :: x < next
      ensures r < next
    {
      r, next := next, next + 1;
      raw := Raw(Zeros(n), 0, map[]);
    }
  }

  ghost predicate Owned(used: map<RawId, nat>, owner: map<RawId, BufferList>, me: BufferList, tail: Option<Ptr>) {
    tail.Some? ==>
      tail.value.raw in used && tail.value.raw in owner && owner[tail.value.raw] == me && tail.value.Stop() == used[tail.value.raw]
  }

  /** Another list keeps its segments, its bytes and its append buffer when `me` appends. */
  lemma OthersKeep(raws: Raws, used: map<RawId, nat>, owner: map<RawId, BufferList>, raws': Raws, used': map<RawId, nat>,
                   owner': map<RawId, BufferList>, me: BufferList, other: BufferList, ps: seq<Ptr>, tail: Option<Ptr>)
    requires Grew(raws, used, owner, raws', used', owner', me) && other != me
    requires SegsOk(used, ps) && Owned(used, owner, other, tail)
    ensures AllIn(raws, ps) && AllIn(raws', ps) && Flat(raws', ps) == Flat(raws, ps)
    ensures SegsOk(used', ps) && Owned(used', owner', other, tail)
  {
    GrewFlat(raws, used, owner, raws', used', owner', me, ps);
    if tail.Some? { assert GrewAt(raws, used, owner, raws', used', owner', me, tail.value.raw); }
  }

  /** The list with its last segment n bytes longer. */
  function Merged(ps: seq<Ptr>, n: nat): seq<Ptr>
    requires ps != []
  {
    var k := |ps| - 1;
    ps[..k] + [ps[k].(len := ps[k].len + n)]
  }

  /** Lengthening the last segment by the bytes that follow it. */
  lemma {:induction false} MergeTail(raws: Raws, ps: seq<Ptr>, more: Ptr)
    requires AllIn(raws, ps) && ps != [] && InRaw(raws, more)
    requires more.raw == ps[|ps| - 1].raw && more.off == ps[|ps| - 1].Stop()
    ensures AllIn(raws, Merged(ps, more.len)) && Total(Merged(ps, more.len)) == Total(ps) + more.len
    ensures Flat(raws, Merged(ps, more.len)) == Flat(raws, ps) + Bytes(raws, more)
  {
    var k := |ps| - 1;
    var long := ps[k].(len := ps[k].len + more.len);
    assert ps == ps[..k] + [ps[k]];
    FlatSnoc(raws, ps[..k], ps[k]);
    FlatSnoc(raws, ps[..k], long);
    SliceJoin(raws[more.raw].bytes, ps[k].off, more.off, more.Stop());
    Assoc3(Flat(raws, ps[..k]), Bytes(raws, ps[k]), Bytes(raws, more));
  }

  lemma MergeOk(raws: Raws, used: map<RawId, nat>, ps: seq<Ptr>, more: Ptr)
    requires MemOk(raws, used) && SegsOk(used, ps) && ps != [] && more.raw in used && more.Stop() <= used[more.raw]
    requires more.raw == ps[|ps| - 1].raw && more.off == ps[|ps| - 1].Stop()
    ensures AllIn(raws, ps) && InRaw(raws, more) && SegsOk(used, Merged(ps, more.len)) && AllIn(raws, Merged(ps, more.len))
    ensures Total(Merged(ps, more.len)) == Total(ps) + more.len
    ensures Flat(raws, Merged(ps, more.len)) == Flat(raws, ps) + Bytes(raws, more)
  {
    SegsIn(raws, used, ps);
    SegIn(raws, used, more);
    MergeTail(raws, ps, more);
  }

  /** A cursor stays where it is when segments are added behind or the last one grows. */
  lemma CursorBehind(ps: seq<Ptr>, qs: seq<Ptr>, c: Cursor)
    requires InList(ps, c) && |ps| <= |qs|
    requires forall i {:trigger qs[i]} | 0 <= i < |ps| - 1 :: qs[i] == ps[i]
    requires ps != [] ==> qs[|ps| - 1].len >= ps[|ps| - 1].len
    ensures InList(qs, c) && (c.At? ==> Pos(qs, c) == Pos(ps, c)) && (CursorOk(ps, c) ==> CursorOk(qs, c))
  {
    if c.At? { assert qs[..c.seg] == ps[..c.seg]; }
  }

  class BufferList {
    const mem: Memory
    var buffers: seq<Ptr>
    var len: nat
    var appendBuffer: Option<Ptr>
    var lastP: Cursor

    ghost predicate Valid()
      reads this, mem
    {
      && mem.Valid() && SegsOk(mem.used, buffers) && len == Total(buffers) && Owned(mem.used, mem.owner, this, appendBuffer)
      && InList(buffers, lastP)
    }

    /** The bytes of the list. */
    ghost function Contents(): seq<Byte>
      requires Valid()
      reads this, mem
    {
      SegsIn(mem.raws, mem.used, buffers);
      Flat(mem.raws, buffers)
    }

    ghost predicate Usable()
      reads this
    {
      CursorOk(buffers, lastP)
    }

    constructor (m: Memory)
      requires m.Valid()
      ensures mem == m && Valid() && Contents() == [] && Usable()
    {
      mem := m;
      buffers, len, appendBuffer, lastP := [], 0, None, End(0, 0);
    }

    method Clear()
      requires Valid()
      modifies this`buffers, this`len, this`lastP
      ensures Valid() && Contents() == [] && Usable()
    {
      buffers, len, lastP := [], 0, End(0, 0);
    }

    method PushBack(p: Ptr)
      requires Valid() && p.raw in mem.used && p.Stop() <= mem.used[p.raw]
      modifies this`buffers, this`len
      ensures Valid() && InRaw(mem.raws, p) && Contents() == old(Contents()) + Bytes(mem.raws, p)
      ensures old(Usable()) ==> Usable()
    {
      SegIn(mem.raws, mem.used, p);
      if p.len == 0 { return; }
      SegsIn(mem.raws, mem.used, buffers);
      FlatSnoc(mem.raws, buffers, p);
      CursorBehind(buffers, buffers + [p], lastP);
      buffers, len := buffers + [p], len + p.len;
    }

    /** Appends part of what p points to; when that directly follows the last segment, the segment
        is lengthened instead. */
    method AppendPtr(p: Ptr, off: nat, n: nat)
      requires Valid() && off + n <= p.len && p.raw in mem.used && p.Stop() <= mem.used[p.raw]
      modifies this`buffers, this`len
      ensures Valid() && InRaw(mem.raws, Part(p, off, n))
      ensures Contents() == old(Contents()) + Bytes(mem.raws, Part(p, off, n))
      ensures old(Usable()) ==> Usable()
    {
      if buffers != [] {
        var l := buffers[|buffers| - 1];
        if l.raw == p.raw && l.Stop() == p.off + off {
          MergeOk(mem.raws, mem.used, buffers, Part(p, off, n));
          CursorBehind(buffers, Merged(buffers, n), lastP);
          buffers, len := Merged(buffers, n), len + n;
          return;
        }
      }
      PushBack(Part(p, off, n));
    }

    function Gap(): nat
      requires Valid()
      reads this, mem
    {
      if appendBuffer.None? then 0
      else
        SegIn(mem.raws, mem.used, appendBuffer.value);
        |mem.raws[appendBuffer.value.raw].bytes| - appendBuffer.value.Stop()
    }

    /** Replaces the append buffer by a new, empty one. */
    method NewAppendBuffer(n: nat)
      requires Valid()
      modifies this`appendBuffer, mem
      ensures Valid() && Contents() == old(Contents()) && Gap() == n
      ensures Grew(old(mem.raws), old(mem.used), old(mem.owner), mem.raws, mem.used, mem.owner, this)
    {
      var r, raw := mem.Create(n, PAGE_SIZE);
      ghost var owner' := mem.owner[r := this];
      assert owner' - {r} == mem.owner - {r};
      NewRaw(mem.raws, mem.used, mem.owner, owner', this, r, raw, 0);
      GrewFlat(mem.raws, mem.used, mem.owner, mem.raws[r := raw], mem.used[r := 0], owner', this, buffers);
      mem.raws, mem.used, mem.owner := mem.raws[r := raw], mem.used[r := 0], owner';
      appendBuffer := Some(Ptr(r, 0, 0));
    }

    /** Writes behind the part of the append buffer in use. */
    method FillTail(src: seq<Byte>)
      requires Valid() && appendBuffer.Some? && |src| <= Gap()
      modifies this`appendBuffer, mem
      ensures Valid() && Contents() == old(Contents()) && appendBuffer.Some?
      ensures appendBuffer.value == old(appendBuffer.value).(len := old(appendBuffer.value.len) + |src|)
      ensures InRaw(mem.raws, Ptr(appendBuffer.value.raw, old(appendBuffer.value.Stop()), |src|))
      ensures Bytes(mem.raws, Ptr(appendBuffer.value.raw, old(appendBuffer.value.Stop()), |src|)) == src
      ensures Grew(old(mem.raws), old(mem.used), old(mem.owner), mem.raws, mem.used, mem.owner, this)
    {
      var t := appendBuffer.value;
      SegIn(mem.raws, mem.used, t);
      TailWrite(mem.raws, mem.used, mem.owner, this, t.raw, src);
      ghost var used' := mem.used[t.raw := t.Stop() + |src|];
      var raws' := mem.raws[t.raw := Extended(mem.raws[t.raw], t.Stop(), src)];
      GrewFlat(mem.raws, mem.used, mem.owner, raws', used', mem.owner, this, buffers);
      mem.raws, mem.used := raws', used';
      appendBuffer := Some(t.(len := t.len + |src|));
    }

    /** Appends bytes that fit in the append buffer. */
    method AppendToTail(src: seq<Byte>)
      requires Valid() && appendBuffer.Some? && |src| <= Gap()
      modifies this`buffers, this`len, this`appendBuffer, mem
      ensures Valid() && Contents() == old(Contents()) + src
      ensures old(Usable()) ==> Usable()
      ensures Grew(old(mem.raws), old(mem.used), old(mem.owner), mem.raws, mem.used, mem.owner, this)
    {
      FillTail(src);
      AppendPtr(appendBuffer.value, appendBuffer.value.len - |src|, |src|);
    }

    /** Appends bytes, filling the append buffer and allocating new ones as needed.  Nothing that is
        visible through another list changes. */
    method Append(data: seq<Byte>)
      requires Valid()
      modifies this`buffers, this`len, this`appendBuffer, mem
      ensures Valid() && Contents() == old(Contents()) + data
      ensures old(Usable()) ==> Usable()
      ensures Grew(old(mem.raws), old(mem.used), old(mem.owner), mem.raws, mem.used, mem.owner, this)
    {
      var i := 0;
      GrewRefl(mem.raws, mem.used, mem.owner, this);
      while i < |data|
        invariant 0 <= i <= |data| && Valid() && Contents() == old(Contents()) + data[..i]
        invariant old(Usable()) ==> Usable()
        invariant Grew(old(mem.raws), old(mem.used), old(mem.owner), mem.raws, mem.used, mem.owner, this)
        decreases |data| - i, if Gap() > 0 then 0 else 1
      {
        i := AppendRound(data, i, old(mem.raws), old(mem.used), old(mem.owner), old(Contents()));
      }
      assert data[..i] == data;
    }

    /** One round of Append: fills the append buffer and, if that is not enough, allocates a new one. */
    method AppendRound(data: seq<Byte>, i: nat, ghost raws0: Raws, ghost used0: map<RawId, nat>,
                       ghost owner0: map<RawId, BufferList>, ghost before: seq<Byte>) returns (i': nat)
      requires Valid() && i < |data| && Contents() == before + data[..i]
      requires Grew(raws0, used0, owner0, mem.raws, mem.used, mem.owner, this)
      modifies this`buffers, this`len, this`appendBuffer, mem
      ensures i <= i' <= |data| && Valid() && Contents() == before + data[..i']
      ensures i' > i || (old(Gap()) == 0 && Gap() > 0)
      ensures old(Usable()) ==> Usable()
      ensures Grew(raws0, used0, owner0, mem.raws, mem.used, mem.owner, this)
    {
      var gap := Gap();
      i' := i;
      if gap > 0 {
        if gap > |data| - i { gap := |data| - i; }
        AppendSome(data, i, gap, raws0, used0, owner0, before);
        i' := i + gap;
      }
      if i' < |data| { AppendSpace(|data| - i', raws0, used0, owner0); }
    }

    /** One round of Append: the next bytes go to the append buffer. */
    method AppendSome(data: seq<Byte>, i: nat, n: nat, ghost raws0: Raws, ghost used0: map<RawId, nat>,
                      ghost owner0: map<RawId, BufferList>, ghost before: seq<Byte>)
      requires Valid() && appendBuffer.Some? && i + n <= |data| && n <= Gap() && Contents() == before + data[..i]
      requires Grew(raws0, used0, owner0, mem.raws, mem.used, mem.owner, this)
      modifies this`buffers, this`len, this`appendBuffer, mem
      ensures Valid() && Contents() == before + data[..i + n]
      ensures old(Usable()) ==> Usable()
      ensures Grew(raws0, used0, owner0, mem.raws, mem.used, mem.owner, this)
    {
      AppendToTail(data[i..i + n]);
      GrewTrans(raws0, used0, owner0, old(mem.raws), old(mem.used), old(mem.owner), mem.raws, mem.used, mem.owner, this);
      assert data[..i + n] == data[..i] + data[i..i + n];
    }

    /** One round of Append: room for `left` more bytes. */
    method AppendSpace(left: nat, ghost raws0: Raws, ghost used0: map<RawId, nat>, ghost owner0: map<RawId, BufferList>)
      requires Valid() && left > 0 && Grew(raws0, used0, owner0, mem.raws, mem.used, mem.owner, this)
      modifies this`appendBuffer, mem
      ensures Valid() && Contents() == old(Contents()) && Gap() >= left
      ensures Grew(raws0, used0, owner0, mem.raws, mem.used, mem.owner, this)
    {
      NewAppendBuffer(PAGE_SIZE * ((left - 1) / PAGE_SIZE + 1));
      GrewTrans(raws0, used0, owner0, old(mem.raws), old(mem.used), old(mem.owner), mem.raws, mem.used, mem.owner, this);
    }

    /** Shares all segments of another list. */
    method AppendList(other: BufferList)
      requires Valid() && other.Valid() && other != this && other.mem == mem
      modifies this`buffers, this`len
      ensures Valid() && other.Valid() && Contents() == old(Contents()) + other.Contents()
      ensures old(Usable()) ==> Usable()
    {
      JoinLists(mem.raws, mem.used, buffers, other.buffers);
      CursorBehind(buffers, buffers + other.buffers, lastP);
      buffers, len := buffers + other.buffers, len + other.len;
    }

    /** Takes over the segments of another list, which becomes empty. */
    method ClaimAppend(other: BufferList)
      requires Valid() && other.Valid() && other != this && other.mem == mem
      modifies this`buffers, this`len, other`buffers, other`len, other`lastP
      ensures Valid() && other.Valid() && Contents() == old(Contents()) + old(other.Contents())
      ensures other.Contents() == [] && other.Usable()
      ensures old(Usable()) ==> Usable()
    {
      JoinLists(mem.raws, mem.used, buffers, other.buffers);
      CursorBehind(buffers, buffers + other.buffers, lastP);
      buffers, len := buffers + other.buffers, len + other.len;
      other.buffers, other.len, other.lastP := [], 0, End(0, 0);
    }

    /** Takes over the segments of another list in front.  The cached cursor stays on its segment
        and keeps its offset: a usable one is so afterwards if and only if it was at the end or
        nothing was taken over. */
    method ClaimPrepend(other: BufferList)
      requires Valid() && other.Valid() && other != this && other.mem == mem
      modifies this`buffers, this`len, this`lastP, other`buffers, other`len, other`lastP
      ensures Valid() && other.Valid() && Contents() == old(other.Contents()) + old(Contents())
      ensures other.Contents() == [] && other.Usable()
      ensures lastP == Shifted(old(lastP), |old(other.buffers)|)
      ensures old(lastP.At?) ==> lastP.At? && Pos(buffers, lastP) == old(other.len) + Pos(old(buffers), old(lastP))
      ensures old(Usable()) ==> (Usable() <==> old(lastP.End?) || old(other.len) == 0)
    {
      JoinLists(mem.raws, mem.used, other.buffers, buffers);
      CursorInFront(other.buffers, buffers, lastP);
      lastP := Shifted(lastP, |other.buffers|);
      buffers, len := other.buffers + buffers, len + other.len;
      other.buffers, other.len, other.lastP := [], 0, End(0, 0);
    }

    /** As for ClaimPrepend, the cursor is not reset. */
    method PushFront(p: Ptr)
      requires Valid() && p.raw in mem.used && p.Stop() <= mem.used[p.raw]
      modifies this`buffers, this`len, this`lastP
      ensures Valid() && InRaw(mem.raws, p) && Contents() == Bytes(mem.raws, p) + old(Contents())
      ensures old(lastP.At?) ==> lastP.At? && Pos(buffers, lastP) == p.len + Pos(old(buffers), old(lastP))
      ensures old(Usable()) ==> (Usable() <==> old(lastP.End?) || p.len == 0)
    {
      SegIn(mem.raws, mem.used, p);
      if p.len == 0 { return; }
      JoinLists(mem.raws, mem.used, [p], buffers);
      FlatOne(mem.raws, p);
      assert [p][1..] == [];
      CursorInFront([p], buffers, lastP);
      lastP := Shifted(lastP, 1);
      buffers, len := [p] + buffers, len + p.len;
    }

    /** Becomes the part of another list from `off`, n bytes long; fails if there is no such part. */
    method SubstrOf(other: BufferList, off: nat, n: nat) returns (ok: bool)
      requires Valid() && other.Valid() && other != this && other.mem == mem
      modifies this`buffers, this`len, this`lastP
      ensures Valid() && other.Valid() && |other.Contents()| == other.len
      ensures ok <==> off + n <= other.len
      ensures !ok ==> buffers == old(buffers) && lastP == old(lastP)
      ensures ok ==> Contents() == other.Contents()[off..off + n] && Usable()
    {
      SegsIn(mem.raws, mem.used, other.buffers);
      FlatLength(mem.raws, other.buffers);
      if off + n > other.len { return false; }
      Clear();
      var out, _, _ := Slice(mem.raws, other.buffers, off, n);
      WithinOk(mem.used, other.buffers, out);
      buffers, len := out, n;
      return true;
    }

    /** The byte at an index. */
    method Get(n: nat) returns (ok: bool, b: Byte)
      requires Valid()
      ensures ok <==> n < |Contents()|
      ensures ok ==> b == Contents()[n]
    {
      SegsIn(mem.raws, mem.used, buffers);
      FlatLength(mem.raws, buffers);
      if n >= len { return false, 0; }
      var k, d := SkipTo(buffers, n);
      FlatByte(mem.raws, buffers, k, d);
      return true, mem.raws[buffers[k].raw].bytes[buffers[k].off + d];
    }

    /** Copies bytes out through the cached cursor, which is sought only if it claims another offset.  From
        a usable cursor these are the bytes at `off`; from another one that claims that offset, those
        where it is.  A dangling cursor that claims it must not be used. */
    method Copy(off: nat, n: nat) returns (ok: bool, out: seq<Byte>)
      requires Valid() && (lastP.Dangling? ==> lastP.off != off)
      modifies this`lastP
      ensures Valid() && |Contents()| == len
      ensures var start := ReadStart(buffers, old(lastP), off);
              && (ok <==> off + n <= len && start + n <= len)
              && (ok ==> out == Contents()[start..start + n] && Settled(buffers, lastP)
                         && Pos(buffers, lastP) == start + n && lastP.off == off + n)
      ensures old(Usable()) ==> Usable() && ReadStart(buffers, old(lastP), off) == off
    {
      SegsIn(mem.raws, mem.used, buffers);
      FlatLength(mem.raws, buffers);
      if off + n > len { return false, []; }
      if lastP.off != off {
        ok, lastP := Seek(buffers, off);
      }
      ok, out, lastP := CopyOut(mem.raws, buffers, lastP, n);
    }

    /** Writes bytes through a cursor, segment by segment, dropping cached checksums on the way.
        Past the end of the list it fails, having written what fits. */
    method WriteAt(c: Cursor, src: seq<Byte>) returns (ok: bool, r: Cursor)
      requires Valid() && Settled(buffers, c)
      modifies mem`raws
      ensures Valid() && AllIn(old(mem.raws), buffers)
      ensures ok <==> CopyStart(buffers, c) + |src| <= len
      ensures ok ==> mem.raws == WriteList(old(mem.raws), buffers, CopyStart(buffers, c), src)
      ensures ok ==> Settled(buffers, r) && Pos(buffers, r) == CopyStart(buffers, c) + |src| && r.off == c.off + |src|
      ensures !ok ==> r.End?
    {
      SegsIn(mem.raws, mem.used, buffers);
      ok, r := Resume(buffers, c);
      if ok { ok, r, mem.raws := WriteRaws(mem.raws, mem.used, buffers, r, src); }
    }

    /** Overwrites bytes of the list in place: through a usable cursor those at `off`. */
    method CopyIn(off: nat, src: seq<Byte>) returns (ok: bool)
      requires Valid() && (lastP.Dangling? ==> lastP.off != off)
      modifies mem`raws, this`lastP
      ensures Valid() && AllIn(old(mem.raws), buffers)
      ensures off + |src| > len ==> mem.raws == old(mem.raws)
      ensures var start := ReadStart(buffers, old(lastP), off);
              && (ok <==> off + |src| <= len && start + |src| <= len)
              && (ok ==> mem.raws == WriteList(old(mem.raws), buffers, start, src))
              && (ok && NoOverlap(buffers) ==> |old(Contents())| == len && Contents() == Overwrite(old(Contents()), start, src))
      ensures old(Usable()) ==> Usable() && ReadStart(buffers, old(lastP), off) == off
    {
      SegsIn(mem.raws, mem.used, buffers);
      if off + |src| > len { return false; }
      ghost var start := ReadStart(buffers, lastP, off);
      if lastP.off != off {
        ok, lastP := Seek(buffers, off);
      }
      ok, lastP := WriteAt(lastP, src);
      if ok && NoOverlap(buffers) { WriteIsOverwrite(old(mem.raws), buffers, start, src); }
    }

    /** Sets a range to zero.  ZeroIsRight says what that does to the bytes of the list. */
    method Zero(o: nat, l: nat)
      requires Valid() && o + l <= len
      modifies mem`raws
      ensures Valid() && Zeroed(old(mem.raws), mem.raws, buffers, o, l)
    {
      SegsIn(mem.raws, mem.used, buffers);
      mem.raws := ZeroRaws(mem.raws, mem.used, buffers, o, l);
    }

    /** The checksum of one segment, from the cache if it is there, converted if it is cached for
        another seed, and remembered otherwise. */
    method SegmentChecksum(crc: Word, p: Ptr) returns (r: Word)
      requires Valid() && SegOk(mem.used, p) && InRaw(mem.raws, p)
      modifies mem`raws
      ensures Valid() && SameBytes(old(mem.raws), mem.raws) && r == Crc32c(crc, Bytes(old(mem.raws), p))
    {
      SameBytesRefl(mem.raws);
      var raw, k := mem.raws[p.raw], (p.off, p.Stop());
      if k in raw.crcs {
        CachedCrc(mem.raws, mem.used, p);
        var (v, c) := raw.crcs[k];
        if v == crc {
          r := c;
        } else {
          Reseed(v, crc, Bytes(mem.raws, p));
          var adjustment := UpdateCrc(Xor(v, crc), Zeros(p.len), 0);
          r := Xor(c, adjustment);
        }
      } else {
        r := UpdateCrc(crc, Bytes(mem.raws, p), (raw.addr + p.off) % 4);
        CacheCrc(mem.raws, mem.used, p, crc);
        mem.raws := mem.raws[p.raw := raw.(crcs := raw.crcs[k := (crc, r)])];
      }
    }

    /** The checksum of the list, whatever earlier calls left in the caches. */
    method Checksum(seed: Word) returns (crc: Word)
      requires Valid()
      modifies mem`raws
      ensures Valid() && Contents() == old(Contents()) && SameBytes(old(mem.raws), mem.raws)
      ensures crc == Crc32c(seed, Contents())
    {
      SegsIn(mem.raws, mem.used, buffers);
      SameBytesRefl(mem.raws);
      crc := seed;
      ghost var raws0 := mem.raws;
      var k := 0;
      while k < |buffers|
        invariant 0 <= k <= |buffers| && Valid() && SameBytes(raws0, mem.raws)
        invariant SumUpTo(raws0, buffers, k, seed, crc)
      {
        SameBytesPtr(raws0, mem.raws, buffers[k]);
        ghost var before := mem.raws;
        SumNext(raws0, buffers, k, seed, crc);
        crc := SegmentChecksum(crc, buffers[k]);
        SameBytesTrans(raws0, before, mem.raws);
        k := k + 1;
      }
      assert buffers[..k] == buffers;
      SameBytesFlat(raws0, mem.raws, buffers);
    }

    method ContentsEqual(other: BufferList) returns (same: bool)
      requires Valid() && other.Valid() && other.mem == mem
      ensures same <==> Contents() == other.Contents()
    {
      SegsIn(mem.raws, mem.used, buffers);
      SegsIn(mem.raws, mem.used, other.buffers);
      FlatLength(mem.raws, buffers);
      FlatLength(mem.raws, other.buffers);
      if len != other.len { return false; }
      same := SameContents(mem.raws, buffers, other.buffers);
    }

    /** Removes n bytes from `off` on, handing them to another list if one is given. */
    method Splice(off: nat, n: nat, claimBy: BufferList?) returns (ok: bool)
      requires Valid() && (n > 0 && off < len ==> off + n <= len)
      requires claimBy != null ==> claimBy != this && claimBy.mem == mem && claimBy.Valid()
      modifies this`buffers, this`len, this`lastP, if claimBy == null then {} else {claimBy}
      ensures Valid() && (ok <==> n == 0 || off < old(len)) && |old(Contents())| == old(len)
      ensures claimBy != null ==> claimBy.Valid()
      ensures n == 0 || !ok ==> buffers == old(buffers) && lastP == old(lastP)
      ensures (n == 0 || !ok) && claimBy != null ==> claimBy.Contents() == old(claimBy.Contents())
      ensures n > 0 && ok ==> Contents() == old(Contents())[..off] + old(Contents())[off + n..] && Usable()
      ensures n > 0 && ok && claimBy != null ==> claimBy.Contents() == old(claimBy.Contents()) + old(Contents())[off..off + n]
    {
      SegsIn(mem.raws, mem.used, buffers);
      FlatLength(mem.raws, buffers);
      if n == 0 { return true; }
      if off >= len { return false; }
      var pieces := Cut(off, n);
      if claimBy != null { claimBy.AppendPieces(pieces); }
      return true;
    }

    /** Takes n bytes from `off` on out of the list. */
    method Cut(off: nat, n: nat) returns (pieces: seq<Ptr>)
      requires Valid() && off + n <= len
      modifies this`buffers, this`len, this`lastP
      ensures Valid() && SegsOk(mem.used, pieces) && AllIn(mem.raws, pieces) && |old(Contents())| == old(len)
      ensures Flat(mem.raws, pieces) == old(Contents())[off..off + n]
      ensures Contents() == old(Contents())[..off] + old(Contents())[off + n..] && Usable()
    {
      SegsIn(mem.raws, mem.used, buffers);
      FlatLength(mem.raws, buffers);
      var kept;
      pieces, kept := CutList(mem.raws, mem.used, buffers, off, n);
      buffers, len, lastP := kept, len - n, Begin(kept);
    }

    /** Appends segments one by one. */
    method AppendPieces(pieces: seq<Ptr>)
      requires Valid() && SegsOk(mem.used, pieces) && AllIn(mem.raws, pieces)
      modifies this`buffers, this`len
      ensures Valid() && Contents() == old(Contents()) + Flat(mem.raws, pieces)
    {
      var i := 0;
      while i < |pieces|
        invariant 0 <= i <= |pieces| && Valid() && AllIn(mem.raws, pieces[..i])
        invariant Contents() == old(Contents()) + Flat(mem.raws, pieces[..i])
      {
        assert pieces[..i + 1] == pieces[..i] + [pieces[i]];
        FlatSnoc(mem.raws, pieces[..i], pieces[i]);
        Assoc3(old(Contents()), Flat(mem.raws, pieces[..i]), Bytes(mem.raws, pieces[i]));
        assert Part(pieces[i], 0, pieces[i].len) == pieces[i];
        AppendPtr(pieces[i], 0, pieces[i].len);
        i := i + 1;
      }
      assert pieces[..i] == pieces;
    }

    /** Copies all bytes into one new segment.  A cursor into the old segments is left dangling.  An empty
        list is left with a segment of length zero, which no other operation leaves. */
    method Rebuild()
      requires Valid()
      modifies this`buffers, this`lastP, mem
      ensures mem.Valid() && |buffers| == 1 && len == Total(buffers)
      ensures len > 0 ==> Valid() && Contents() == old(Contents())
      ensures len == 0 ==> buffers[0].len == 0 && !Valid()
      ensures len % PAGE_SIZE == 0 ==> AlignedPtr(mem.raws, buffers[0], PAGE_SIZE)
      ensures Grew(old(mem.raws), old(mem.used), old(mem.owner), mem.raws, mem.used, mem.owner, this)
      ensures lastP == if old(lastP.At?) then Dangling(old(lastP.off)) else old(lastP)
      ensures Usable() <==> old(lastP.End?)
    {
      SegsIn(mem.raws, mem.used, buffers);
      if len == 0 {
        var r, raw := mem.Create(0, PAGE_SIZE);
        NewRaw(mem.raws, mem.used, mem.owner, mem.owner, this, r, raw, 0);
        mem.raws, mem.used := mem.raws[r := raw], mem.used[r := 0];
        buffers := [Ptr(r, 0, 0)];
        assert buffers[1..] == [] && !SegOk(mem.used, buffers[0]);
        return;
      }
      var nb := Gather(mem, this, buffers, if len % PAGE_SIZE == 0 then PAGE_SIZE else 1);
      FlatOne(mem.raws, nb);
      GrewOwned(old(mem.raws), old(mem.used), old(mem.owner), mem.raws, mem.used, mem.owner, this, appendBuffer);
      buffers := [nb];
      assert buffers[1..] == [];
      if lastP.At? { lastP := Dangling(lastP.off); }
    }

    /** Rearranges the segments so that all are aligned in memory and all but the last have a length
        that is a multiple of `alignSize`.  A cursor stays where it is if its segment stays, and is left
        dangling otherwise. */
    method RebuildAligned(alignSize: nat, alignMemory: nat)
      requires Valid() && alignSize > 0 && alignMemory > 0
      modifies this`buffers, this`lastP, mem
      ensures Valid() && Contents() == old(Contents())
      ensures forall i | 0 <= i < |buffers| :: AlignedPtr(mem.raws, buffers[i], alignMemory)
      ensures forall i | 0 <= i < |buffers| - 1 :: buffers[i].len % alignSize == 0
      ensures Grew(old(mem.raws), old(mem.used), old(mem.owner), mem.raws, mem.used, mem.owner, this)
      ensures !old(lastP.At?) ==> lastP == old(lastP)
      ensures lastP.off == old(lastP.off)
      ensures old(lastP.At?) ==> (lastP.At? <==> Stays(old(mem.raws), old(buffers), old(lastP.seg), alignSize, alignMemory))
      ensures old(lastP.At?) && lastP.At? ==> Pos(buffers, lastP) == Pos(old(buffers), old(lastP))
    {
      SegsIn(mem.raws, mem.used, buffers);
      FlatLength(mem.raws, buffers);
      GrewRefl(mem.raws, mem.used, mem.owner, this);
      assert buffers[..0] == [];
      ghost var all := Contents();
      var out: seq<Ptr>, i: nat, cur := [], 0, if lastP.At? then Dangling(lastP.off) else lastP;
      while i < |buffers|
        invariant i <= |buffers| && buffers == old(buffers) && lastP == old(lastP) && Valid() && Contents() == all
        invariant Grew(old(mem.raws), old(mem.used), old(mem.owner), mem.raws, mem.used, mem.owner, this)
        invariant Rebuilt(mem.raws, mem.used, buffers, all, i, out, alignSize, alignMemory)
        invariant Carried(buffers, lastP, out, cur)
        invariant Followed(old(mem.raws), buffers, lastP, cur, i, alignSize, alignMemory)
      {
        i, out, cur := RebuildNext(i, out, cur, alignSize, alignMemory, all, old(mem.raws), old(mem.used), old(mem.owner));
      }
      assert buffers[..i] == buffers;
      assert all[..|all|] == all;
      buffers, lastP := out, cur;
    }

    /** Keeps segment i, or merges it with segments that follow. */
    method RebuildNext(i: nat, out: seq<Ptr>, cur: Cursor, alignSize: nat, alignMemory: nat, ghost all: seq<Byte>,
                       ghost raws0: Raws, ghost used0: map<RawId, nat>, ghost owner0: map<RawId, BufferList>)
      returns (i': nat, out': seq<Ptr>, cur': Cursor)
      requires Valid() && alignSize > 0 && alignMemory > 0 && i < |buffers| && Contents() == all
      requires Rebuilt(mem.raws, mem.used, buffers, all, i, out, alignSize, alignMemory) && Carried(buffers, lastP, out, cur)
      requires Grew(raws0, used0, owner0, mem.raws, mem.used, mem.owner, this) && AllIn(raws0, buffers)
      requires Followed(raws0, buffers, lastP, cur, i, alignSize, alignMemory)
      modifies mem
      ensures Valid() && Contents() == all && i < i' <= |buffers|
      ensures Rebuilt(mem.raws, mem.used, buffers, all, i', out', alignSize, alignMemory) && Carried(buffers, lastP, out', cur')
      ensures Followed(raws0, buffers, lastP, cur', i', alignSize, alignMemory)
      ensures Grew(raws0, used0, owner0, mem.raws, mem.used, mem.owner, this)
    {
      SegsIn(mem.raws, mem.used, buffers);
      cur' := cur;
      GrewGood(raws0, used0, owner0, mem.raws, mem.used, mem.owner, this, buffers, alignSize, alignMemory);
      if GoodSeg(mem.raws, buffers[i], alignSize, alignMemory) {
        KeepSegment(mem.raws, mem.used, buffers, all, i, out, alignSize, alignMemory);
        CarryOn(buffers, lastP, out, cur, i, buffers[i]);
        if lastP.At? && lastP.seg == i { cur' := lastP.(seg := |out|); }
        FollowKept(raws0, buffers, lastP, cur, cur', i, alignSize, alignMemory);
        out', i' := out + [buffers[i]], i + 1;
      } else {
        var p;
        i', p := Consolidate(i, alignSize, alignMemory, out, all, raws0, used0, owner0);
        CarryOn(buffers, lastP, out, cur, |buffers|, p);
        FollowMerged(raws0, buffers, lastP, cur, i, i', alignSize, alignMemory);
        out' := out + [p];
      }
    }

    /** Merges segments from i on until what was merged has an aligned length and the next segment is
        good as it is. */
    method Consolidate(i: nat, alignSize: nat, alignMemory: nat, ghost out: seq<Ptr>, ghost all: seq<Byte>,
                       ghost raws0: Raws, ghost used0: map<RawId, nat>, ghost owner0: map<RawId, BufferList>)
      returns (j: nat, p: Ptr)
      requires Valid() && alignSize > 0 && alignMemory > 0 && i < |buffers| && Contents() == all
      requires Rebuilt(mem.raws, mem.used, buffers, all, i, out, alignSize, alignMemory)
      requires Grew(raws0, used0, owner0, mem.raws, mem.used, mem.owner, this) && SameGood(raws0, mem.raws, buffers, alignSize, alignMemory)
      modifies mem
      ensures Valid() && Contents() == all && i < j <= |buffers| && Group(raws0, buffers, i, j, alignSize, alignMemory)
      ensures Rebuilt(mem.raws, mem.used, buffers, all, j, out + [p], alignSize, alignMemory)
      ensures Grew(raws0, used0, owner0, mem.raws, mem.used, mem.owner, this)
    {
      SegsIn(mem.raws, mem.used, buffers);
      j := GroupEnd(mem.raws, buffers, i, alignSize, alignMemory);
      SameGroup(raws0, mem.raws, buffers, i, j, alignSize, alignMemory);
      if j == i + 1 && AlignedPtr(mem.raws, buffers[i], alignMemory) {
        p := buffers[i];
        FlatOne(mem.raws, p);
        assert buffers[i..j] == [p];
        AddGroup(mem.raws, mem.used, buffers, all, i, j, out, p, alignSize, alignMemory);
      } else {
        p := MergeGroup(i, j, alignSize, alignMemory, out, all, raws0, used0, owner0);
      }
    }

    /** Copies segments i up to j into one new segment. */
    method MergeGroup(i: nat, j: nat, alignSize: nat, alignMemory: nat, ghost out: seq<Ptr>, ghost all: seq<Byte>,
                      ghost raws0: Raws, ghost used0: map<RawId, nat>, ghost owner0: map<RawId, BufferList>)
      returns (p: Ptr)
      requires Valid() && alignSize > 0 && alignMemory > 0 && i < j <= |buffers| && Contents() == all
      requires j == |buffers| || Total(buffers[i..j]) % alignSize == 0
      requires Rebuilt(mem.raws, mem.used, buffers, all, i, out, alignSize, alignMemory)
      requires Grew(raws0, used0, owner0, mem.raws, mem.used, mem.owner, this)
      modifies mem
      ensures Valid() && Contents() == all
      ensures Rebuilt(mem.raws, mem.used, buffers, all, j, out + [p], alignSize, alignMemory)
      ensures Grew(raws0, used0, owner0, mem.raws, mem.used, mem.owner, this)
    {
      SegsIn(mem.raws, mem.used, buffers);
      var group := buffers[i..j];
      p := Gather(mem, this, group, alignMemory);
      GrewTrans(raws0, used0, owner0, old(mem.raws), old(mem.used), old(mem.owner), mem.raws, mem.used, mem.owner, this);
      GrewFlat(old(mem.raws), old(mem.used), old(mem.owner), mem.raws, mem.used, mem.owner, this, buffers);
      GrewFlat(old(mem.raws), old(mem.used), old(mem.owner), mem.raws, mem.used, mem.owner, this, group);
      GrewOwned(old(mem.raws), old(mem.used), old(mem.owner), mem.raws, mem.used, mem.owner, this, appendBuffer);
      GrewRebuilt(old(mem.raws), old(mem.used), old(mem.owner), mem.raws, mem.used, mem.owner, this, buffers, all, i, out,
                  alignSize, alignMemory);
      AddGroup(mem.raws, mem.used, buffers, all, i, j, out, p, alignSize, alignMemory);
    }
  }

  /** A list of which one byte has been read. */
  method ReadFirst(m: Memory) returns (a: BufferList)
    requires m.Valid()
    modifies m
    ensures fresh(a) && a.mem == m && a.Valid() && a.Contents() == [1, 2, 3, 4] && a.len == 4
    ensures a.lastP.At? && a.lastP.off == 1 && Pos(a.buffers, a.lastP) == 1
  {
    a := new BufferList(m);
    a.Append([1, 2, 3, 4]);
    var ok, _ := a.Copy(0, 1);
  }

  method Written(m: Memory) returns (b: BufferList)
    requires m.Valid()
    modifies m
    ensures fresh(b) && b.mem == m && b.Valid() && b.Contents() == [5, 6, 7, 8] && b.len == 4
    ensures Grew(old(m.raws), old(m.used), old(m.owner), m.raws, m.used, m.owner, b)
  {
    b := new BufferList(m);
    b.Append([5, 6, 7, 8]);
    SegsIn(m.raws, m.used, b.buffers);
    FlatLength(m.raws, b.buffers);
  }

  lemma JoinedBytes(s: seq<Byte>)
    requires s == [5, 6, 7, 8] + [1, 2, 3, 4]
    ensures |s| == 8 && s[5..7] == [2, 3] && s[1] == 6 && s[2] == 7
  {
  }

  /** A list is read, another is put in front of it, and it is read on from where the cursor claims to be:
      what is read is not what is there. */
  method CopyAfterPrepend(m: Memory) returns (read: seq<Byte>, there: seq<Byte>)
    requires m.Valid()
    modifies m
    ensures read == [2, 3] && there == [6, 7]
  {
    var a := ReadFirst(m);
    ghost var raws, used, owner := m.raws, m.used, m.owner;
    var b := Written(m);
    OthersKeep(raws, used, owner, m.raws, m.used, m.owner, b, a, a.buffers, a.appendBuffer);
    a.ClaimPrepend(b);
    JoinedBytes(a.Contents());
    var ok;
    ok, read := a.Copy(1, 2);
    var _, x := a.Get(1);
    var _, y := a.Get(2);
    there := [x, y];
  }

  /** The same with a rebuild: the cursor claims offset 1 and its segment is gone. */
  method DanglingAfterRebuild(m: Memory) returns (a: BufferList)
    requires m.Valid()
    modifies m
    ensures fresh(a) && a.mem == m && a.Valid() && a.Contents() == [1, 2, 3, 4] && a.lastP == Dangling(1)
  {
    a := ReadFirst(m);
    a.Rebuild();
  }

  /** The first i segments have been rearranged into `out`. */
  ghost predicate Rebuilt(raws: Raws, used: map<RawId, nat>, ps: seq<Ptr>, all: seq<Byte>, i: nat, out: seq<Ptr>,
                          alignSize: nat, alignMemory: nat) {
    && alignSize > 0 && alignMemory > 0 && i <= |ps| && SegsOk(used, out) && AllIn(raws, out)
    && Total(ps[..i]) <= |all| && Flat(raws, out) == all[..Total(ps[..i])] && Total(out) == Total(ps[..i])
    && (forall k {:trigger out[k]} | 0 <= k < |out| :: AlignedPtr(raws, out[k], alignMemory))
    && (forall k {:trigger out[k]} | 0 <= k < |out| ::
          out[k].len % alignSize == 0 || (k == |out| - 1 && i == |ps|))
  }

  lemma {:induction false} AddGroup(raws: Raws, used: map<RawId, nat>, ps: seq<Ptr>, all: seq<Byte>, i: nat, j: nat, out: seq<Ptr>,
                                    p: Ptr, alignSize: nat, alignMemory: nat)
    requires Rebuilt(raws, used, ps, all, i, out, alignSize, alignMemory) && AllIn(raws, ps) && all == Flat(raws, ps)
    requires i < j <= |ps| && SegOk(used, p) && InRaw(raws, p) && AlignedPtr(raws, p, alignMemory)
    requires AllIn(raws, ps[i..j]) && Bytes(raws, p) == Flat(raws, ps[i..j]) && p.len == Total(ps[i..j])
    requires j == |ps| || p.len % alignSize == 0
    ensures Rebuilt(raws, used, ps, all, j, out + [p], alignSize, alignMemory)
  {
    assert ps[..j] == ps[..i] + ps[i..j];
    FlatSnoc(raws, out, p);
    TotalConcat(ps[..i], ps[i..j]);
    FlatCut(raws, ps, j);
    FlatCut(raws, ps, i);
    FlatConcat(raws, ps[..i], ps[i..j]);
  }

  lemma {:induction false} KeepSegment(raws: Raws, used: map<RawId, nat>, ps: seq<Ptr>, all: seq<Byte>, i: nat, out: seq<Ptr>,
                                       alignSize: nat, alignMemory: nat)
    requires MemOk(raws, used) && SegsOk(used, ps) && AllIn(raws, ps) && all == Flat(raws, ps) && i < |ps|
    requires Rebuilt(raws, used, ps, all, i, out, alignSize, alignMemory)
    requires AlignedPtr(raws, ps[i], alignMemory) && ps[i].len % alignSize == 0
    ensures Rebuilt(raws, used, ps, all, i + 1, out + [ps[i]], alignSize, alignMemory)
  {
    assert ps[i..i + 1] == [ps[i]];
    FlatOne(raws, ps[i]);
    AddGroup(raws, used, ps, all, i, i + 1, out, ps[i], alignSize, alignMemory);
  }

  lemma GrewRebuilt(raws: Raws, used: map<RawId, nat>, owner: map<RawId, BufferList>, raws': Raws, used': map<RawId, nat>,
                    owner': map<RawId, BufferList>, me: BufferList, ps: seq<Ptr>, all: seq<Byte>, i: nat, out: seq<Ptr>,
                    alignSize: nat, alignMemory: nat)
    requires Grew(raws, used, owner, raws', used', owner', me) && Rebuilt(raws, used, ps, all, i, out, alignSize, alignMemory)
    ensures Rebuilt(raws', used', ps, all, i, out, alignSize, alignMemory)
  {
    GrewFlat(raws, used, owner, raws', used', owner', me, out);
    forall k | 0 <= k < |out| ensures AlignedPtr(raws', out[k], alignMemory) {
      assert GrewAt(raws, used, owner, raws', used', owner', me, out[k].raw);
    }
  }

  /** Where a group of segments to merge, starting with segment i, ends. */
  method GroupEnd(raws: Raws, ps: seq<Ptr>, i: nat, alignSize: nat, alignMemory: nat) returns (j: nat)
    requires alignSize > 0 && alignMemory > 0 && i < |ps|
    ensures i < j <= |ps| && (j == |ps| || Total(ps[i..j]) % alignSize == 0) && Group(raws, ps, i, j, alignSize, alignMemory)
  {
    var offset := ps[i].len;
    j := i + 1;
    assert ps[i..j] == [ps[i]] && [ps[i]][1..] == [];
    while j < |ps| && !(GoodSeg(raws, ps[j], alignSize, alignMemory) && offset % alignSize == 0)
      invariant i < j <= |ps| && offset == Total(ps[i..j])
      invariant forall k {:trigger GoodSeg(raws, ps[k], alignSize, alignMemory)} | i < k < j ::
                  !(GoodSeg(raws, ps[k], alignSize, alignMemory) && Total(ps[i..k]) % alignSize == 0)
    {
      assert ps[i..j + 1] == ps[i..j] + [ps[j]] && [ps[j]][1..] == [];
      TotalConcat(ps[i..j], [ps[j]]);
      offset := offset + ps[j].len;
      j := j + 1;
    }
  }

  /** The segment is aligned and has an aligned length. */
  predicate GoodSeg(raws: Raws, p: Ptr, alignSize: nat, alignMemory: nat)
    requires alignSize > 0 && alignMemory > 0
  {
    AlignedPtr(raws, p, alignMemory) && p.len % alignSize == 0
  }

  /** Segment k is not touched: it is good, and so is the number of bytes before it. */
  predicate Stays(raws: Raws, ps: seq<Ptr>, k: nat, alignSize: nat, alignMemory: nat) {
    && alignSize > 0 && alignMemory > 0 && k < |ps|
    && GoodSeg(raws, ps[k], alignSize, alignMemory) && Total(ps[..k]) % alignSize == 0
  }

  /** Segments i up to j are merged: none of them but the first starts where a good one would stay. */
  ghost predicate Group(raws: Raws, ps: seq<Ptr>, i: nat, j: nat, alignSize: nat, alignMemory: nat) {
    && alignSize > 0 && alignMemory > 0 && i < j <= |ps|
    && (j == |ps| || Total(ps[i..j]) % alignSize == 0)
    && forall k {:trigger GoodSeg(raws, ps[k], alignSize, alignMemory)} | i < k < j ::
         !(GoodSeg(raws, ps[k], alignSize, alignMemory) && Total(ps[i..k]) % alignSize == 0)
  }

  ghost predicate SameGood(raws: Raws, raws': Raws, ps: seq<Ptr>, alignSize: nat, alignMemory: nat) {
    && alignSize > 0 && alignMemory > 0
    && forall k {:trigger ps[k]} | 0 <= k < |ps| ::
         GoodSeg(raws, ps[k], alignSize, alignMemory) == GoodSeg(raws', ps[k], alignSize, alignMemory)
  }

  lemma SameGroup(raws: Raws, raws': Raws, ps: seq<Ptr>, i: nat, j: nat, alignSize: nat, alignMemory: nat)
    requires SameGood(raws, raws', ps, alignSize, alignMemory) && Group(raws', ps, i, j, alignSize, alignMemory)
    ensures Group(raws, ps, i, j, alignSize, alignMemory)
  {
    forall k {:trigger GoodSeg(raws, ps[k], alignSize, alignMemory)} | i < k < j
      ensures !(GoodSeg(raws, ps[k], alignSize, alignMemory) && Total(ps[i..k]) % alignSize == 0)
    {
      assert GoodSeg(raws, ps[k], alignSize, alignMemory) == GoodSeg(raws', ps[k], alignSize, alignMemory);
    }
  }

  lemma GrewGood(raws: Raws, used: map<RawId, nat>, owner: map<RawId, BufferList>, raws': Raws, used': map<RawId, nat>,
                 owner': map<RawId, BufferList>, me: BufferList, ps: seq<Ptr>, alignSize: nat, alignMemory: nat)
    requires Grew(raws, used, owner, raws', used', owner', me) && AllIn(raws, ps) && alignSize > 0 && alignMemory > 0
    ensures SameGood(raws, raws', ps, alignSize, alignMemory)
  {
    forall k {:trigger ps[k]} | 0 <= k < |ps|
      ensures GoodSeg(raws, ps[k], alignSize, alignMemory) == GoodSeg(raws', ps[k], alignSize, alignMemory)
    {
      assert InRaw(raws, ps[k]);
      assert GrewAt(raws, used, owner, raws', used', owner', me, ps[k].raw);
    }
  }

  /** The cursor c of ps, carried over to `out`: it is on the same byte, or dangling. */
  ghost predicate Carried(ps: seq<Ptr>, c: Cursor, out: seq<Ptr>, cur: Cursor) {
    && InList(ps, c) && (!c.At? ==> cur == c)
    && (c.At? ==> cur.off == c.off && !cur.End? && InList(out, cur) && (cur.At? ==> Pos(out, cur) == Pos(ps, c)))
  }

  lemma CarryOn(ps: seq<Ptr>, c: Cursor, out: seq<Ptr>, cur: Cursor, i: nat, p: Ptr)
    requires Carried(ps, c, out, cur) && i <= |ps| && (i < |ps| ==> p == ps[i] && Total(out) == Total(ps[..i]))
    ensures Carried(ps, c, out + [p], if c.At? && c.seg == i && i < |ps| then c.(seg := |out|) else cur)
  {
    if c.At? && c.seg == i && i < |ps| {
      assert (out + [p])[..|out|] == out;
    } else if c.At? {
      CursorBehind(out, out + [p], cur);
    }
  }

  /** Of the first i segments the cursor c has kept its own exactly if that stays. */
  ghost predicate Followed(raws: Raws, ps: seq<Ptr>, c: Cursor, cur: Cursor, i: nat, alignSize: nat, alignMemory: nat) {
    && alignSize > 0 && alignMemory > 0 && i <= |ps| && (i < |ps| ==> Total(ps[..i]) % alignSize == 0)
    && (c.At? ==> (cur.At? <==> c.seg < i && Stays(raws, ps, c.seg, alignSize, alignMemory)))
  }

  lemma FollowKept(raws: Raws, ps: seq<Ptr>, c: Cursor, cur: Cursor, cur': Cursor, i: nat, alignSize: nat, alignMemory: nat)
    requires Followed(raws, ps, c, cur, i, alignSize, alignMemory) && i < |ps| && GoodSeg(raws, ps[i], alignSize, alignMemory)
    requires if c.At? && c.seg == i then cur'.At? else cur' == cur
    ensures Followed(raws, ps, c, cur', i + 1, alignSize, alignMemory)
  {
    TotalNext(ps, i);
    AddMultiple(Total(ps[..i]), ps[i].len, alignSize);
  }

  lemma {:induction false} FollowMerged(raws: Raws, ps: seq<Ptr>, c: Cursor, cur: Cursor, i: nat, j: nat, alignSize: nat, alignMemory: nat)
    requires Followed(raws, ps, c, cur, i, alignSize, alignMemory) && Group(raws, ps, i, j, alignSize, alignMemory)
    requires !GoodSeg(raws, ps[i], alignSize, alignMemory)
    ensures Followed(raws, ps, c, cur, j, alignSize, alignMemory)
  {
    MergedTotal(ps, i, j, alignSize);
    if c.At? && i < c.seg < j { MergedTotal(ps, i, c.seg, alignSize); }
  }

  lemma MergedTotal(ps: seq<Ptr>, i: nat, k: nat, alignSize: nat)
    requires i <= k <= |ps| && alignSize > 0 && Total(ps[..i]) % alignSize == 0
    ensures Total(ps[..k]) % alignSize == Total(ps[i..k]) % alignSize
  {
    assert ps[..k] == ps[..i] + ps[i..k];
    TotalConcat(ps[..i], ps[i..k]);
    AddMultiple(Total(ps[..i]), Total(ps[i..k]), alignSize);
  }

  // ---------------------------------------------------------------- splicing and rebuilding

  /** Cuts a stretch out of a list: the stretch, and what is left. */
  method CutList(ghost raws: Raws, ghost used: map<RawId, nat>, ps: seq<Ptr>, off: nat, n: nat) returns (pieces: seq<Ptr>, kept: seq<Ptr>)
    requires MemOk(raws, used) && SegsOk(used, ps) && AllIn(raws, ps) && NoneEmpty(ps) && off + n <= Total(ps)
    ensures SegsOk(used, pieces) && Sliced(raws, ps, off, off + n, pieces) && Spliced(raws, used, ps, off, off + n, kept)
  {
    var k, d := SkipTo(ps, off);
    var i, o;
    pieces, i, o := Slice(raws, ps, off, n);
    SlicedOk(raws, used, ps, off, off + n, pieces);
    kept := JoinAround(raws, used, ps, k, d, off, i, o, off + n);
  }

  /** What is before one place and after another. */
  method JoinAround(ghost raws: Raws, ghost used: map<RawId, nat>, ps: seq<Ptr>, k: nat, d: nat, ghost off: nat, i: nat, o: nat,
                    ghost stop: nat) returns (kept: seq<Ptr>)
    requires MemOk(raws, used) && SegsOk(used, ps) && AllIn(raws, ps) && NoneEmpty(ps) && off <= stop
    requires Place(ps, k, d, off) && Place(ps, i, o, stop)
    ensures Spliced(raws, used, ps, off, stop, kept)
  {
    SpliceOk(raws, used, ps, k, d, off, i, o, stop);
    kept := Upto(ps, k, d) + From(ps, i, o);
  }

  lemma SlicedOk(raws: Raws, used: map<RawId, nat>, ps: seq<Ptr>, off: nat, stop: nat, pieces: seq<Ptr>)
    requires SegsOk(used, ps) && Sliced(raws, ps, off, stop, pieces)
    ensures SegsOk(used, pieces)
  {
    WithinOk(used, ps, pieces);
  }

  /** `kept` stands for the bytes outside off..stop. */
  ghost predicate Spliced(raws: Raws, used: map<RawId, nat>, ps: seq<Ptr>, off: nat, stop: nat, kept: seq<Ptr>) {
    && AllIn(raws, ps) && off <= stop <= |Flat(raws, ps)| && SegsOk(used, kept) && AllIn(raws, kept)
    && Flat(raws, kept) == Flat(raws, ps)[..off] + Flat(raws, ps)[stop..] && Total(kept) == Total(ps) - (stop - off)
    && CursorOk(kept, Begin(kept))
  }

  lemma {:induction false} SpliceOk(raws: Raws, used: map<RawId, nat>, ps: seq<Ptr>, k: nat, d: nat, off: nat, i: nat, o: nat, stop: nat)
    requires MemOk(raws, used) && SegsOk(used, ps) && AllIn(raws, ps) && NoneEmpty(ps)
    requires Place(ps, k, d, off) && Place(ps, i, o, stop) && off <= stop
    ensures Spliced(raws, used, ps, off, stop, Upto(ps, k, d) + From(ps, i, o))
  {
    UptoFlat(raws, ps, k, d, off);
    FromFlat(raws, ps, i, o, stop);
    WithinOk(used, ps, Upto(ps, k, d));
    WithinOk(used, ps, From(ps, i, o));
    JoinLists(raws, used, Upto(ps, k, d), From(ps, i, o));
    SegsIn(raws, used, Upto(ps, k, d) + From(ps, i, o));
    BeginOk(Upto(ps, k, d) + From(ps, i, o));
  }

  predicate AlignedPtr(raws: Raws, p: Ptr, align: nat)
    requires align > 0
  {
    p.raw in raws && (raws[p.raw].addr + p.off) % align == 0
  }

  lemma GrewOwned(raws: Raws, used: map<RawId, nat>, owner: map<RawId, BufferList>, raws': Raws, used': map<RawId, nat>,
                  owner': map<RawId, BufferList>, me: BufferList, tail: Option<Ptr>)
    requires Grew(raws, used, owner, raws', used', owner', me) && Owned(used, owner, me, tail)
    requires forall r | r in used :: r in used' && used'[r] == used[r]
    ensures Owned(used', owner', me, tail)
  {
    if tail.Some? { assert GrewAt(raws, used, owner, raws', used', owner', me, tail.value.raw); }
  }

  /** A new raw buffer holding the bytes of the given segments. */
  method Gather(mem: Memory, ghost me: BufferList, ps: seq<Ptr>, align: nat) returns (nb: Ptr)
    requires mem.Valid() && SegsOk(mem.used, ps) && AllIn(mem.raws, ps) && align > 0 && ps != []
    modifies mem
    ensures mem.Valid() && SegOk(mem.used, nb) && AlignedPtr(mem.raws, nb, align) && nb.len == Total(ps)
    ensures InRaw(mem.raws, nb) && Bytes(mem.raws, nb) == old(Flat(mem.raws, ps))
    ensures Grew(old(mem.raws), old(mem.used), old(mem.owner), mem.raws, mem.used, mem.owner, me)
    ensures forall r | r in old(mem.used) :: r in mem.used && mem.used[r] == old(mem.used)[r]
  {
    var n, r, raw := Total(ps), 0, Raw([], 0, map[]);
    FlatLength(mem.raws, ps);
    r, raw := mem.Create(n, align);
    var bytes := CopyAll(mem.raws, ps);
    raw := raw.(bytes := bytes);
    NewRaw(mem.raws, mem.used, mem.owner, mem.owner, me, r, raw, n);
    assert bytes[0..n] == bytes;
    mem.raws, mem.used := mem.raws[r := raw], mem.used[r := n];
    nb := Ptr(r, 0, n);
  }

  method CopyAll(raws: Raws, ps: seq<Ptr>) returns (out: seq<Byte>)
    requires AllIn(raws, ps)
    ensures out == Flat(raws, ps)
  {
    out := [];
    var k := 0;
    while k < |ps|
      invariant 0 <= k <= |ps| && AllIn(raws, ps[..k]) && out == Flat(raws, ps[..k])
    {
      assert ps[..k + 1] == ps[..k] + [ps[k]];
      FlatSnoc(raws, ps[..k], ps[k]);
      out := out + Bytes(raws, ps[k]);
      k := k + 1;
    }
    assert ps[..k] == ps;
  }

  // ---------------------------------------------------------------- zeroing

  /** The loop of Zero over the segments. */
  method ZeroRaws(raws0: Raws, ghost used: map<RawId, nat>, ps: seq<Ptr>, o: nat, l: nat) returns (raws: Raws)
    requires MemOk(raws0, used) && AllIn(raws0, ps) && NoneEmpty(ps) && o + l <= Total(ps)
    ensures MemOk(raws, used) && Zeroed(raws0, raws, ps, o, l)
  {
    raws := raws0;
    ghost var e := ZeroEnd(ps, o, l);
    ghost var goal := WriteList(raws, ps, o, Zeros(e - o));
    var k, p: nat := 0, 0;
    assert ps[..0] == [];
    var done := false;
    while k < |ps| && !done
      invariant k <= |ps| && MemOk(raws, used) && AllIn(raws, ps) && p == Total(ps[..k])
      invariant done ==> SameBytes(goal, raws)
      invariant !done ==> Zeroing(goal, raws, ps, o, l, e, p) && (o + l > p || p == 0)
    {
      TotalNext(ps, k);
      done, raws := ZeroSegment(goal, raws, used, ps, k, p, o, l, e);
      p, k := p + ps[k].len, k + 1;
    }
    if !done { ZeroNothing(goal, raws, ps, o, l, e, k); }
  }

  /** Zeroes what segment k, which starts at p, has of the range; tells whether the range ends there. */
  method ZeroSegment(ghost goal: Raws, raws: Raws, ghost used: map<RawId, nat>, ps: seq<Ptr>, k: nat, p: nat, o: nat, l: nat,
                     ghost e: nat) returns (done: bool, w: Raws)
    requires MemOk(raws, used) && AllIn(raws, ps) && NoneEmpty(ps) && o + l <= Total(ps) && e == ZeroEnd(ps, o, l)
    requires k < |ps| && p == Total(ps[..k]) && (o + l > p || p == 0) && Zeroing(goal, raws, ps, o, l, e, p)
    ensures MemOk(w, used) && AllIn(w, ps) && (done <==> o + l <= p + ps[k].len)
    ensures if done then SameBytes(goal, w) else Zeroing(goal, w, ps, o, l, e, p + ps[k].len)
  {
    done, w := o + l <= p + ps[k].len, raws;
    if p + ps[k].len > o {
      var at, n := ZeroPart(ps[k], p, o, l);
      ZeroStep(goal, raws, used, ps, k, p, o, l, e, at, n);
      w := WritePtr(raws, ps[k], at, Zeros(n));
    } else if done {
      TotalNext(ps, k);
      ZeroNothing(goal, raws, ps, o, l, e, k + 1);
    }
  }

  /** Which part of a segment that starts at p is zeroed: all of it, its head, or all from o on. */
  method ZeroPart(b: Ptr, p: nat, o: nat, l: nat) returns (at: nat, n: nat)
    requires p + b.len > o && (o + l > p || p == 0)
    ensures at == (if p >= o then 0 else o - p)
    ensures n == if p < o then b.len - at else if p + b.len <= o + l then b.len else o + l - p
  {
    if p >= o && p + b.len <= o + l { return 0, b.len; }
    if p >= o { return 0, o + l - p; }
    return o - p, b.len - (o - p);
  }

  /** What is left to zero from offset p of the list leads to the goal. */
  ghost predicate Zeroing(goal: Raws, raws: Raws, ps: seq<Ptr>, o: nat, l: nat, e: nat, p: nat) {
    && o <= e
    && if p <= o then Writing(goal, raws, ps, o, Zeros(e - o))
       else p <= e == o + l && Writing(goal, raws, ps, p, Zeros(e - p))
  }

  lemma ZerosCut(n: nat, a: nat)
    requires a <= n
    ensures Zeros(n)[..a] == Zeros(a) && Zeros(n)[a..] == Zeros(n - a)
  {
  }

  lemma {:induction false} ZeroStep(goal: Raws, raws: Raws, used: map<RawId, nat>, ps: seq<Ptr>, k: nat, p: nat, o: nat, l: nat,
                                   e: nat, at: nat, n: nat)
    requires MemOk(raws, used) && AllIn(raws, ps) && NoneEmpty(ps) && o + l <= Total(ps) && e == ZeroEnd(ps, o, l)
    requires k < |ps| && p == Total(ps[..k]) && p + ps[k].len > o && (o + l > p || p == 0)
    requires Zeroing(goal, raws, ps, o, l, e, p)
    requires at == (if p >= o then 0 else o - p)
    requires n == if p < o then ps[k].len - at else if p + ps[k].len <= o + l then ps[k].len else o + l - p
    ensures MemOk(WritePtr(raws, ps[k], at, Zeros(n)), used) && AllIn(WritePtr(raws, ps[k], at, Zeros(n)), ps)
    ensures if o + l <= p + ps[k].len then SameBytes(goal, WritePtr(raws, ps[k], at, Zeros(n)))
            else Zeroing(goal, WritePtr(raws, ps[k], at, Zeros(n)), ps, o, l, e, p + ps[k].len)
  {
    WritePtrMem(raws, used, ps[k], at, Zeros(n));
    WritePtrAllIn(raws, ps[k], at, Zeros(n), ps);
    if p <= o { ZeroEndAt(ps, o, l, k); }
    if n == 0 {
      EmptyWrite(raws, ps[k]);
    } else {
      ZeroWrites(goal, raws, ps, k, p + at, e, at, n);
    }
  }

  /** One segment's share of the zeros left to write. */
  lemma {:induction false} ZeroWrites(goal: Raws, raws: Raws, ps: seq<Ptr>, k: nat, q: nat, e: nat, at: nat, n: nat)
    requires AllIn(raws, ps) && k < |ps| && at < ps[k].len && q == Total(ps[..k]) + at && q < e
    requires Writing(goal, raws, ps, q, Zeros(e - q)) && n == Chunk(ps[k], at, e - q)
    ensures AllIn(WritePtr(raws, ps[k], at, Zeros(n)), ps)
    ensures if q + n == e then SameBytes(goal, WritePtr(raws, ps[k], at, Zeros(n)))
            else Writing(goal, WritePtr(raws, ps[k], at, Zeros(n)), ps, q + n, Zeros(e - q - n))
  {
    ZerosCut(e - q, n);
    WriteStep(raws, ps, k, at, Zeros(e - q), n);
    SameBytesRefl(WritePtr(raws, ps[k], at, Zeros(n)));
  }

  /** A range of length zero that starts between two segments needs no write. */
  lemma {:induction false} ZeroNothing(goal: Raws, raws: Raws, ps: seq<Ptr>, o: nat, l: nat, e: nat, k: nat)
    requires AllIn(raws, ps) && NoneEmpty(ps) && k <= |ps| && o + l <= Total(ps) && e == ZeroEnd(ps, o, l)
    requires k == |ps| || o + l <= Total(ps[..k]) <= o
    requires Total(ps[..k]) <= o ==> Zeroing(goal, raws, ps, o, l, e, Total(ps[..k]))
    requires Total(ps[..k]) > o ==> o + l > Total(ps[..k])
    ensures SameBytes(goal, raws)
  {
    assert k == |ps| ==> ps[..k] == ps;
    ZeroAtBoundary(ps, o, l, k);
    SameBytesRefl(raws);
  }

  lemma EmptyWrite(raws: Raws, p: Ptr)
    requires InRaw(raws, p)
    ensures SameBytes(raws, WritePtr(raws, p, 0, Zeros(0)))
  {
    var w := WritePtr(raws, p, 0, Zeros(0));
    forall r | r in raws ensures BytesAt(raws, w, r) {}
  }

  /** A range that starts between two segments is not zeroed too far. */
  lemma ZeroAtBoundary(ps: seq<Ptr>, o: nat, l: nat, k: nat)
    requires NoneEmpty(ps) && k <= |ps| && Total(ps[..k]) == o && o + l <= Total(ps)
    ensures ZeroEnd(ps, o, l) == o + l
  {
    if k < |ps| { ZeroEndAt(ps, o, l, k); } else { assert ps[..k] == ps; }
  }

  /** The raw buffers differ from those before by zeros from o up to ZeroEnd. */
  ghost predicate Zeroed(raws0: Raws, raws: Raws, ps: seq<Ptr>, o: nat, l: nat) {
    && AllIn(raws0, ps) && o + l <= Total(ps)
    && SameBytes(WriteList(raws0, ps, o, Zeros(ZeroEnd(ps, o, l) - o)), raws)
  }

  /** Through segments that do not overlap, zeroing overwrites the bytes from o up to ZeroEnd. */
  lemma {:induction false} ZeroIsOverwrite(raws0: Raws, raws: Raws, ps: seq<Ptr>, o: nat, l: nat)
    requires Zeroed(raws0, raws, ps, o, l) && NoOverlap(ps)
    ensures AllIn(raws, ps) && |Flat(raws0, ps)| == Total(ps)
    ensures Flat(raws, ps) == Overwrite(Flat(raws0, ps), o, Zeros(ZeroEnd(ps, o, l) - o))
  {
    var src := Zeros(ZeroEnd(ps, o, l) - o);
    WriteIsOverwrite(raws0, ps, o, src);
    SameBytesFlat(WriteList(raws0, ps, o, src), raws, ps);
  }

  /** A range is zeroed and nothing else, unless it lies inside one segment, after its first byte and
      before its end; then the byte that follows the range is zeroed too, whatever it was. */
  lemma {:induction false} ZeroIsRight(raws0: Raws, raws: Raws, ps: seq<Ptr>, o: nat, l: nat)
    requires Zeroed(raws0, raws, ps, o, l) && NoOverlap(ps)
    ensures AllIn(raws, ps) && |Flat(raws0, ps)| == |Flat(raws, ps)| == Total(ps)
    ensures !InsideOneSegment(ps, o, l) ==> Flat(raws, ps) == Overwrite(Flat(raws0, ps), o, Zeros(l))
    ensures InsideOneSegment(ps, o, l) ==> o + l < Total(ps) && Flat(raws, ps)[o + l] == 0
  {
    ZeroIsOverwrite(raws0, raws, ps, o, l);
    ZeroEndExact(ps, o, l);
    if InsideOneSegment(ps, o, l) { OverwriteAt(Flat(raws0, ps), o, Zeros(ZeroEnd(ps, o, l) - o), o + l); }
  }

  lemma OverwriteAt(b: seq<Byte>, at: nat, src: seq<Byte>, k: nat)
    requires at + |src| <= |b| && at <= k < at + |src|
    ensures Overwrite(b, at, src)[k] == src[k - at]
  {
  }

  /** Zeroing one byte in the middle of a segment of four wipes out the rest of it. */
  lemma ZeroTooFar(raws: Raws)
    requires Zeroed(map[0 := Raw([1, 2, 3, 4], 0, map[])], raws, [Ptr(0, 0, 4)], 1, 1)
    ensures AllIn(raws, [Ptr(0, 0, 4)]) && Flat(raws, [Ptr(0, 0, 4)]) == [1, 0, 0, 0]
  {
    var raws0, ps := map[0 := Raw([1, 2, 3, 4], 0, map[])], [Ptr(0, 0, 4)];
    ZeroIsOverwrite(raws0, raws, ps, 1, 1);
    FlatOne(raws0, ps[0]);
    assert ps[1..] == [];
    assert Flat(raws0, ps) == [1, 2, 3, 4];
    assert Zeros(3) == [0, 0, 0];
  }

  // ---------------------------------------------------------------- checksums

  ghost predicate SumUpTo(raws: Raws, ps: seq<Ptr>, k: nat, seed: Word, crc: Word) {
    k <= |ps| && AllIn(raws, ps[..k]) && crc == Crc32c(seed, Flat(raws, ps[..k]))
  }

  lemma {:induction false} SumNext(raws: Raws, ps: seq<Ptr>, k: nat, seed: Word, crc: Word)
    requires AllIn(raws, ps) && k < |ps| && SumUpTo(raws, ps, k, seed, crc)
    ensures SumUpTo(raws, ps, k + 1, seed, Crc32c(crc, Bytes(raws, ps[k])))
  {
    assert ps[..k + 1] == ps[..k] + [ps[k]];
    FlatSnoc(raws, ps[..k], ps[k]);
    CrcConcat(seed, Flat(raws, ps[..k]), Bytes(raws, ps[k]));
  }

  // ---------------------------------------------------------------- writing

  /** Half-way through a write: what is left to do leads to the goal. */
  ghost predicate Writing(goal: Raws, raws: Raws, ps: seq<Ptr>, at: nat, src: seq<Byte>) {
    AllIn(raws, ps) && at + |src| <= Total(ps) && WriteList(raws, ps, at, src) == goal
  }

  /** The loop of a write from a cursor. */
  method WriteRaws(raws0: Raws, ghost used: map<RawId, nat>, ps: seq<Ptr>, c: Cursor, src: seq<Byte>)
    returns (ok: bool, r: Cursor, raws: Raws)
    requires MemOk(raws0, used) && AllIn(raws0, ps) && NoneEmpty(ps) && Settled(ps, c) && Pos(ps, c) <= Total(ps)
    ensures MemOk(raws, used)
    ensures ok <==> Pos(ps, c) + |src| <= Total(ps)
    ensures ok ==> raws == WriteList(raws0, ps, Pos(ps, c), src)
    ensures ok ==> Settled(ps, r) && Pos(ps, r) == Pos(ps, c) + |src| && r.off == c.off + |src|
    ensures !ok ==> r.End?
  {
    ghost var fits := Pos(ps, c) + |src| <= Total(ps);
    ghost var goal := if fits then WriteList(raws0, ps, Pos(ps, c), src) else raws0;
    r, raws := c, raws0;
    var left := src;
    while left != []
      invariant MemOk(raws, used) && AllIn(raws, ps) && Settled(ps, r) && |left| <= |src| && Pos(ps, r) <= Total(ps)
      invariant Pos(ps, r) + |left| == Pos(ps, c) + |src| && r.off + |left| == c.off + |src|
      invariant fits ==> Writing(goal, raws, ps, Pos(ps, r), left)
      decreases |left|
    {
      if r.End? { return false, r, raws; }
      var n := Chunk(ps[r.seg], r.inSeg, |left|);
      TotalNext(ps, r.seg);
      WriteChunk(goal, fits, raws, used, ps, r, left, n);
      raws := WritePtr(raws, ps[r.seg], r.inSeg, left[..n]);
      ok, r := AdvanceForward(ps, r, n);
      left := left[n..];
    }
    ok := true;
  }

  /** Writing as much as fits in the segment under the cursor. */
  lemma WriteChunk(goal: Raws, fits: bool, raws: Raws, used: map<RawId, nat>, ps: seq<Ptr>, c: Cursor, src: seq<Byte>, n: nat)
    requires MemOk(raws, used) && AllIn(raws, ps) && Settled(ps, c) && c.At? && src != []
    requires n == Chunk(ps[c.seg], c.inSeg, |src|) && (fits ==> Writing(goal, raws, ps, Pos(ps, c), src))
    ensures var w := WritePtr(raws, ps[c.seg], c.inSeg, src[..n]);
            MemOk(w, used) && AllIn(w, ps) && (fits ==> Writing(goal, w, ps, Pos(ps, c) + n, src[n..]))
  {
    WritePtrMem(raws, used, ps[c.seg], c.inSeg, src[..n]);
    WritePtrAllIn(raws, ps[c.seg], c.inSeg, src[..n], ps);
    if fits { WriteStep(raws, ps, c.seg, c.inSeg, src, n); }
  }

  lemma JoinLists(raws: Raws, used: map<RawId, nat>, ps: seq<Ptr>, qs: seq<Ptr>)
    requires MemOk(raws, used) && SegsOk(used, ps) && SegsOk(used, qs)
    ensures SegsOk(used, ps + qs) && Total(ps + qs) == Total(ps) + Total(qs)
    ensures AllIn(raws, ps) && AllIn(raws, qs) && AllIn(raws, ps + qs) && Flat(raws, ps + qs) == Flat(raws, ps) + Flat(raws, qs)
  {
    SegsIn(raws, used, ps);
    SegsIn(raws, used, qs);
    FlatConcat(raws, ps, qs);
    TotalConcat(ps, qs);
  }

  /** The same place after n segments were put in front. */
  function Shifted(c: Cursor, n: nat): Cursor {
    if c.At? then c.(seg := c.seg + n) else c
  }

  lemma PosInFront(qs: seq<Ptr>, ps: seq<Ptr>, k: nat)
    requires k <= |ps|
    ensures Total((qs + ps)[..k + |qs|]) == Total(qs) + Total(ps[..k])
  {
    assert (qs + ps)[..k + |qs|] == qs + ps[..k];
    TotalConcat(qs, ps[..k]);
  }

  /** A cursor into a list to which segments are added in front. */
  lemma {:induction false} CursorInFront(qs: seq<Ptr>, ps: seq<Ptr>, c: Cursor)
    requires InList(ps, c)
    ensures InList(qs + ps, Shifted(c, |qs|))
    ensures c.At? ==> Pos(qs + ps, Shifted(c, |qs|)) == Total(qs) + Pos(ps, c)
    ensures CursorOk(ps, c) ==> (CursorOk(qs + ps, Shifted(c, |qs|)) <==> c.End? || Total(qs) == 0)
  {
    if c.At? {
      PosInFront(qs, ps, c.seg);
      assert (qs + ps)[c.seg + |qs|] == ps[c.seg];
    }
  }

  /** What a copy at the cursor's offset reads after segments were added in front: the bytes that were at
      that offset before. */
  lemma PrependMisreads(raws: Raws, qs: seq<Ptr>, ps: seq<Ptr>, c: Cursor, n: nat)
    requires AllIn(raws, qs) && AllIn(raws, ps) && CursorOk(ps, c) && c.At? && c.off + n <= Total(ps)
    ensures AllIn(raws, qs + ps) && InList(qs + ps, Shifted(c, |qs|))
    ensures var start := ReadStart(qs + ps, Shifted(c, |qs|), c.off);
            && start + n <= |Flat(raws, qs + ps)| && c.off + n <= |Flat(raws, ps)|
            && Flat(raws, qs + ps)[start..start + n] == Flat(raws, ps)[c.off..c.off + n]
  {
    CursorInFront(qs, ps, c);
    FlatConcat(raws, qs, ps);
    FlatLength(raws, qs);
    FlatLength(raws, ps);
  }

  lemma WithinOk(used: map<RawId, nat>, ps: seq<Ptr>, qs: seq<Ptr>)
    requires SegsOk(used, ps) && AllWithin(qs, ps)
    ensures SegsOk(used, qs)
  {
    forall i | 0 <= i < |qs| ensures SegOk(used, qs[i]) {
      assert PartOf(qs[i], ps);
      var k :| 0 <= k < |ps| && Within(qs[i], ps[k]);
      assert SegOk(used, ps[k]);
    }
  }
}
