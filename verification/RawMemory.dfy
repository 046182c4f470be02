/**
 * The raw buffers that buffer lists share.  Of every raw buffer a first part is in use; only the
 * list that owns its tail extends that part.  Cached checksums lie within the part in use.
 */
module RawMemory {
  import opened Registers
  import opened Crc
  import opened Ropes
  import opened RopeWrites

  ghost predicate CrcOk(raw: Raw, used: nat, k: (nat, nat)) {
    && k in raw.crcs && k.0 <= k.1 <= used <= |raw.bytes|
    && raw.crcs[k].1 == Crc32c(raw.crcs[k].0, raw.bytes[k.0..k.1])
  }

  ghost predicate RawOk(raw: Raw, used: nat) {
    used <= |raw.bytes| && forall k {:trigger CrcOk(raw, used, k)} | k in raw.crcs :: CrcOk(raw, used, k)
  }

  ghost predicate MemOk(raws: Raws, used: map<RawId, nat>) {
    used.Keys == raws.Keys && forall r {:trigger RawOk(raws[r], used[r])} | r in raws :: RawOk(raws[r], used[r])
  }

  /** A segment lies within the part in use of its raw buffer. */
  ghost predicate SegOk(used: map<RawId, nat>, p: Ptr) {
    p.raw in used && p.Stop() <= used[p.raw] && p.len > 0
  }

  ghost predicate SegsOk(used: map<RawId, nat>, ps: seq<Ptr>) {
    forall i {:trigger ps[i]} | 0 <= i < |ps| :: SegOk(used, ps[i])
  }

  lemma SegIn(raws: Raws, used: map<RawId, nat>, p: Ptr)
    requires MemOk(raws, used) && p.raw in used && p.Stop() <= used[p.raw]
    ensures InRaw(raws, p)
  {
    assert RawOk(raws[p.raw], used[p.raw]);
  }

  lemma SegsIn(raws: Raws, used: map<RawId, nat>, ps: seq<Ptr>)
    requires MemOk(raws, used) && SegsOk(used, ps)
    ensures AllIn(raws, ps) && NoneEmpty(ps)
  {
    forall i | 0 <= i < |ps| ensures InRaw(raws, ps[i]) { SegIn(raws, used, ps[i]); }
  }

  // ---------------------------------------------------------------- growth

  ghost predicate GrewAt<O>(raws: Raws, used: map<RawId, nat>, owner: map<RawId, O>,
                            raws': Raws, used': map<RawId, nat>, owner': map<RawId, O>, me: O, r: RawId)
    requires r in raws && r in used
  {
    && r in raws' && r in used' && used[r] <= used'[r]
    && used[r] <= |raws[r].bytes| && used[r] <= |raws'[r].bytes|
    && raws'[r].bytes[..used[r]] == raws[r].bytes[..used[r]] && raws'[r].addr == raws[r].addr
    && (r in owner <==> r in owner') && (r in owner ==> owner'[r] == owner[r])
    && ((r in owner && owner[r] == me) || (raws'[r] == raws[r] && used'[r] == used[r]))
  }

  /** What an append by `me` may do: bytes in use stay, and only raw buffers whose tail it owns are
      extended. */
  ghost predicate Grew<O>(raws: Raws, used: map<RawId, nat>, owner: map<RawId, O>,
                          raws': Raws, used': map<RawId, nat>, owner': map<RawId, O>, me: O) {
    && used.Keys == raws.Keys
    && forall r {:trigger GrewAt(raws, used, owner, raws', used', owner', me, r)} | r in raws ::
         GrewAt(raws, used, owner, raws', used', owner', me, r)
  }

  lemma GrewRefl<O>(raws: Raws, used: map<RawId, nat>, owner: map<RawId, O>, me: O)
    requires MemOk(raws, used)
    ensures Grew(raws, used, owner, raws, used, owner, me)
  {
    forall r | r in raws ensures GrewAt(raws, used, owner, raws, used, owner, me, r) {
      assert RawOk(raws[r], used[r]);
    }
  }

  lemma GrewTrans<O>(raws: Raws, used: map<RawId, nat>, owner: map<RawId, O>, raws1: Raws, used1: map<RawId, nat>,
                     owner1: map<RawId, O>, raws2: Raws, used2: map<RawId, nat>, owner2: map<RawId, O>, me: O)
    requires Grew(raws, used, owner, raws1, used1, owner1, me) && Grew(raws1, used1, owner1, raws2, used2, owner2, me)
    ensures Grew(raws, used, owner, raws2, used2, owner2, me)
  {
    forall r | r in raws ensures GrewAt(raws, used, owner, raws2, used2, owner2, me, r) {
      assert GrewAt(raws, used, owner, raws1, used1, owner1, me, r);
      assert GrewAt(raws1, used1, owner1, raws2, used2, owner2, me, r);
      PrefixTrans(raws[r].bytes, raws1[r].bytes, raws2[r].bytes, used[r], used1[r]);
    }
  }

  lemma PrefixTrans(a: seq<Byte>, b: seq<Byte>, c: seq<Byte>, n: nat, m: nat)
    requires n <= |a| && n <= m <= |b| && m <= |c| && b[..n] == a[..n] && c[..m] == b[..m]
    ensures c[..n] == a[..n]
  {
    assert c[..n] == c[..m][..n] && b[..n] == b[..m][..n];
  }

  lemma SliceOfPrefix(s: seq<Byte>, n: nat, i: nat, j: nat)
    requires i <= j <= n <= |s|
    ensures s[..n][i..j] == s[i..j]
  {
  }

  lemma GrewBytes<O>(raws: Raws, used: map<RawId, nat>, owner: map<RawId, O>, raws': Raws, used': map<RawId, nat>,
                     owner': map<RawId, O>, me: O, p: Ptr)
    requires Grew(raws, used, owner, raws', used', owner', me) && p.raw in used && p.Stop() <= used[p.raw]
    ensures InRaw(raws, p) && InRaw(raws', p) && p.raw in used' && p.Stop() <= used'[p.raw]
    ensures Bytes(raws', p) == Bytes(raws, p)
  {
    assert GrewAt(raws, used, owner, raws', used', owner', me, p.raw);
    SliceOfPrefix(raws[p.raw].bytes, used[p.raw], p.off, p.Stop());
    SliceOfPrefix(raws'[p.raw].bytes, used[p.raw], p.off, p.Stop());
  }

  /** No list changes when another one appends. */
  lemma {:induction false} GrewFlat<O>(raws: Raws, used: map<RawId, nat>, owner: map<RawId, O>, raws': Raws,
                                       used': map<RawId, nat>, owner': map<RawId, O>, me: O, ps: seq<Ptr>)
    requires Grew(raws, used, owner, raws', used', owner', me) && SegsOk(used, ps)
    ensures AllIn(raws, ps) && AllIn(raws', ps) && SegsOk(used', ps) && Flat(raws', ps) == Flat(raws, ps)
  {
    if ps != [] {
      GrewBytes(raws, used, owner, raws', used', owner', me, ps[0]);
      GrewFlat(raws, used, owner, raws', used', owner', me, ps[1..]);
      forall i | 0 <= i < |ps| ensures InRaw(raws, ps[i]) && InRaw(raws', ps[i]) && SegOk(used', ps[i]) {
        assert i > 0 ==> ps[i] == ps[1..][i - 1];
      }
    }
  }

  // ---------------------------------------------------------------- the steps of an append

  /** A new raw buffer, none of it in use. */
  lemma NewRaw<O>(raws: Raws, used: map<RawId, nat>, owner: map<RawId, O>, owner': map<RawId, O>, me: O, r: RawId, raw: Raw, n: nat)
    requires MemOk(raws, used) && r !in raws && raw.crcs == map[] && n <= |raw.bytes| && owner' - {r} == owner - {r}
    ensures MemOk(raws[r := raw], used[r := n])
    ensures Grew(raws, used, owner, raws[r := raw], used[r := n], owner', me)
  {
    var raws', used' := raws[r := raw], used[r := n];
    forall x | x in raws' ensures RawOk(raws'[x], used'[x]) {
      if x != r { assert RawOk(raws[x], used[x]); }
    }
    forall x | x in raws ensures GrewAt(raws, used, owner, raws', used', owner', me, x) {
      assert RawOk(raws[x], used[x]) && (x in owner <==> x in owner - {r}) && (x in owner' <==> x in owner' - {r});
      if x in owner { assert (owner - {r})[x] == owner[x] && (owner' - {r})[x] == owner'[x]; }
    }
  }

  function Extended(raw: Raw, at: nat, src: seq<Byte>): Raw
    requires at + |src| <= |raw.bytes|
  {
    raw.(bytes := Overwrite(raw.bytes, at, src))
  }

  /** Writing behind the part in use keeps every cached checksum right. */
  lemma ExtendedOk(raw: Raw, at: nat, src: seq<Byte>)
    requires RawOk(raw, at) && at + |src| <= |raw.bytes|
    ensures RawOk(Extended(raw, at, src), at + |src|)
  {
    var e := Extended(raw, at, src);
    forall k | k in e.crcs ensures CrcOk(e, at + |src|, k) {
      assert CrcOk(raw, at, k);
      assert e.bytes[k.0..k.1] == raw.bytes[k.0..k.1];
    }
  }

  lemma TailWrite<O>(raws: Raws, used: map<RawId, nat>, owner: map<RawId, O>, me: O, r: RawId, src: seq<Byte>)
    requires MemOk(raws, used) && r in raws && r in owner && owner[r] == me && used[r] + |src| <= |raws[r].bytes|
    ensures var raws', used' := raws[r := Extended(raws[r], used[r], src)], used[r := used[r] + |src|];
            MemOk(raws', used') && Grew(raws, used, owner, raws', used', owner, me)
  {
    var raws', used' := raws[r := Extended(raws[r], used[r], src)], used[r := used[r] + |src|];
    assert RawOk(raws[r], used[r]);
    ExtendedOk(raws[r], used[r], src);
    forall x | x in raws' ensures RawOk(raws'[x], used'[x]) {
      if x != r { assert RawOk(raws[x], used[x]); }
    }
    forall x | x in raws ensures GrewAt(raws, used, owner, raws', used', owner, me, x) {
      assert RawOk(raws[x], used[x]);
    }
  }

  // ---------------------------------------------------------------- writes and checksums

  lemma WritePtrMem(raws: Raws, used: map<RawId, nat>, p: Ptr, at: nat, src: seq<Byte>)
    requires MemOk(raws, used) && InRaw(raws, p) && at + |src| <= p.len
    ensures MemOk(WritePtr(raws, p, at, src), used)
  {
    var w := WritePtr(raws, p, at, src);
    forall r | r in w ensures RawOk(w[r], used[r]) {
      assert RawOk(raws[r], used[r]);
    }
  }

  /** Remembering a checksum. */
  lemma CacheCrc(raws: Raws, used: map<RawId, nat>, p: Ptr, v: Word)
    requires MemOk(raws, used) && SegOk(used, p) && InRaw(raws, p)
    ensures var raw := raws[p.raw];
            var raws' := raws[p.raw := raw.(crcs := raw.crcs[(p.off, p.Stop()) := (v, Crc32c(v, Bytes(raws, p)))])];
            MemOk(raws', used) && SameBytes(raws, raws')
  {
    var raw := raws[p.raw];
    var c := raw.(crcs := raw.crcs[(p.off, p.Stop()) := (v, Crc32c(v, Bytes(raws, p)))]);
    var raws' := raws[p.raw := c];
    assert RawOk(raw, used[p.raw]);
    forall k | k in c.crcs ensures CrcOk(c, used[p.raw], k) {
      if k != (p.off, p.Stop()) { assert CrcOk(raw, used[p.raw], k); }
    }
    forall r | r in raws' ensures RawOk(raws'[r], used[r]) {
      if r != p.raw { assert RawOk(raws[r], used[r]); }
    }
    forall r | r in raws ensures BytesAt(raws, raws', r) {}
  }

  /** A cached checksum is that of the bytes from its seed. */
  lemma CachedCrc(raws: Raws, used: map<RawId, nat>, p: Ptr)
    requires MemOk(raws, used) && InRaw(raws, p) && (p.off, p.Stop()) in raws[p.raw].crcs
    ensures var (v, c) := raws[p.raw].crcs[(p.off, p.Stop())]; c == Crc32c(v, Bytes(raws, p))
  {
    assert RawOk(raws[p.raw], used[p.raw]);
    assert CrcOk(raws[p.raw], used[p.raw], (p.off, p.Stop()));
  }

  lemma SameBytesTrans(a: Raws, b: Raws, c: Raws)
    requires SameBytes(a, b) && SameBytes(b, c)
    ensures SameBytes(a, c)
  {
    forall r | r in a ensures BytesAt(a, c, r) {
      assert BytesAt(a, b, r) && BytesAt(b, c, r);
    }
  }

  lemma SameBytesRefl(raws: Raws)
    ensures SameBytes(raws, raws)
  {
    forall r | r in raws ensures BytesAt(raws, raws, r) {}
  }

  lemma SameBytesPtr(raws: Raws, raws': Raws, p: Ptr)
    requires SameBytes(raws, raws') && InRaw(raws, p)
    ensures InRaw(raws', p) && Bytes(raws', p) == Bytes(raws, p)
  {
    assert BytesAt(raws, raws', p.raw);
  }

  lemma {:induction false} SameBytesFlat(raws: Raws, raws': Raws, ps: seq<Ptr>)
    requires SameBytes(raws, raws') && AllIn(raws, ps)
    ensures AllIn(raws', ps) && Flat(raws', ps) == Flat(raws, ps)
  {
    forall i | 0 <= i < |ps| ensures InRaw(raws', ps[i]) { SameBytesPtr(raws, raws', ps[i]); }
    if ps != [] {
      SameBytesPtr(raws, raws', ps[0]);
      SameBytesFlat(raws, raws', ps[1..]);
    }
  }
}
