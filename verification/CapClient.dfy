/**
 * The capability handlers of the client, updating its inodes in place, with the counters
 * that go with writeback: one reference per inode with dirty metadata, and the number of
 * inodes being flushed.
 */
module CapClients {
  import opened NatSets
  import opened Options
  import opened CapProtocol

  type Ino = nat

  function IsDirty(s: Inode): bool { s.wb.dirty != {} || s.wb.flushing != {} }

  /** The references and counters that go with the inodes; `flushers` are the inodes being flushed. */
  ghost predicate InodeBooks(s: Inode, ref: int, flusher: bool) {
    ref == One(IsDirty(s)) && flusher == (s.wb.flushing != {})
  }

  ghost predicate Books(inodes: map<Ino, Inode>, refs: map<Ino, int>, flushers: set<Ino>, n: int) {
    && refs.Keys == inodes.Keys && flushers <= inodes.Keys && n == |flushers|
    && forall i {:trigger InodeBooks(inodes[i], refs[i], i in flushers)} | i in inodes ::
         InodeBooks(inodes[i], refs[i], i in flushers)
  }

  /** The inodes being flushed after inode i has become t. */
  ghost function Flushers(flushers: set<Ino>, i: Ino, t: Inode): set<Ino> {
    if t.wb.flushing != {} then flushers + {i} else flushers - {i}
  }

  /** The books are right again when inode i and its own entries have changed. */
  lemma BooksChange(inodes: map<Ino, Inode>, refs: map<Ino, int>, flushers: set<Ino>, n: int, i: Ino, t: Inode, r: int, n': int)
    requires Books(inodes, refs, flushers, n) && i in inodes
    requires r == One(IsDirty(t)) && n' == n + One(t.wb.flushing != {}) - One(inodes[i].wb.flushing != {})
    ensures Books(inodes[i := t], refs[i := r], Flushers(flushers, i, t), n')
    ensures refs[i] == One(IsDirty(inodes[i]))
  {
    var f := Flushers(flushers, i, t);
    assert InodeBooks(inodes[i], refs[i], i in flushers);
    forall j | j in inodes[i := t] ensures InodeBooks(inodes[i := t][j], refs[i := r][j], j in f) {
      if j != i { assert InodeBooks(inodes[j], refs[j], j in flushers); }
    }
  }

  /** ... or when inode i is new and clean. */
  lemma BooksAdd(inodes: map<Ino, Inode>, refs: map<Ino, int>, flushers: set<Ino>, n: int, i: Ino, t: Inode)
    requires Books(inodes, refs, flushers, n) && i !in inodes && t.wb.dirty == {} && t.wb.flushing == {}
    ensures Books(inodes[i := t], refs[i := 0], flushers, n)
  {
    forall j | j in inodes[i := t] ensures InodeBooks(inodes[i := t][j], refs[i := 0][j], j in flushers) {
      if j != i { assert InodeBooks(inodes[j], refs[j], j in flushers); }
    }
  }

  lemma UnionNonEmpty(a: Caps, b: Caps)
    ensures a + b != {} <==> a != {} || b != {}
  {
    if a != {} { var x :| x in a; assert x in a + b; }
    if b != {} { var x :| x in b; assert x in a + b; }
  }

  /** Stamping one more bit. */
  lemma StampNext(tids: map<Bit, nat>, flush: Caps, tid: nat, b: Bit)
    requires b < CAP_BITS
    ensures var below, upto := (set x | x in flush && x < b), (set x | x in flush && x < b + 1);
            Stamp(tids, upto, tid) == if b in flush then Stamp(tids, below, tid)[b := tid % TID_WRAP] else Stamp(tids, below, tid)
  {
  }

  lemma StampAll(tids: map<Bit, nat>, flush: Caps, tid: nat)
    ensures Stamp(tids, (set x | x in flush && x < CAP_BITS), tid) == Stamp(tids, flush, tid)
    ensures Stamp(tids, (set x | x in flush && x < 0), tid) == tids
  {
  }

  /** Gives every bit of a flush its tid. */
  method StampTids(tids0: map<Bit, nat>, flush: Caps, tid: nat) returns (tids: map<Bit, nat>)
    ensures tids == Stamp(tids0, flush, tid)
  {
    tids := tids0;
    StampAll(tids0, flush, tid);
    var b := 0;
    while b < CAP_BITS
      invariant 0 <= b <= CAP_BITS && tids == Stamp(tids0, (set x | x in flush && x < b), tid)
    {
      StampNext(tids0, flush, tid, b);
      if b in flush { tids := tids[b := tid % TID_WRAP]; }
      b := b + 1;
    }
  }

  /** Finds the bits an acknowledgment cleans. */
  method CleanedBits(wb: Writeback, tid: nat, bits: Caps) returns (cleaned: Caps)
    ensures cleaned == Cleaned(wb, tid, bits)
  {
    cleaned := {};
    var b := 0;
    while b < CAP_BITS
      invariant 0 <= b <= CAP_BITS && cleaned == set x | x in Cleaned(wb, tid, bits) && x < b
    {
      if b in bits && tid % TID_WRAP == TidOf(wb, b) { cleaned := cleaned + {b}; }
      b := b + 1;
    }
  }

  lemma SetTwice(inodes: map<Ino, Inode>, i: Ino, s: Inode, t: Inode)
    ensures inodes[i := s][i := t] == inodes[i := t]
  {
  }

  lemma CheckTurn(s: Inode, rest: set<Mds>, m: Mds, env: Env)
    requires rest <= s.caps.Keys && IsLeast(m, rest)
    ensures rest - {m} <= CheckCap(s, m, env).caps.Keys
    ensures CheckFrom(s, rest, env) == CheckFrom(CheckCap(s, m, env), rest - {m}, env)
  {
    assert m == Least(rest);
  }

  lemma GrantCheck(s: Inode, m: Mds, newCaps: Caps, seqno: int, rewant: bool, newMax: nat, flushWaits: bool, env: Env, check: bool)
    requires m in s.caps
    requires
      var was, t := s.caps[m].issued, Granted(s, m, newCaps, seqno, newMax, flushWaits);
      check == (rewant || if was - newCaps != {} then !RevokeWaits(s, m, newCaps, flushWaits)
                          else was != newCaps && IsAuth(t, m) && ClashingRevoke(t, m, newCaps))
    ensures
      var t := Granted(s, m, newCaps, seqno, newMax, flushWaits);
      HandleGrant(s, m, newCaps, seqno, rewant, newMax, flushWaits, env) == if check then CheckCaps(t, env) else t
  {
    var was := s.caps[m].issued;
    if was - newCaps == {} {
      forall b | b in was ensures b in newCaps { assert b !in was - newCaps; }
    } else {
      var b :| b in was - newCaps;
      assert !(was < newCaps);
    }
  }

  /** Inode j after closing the session with MDS m, unless it is still among `rest`. */
  ghost predicate InodeClosed(was: map<Ino, Inode>, now: map<Ino, Inode>, m: Mds, rest: set<Ino>, j: Ino)
    requires j in was && j in now
  {
    now[j] == if m in was[j].caps && j !in rest then CloseSession(was[j], m) else was[j]
  }

  ghost predicate SessionClosed(was: map<Ino, Inode>, now: map<Ino, Inode>, m: Mds, rest: set<Ino>) {
    && was.Keys == now.Keys && (forall i | i in rest :: i in was && m in was[i].caps)
    && forall j {:trigger InodeClosed(was, now, m, rest, j)} | j in was :: InodeClosed(was, now, m, rest, j)
  }

  /** Looks for another MDS that is revoking bits newly issued by MDS m. */
  method FindClash(s: Inode, m: Mds, issued: Caps) returns (clash: bool)
    ensures clash == ClashingRevoke(s, m, issued)
  {
    var rest := s.caps.Keys;
    clash := false;
    while rest != {}
      invariant rest <= s.caps.Keys && !clash
      invariant forall k | k in s.caps && k !in rest :: k == m || Revoking(s.caps[k]) * issued == {}
      decreases rest
    {
      var k :| k in rest;
      if k != m && Revoking(s.caps[k]) * issued != {} { return true; }
      rest := rest - {k};
    }
  }

  lemma ReleaseShows(c: Cap, drop: Caps)
    requires drop * c.issued != {}
    ensures c.issued - drop != c.issued
  {
    var b :| b in drop * c.issued;
    assert b !in c.issued - drop;
  }

  class CapClient {
    var inodes: map<Ino, Inode>
    /** References taken on account of dirty metadata. */
    var dirtyRefs: map<Ino, int>
    var numFlushing: int
    ghost var flushers: set<Ino>

    /** One reference is held for each inode with dirty metadata, and numFlushing counts the inodes being flushed. */
    ghost predicate Valid()
      reads this
    {
      Books(inodes, dirtyRefs, flushers, numFlushing)
    }

    constructor ()
      ensures Valid() && inodes == map[]
    {
      inodes, dirtyRefs, numFlushing, flushers := map[], map[], 0, {};
    }

    /** Stores inode i with its reference count and the counter of inodes being flushed. */
    method Store(i: Ino, t: Inode, ref: int, n: int)
      requires Valid() && i in inodes && ref == One(IsDirty(t))
      requires n == numFlushing + One(t.wb.flushing != {}) - One(inodes[i].wb.flushing != {})
      modifies this
      ensures Valid() && inodes == old(inodes)[i := t]
    {
      BooksChange(inodes, dirtyRefs, flushers, numFlushing, i, t, ref, n);
      inodes, dirtyRefs, numFlushing, flushers := inodes[i := t], dirtyRefs[i := ref], n, Flushers(flushers, i, t);
    }

    method MarkCapsDirty(i: Ino, bits: Caps)
      requires Valid() && i in inodes && forall b | b in bits :: b < CAP_BITS
      modifies this
      ensures Valid() && inodes == old(inodes)[i := MarkDirty(old(inodes)[i], bits)]
    {
      var s := inodes[i];
      assert InodeBooks(s, dirtyRefs[i], i in flushers);
      UnionNonEmpty(s.wb.dirty, bits);
      var ref := dirtyRefs[i];
      if bits != {} && !IsDirty(s) { ref := ref + 1; }
      Store(i, MarkDirty(s, bits), ref, numFlushing);
    }

    /** Turns the dirty bits of inode i into bits being flushed. */
    method MarkCapsFlushing(i: Ino) returns (flushing: Caps)
      requires Valid() && i in inodes && inodes[i].wb.dirty != {}
      modifies this
      ensures Valid() && inodes == old(inodes)[i := MarkFlushing(old(inodes)[i])]
      ensures flushing == old(inodes)[i].wb.dirty
    {
      var s := inodes[i];
      assert InodeBooks(s, dirtyRefs[i], i in flushers);
      UnionNonEmpty(s.wb.flushing, s.wb.dirty);
      flushing := s.wb.dirty;
      Store(i, MarkFlushing(s), dirtyRefs[i], if s.wb.flushing == {} then numFlushing + 1 else numFlushing);
    }

    /** Sends a cap message for inode i to MDS m, giving up what is not retained. */
    method SendCapTo(i: Ino, m: Mds, used: Caps, want: Caps, retain: Caps, flush: Caps)
      requires Valid() && i in inodes && m in inodes[i].caps
      modifies this
      ensures Valid() && inodes == old(inodes)[i := SendCap(old(inodes)[i], m, used, want, retain, flush)]
    {
      var s := inodes[i];
      assert InodeBooks(s, dirtyRefs[i], i in flushers);
      var tids := s.wb.tids;
      if flush != {} { tids := StampTids(tids, flush, s.wb.lastTid + 1); }
      var t := SendCap(s, m, used, want, retain, flush).(wb := s.wb.(
                 lastTid := if flush == {} then s.wb.lastTid else s.wb.lastTid + 1, tids := tids));
      Store(i, t, dirtyRefs[i], numFlushing);
    }

    /** Looks at every cap of inode i, in the order of their MDSs. */
    method CheckAllCaps(i: Ino, env: Env)
      requires Valid() && i in inodes
      modifies this
      ensures Valid() && inodes == old(inodes)[i := CheckCaps(old(inodes)[i], env)]
    {
      ghost var was, cur := inodes, inodes[i];
      assert was == was[i := cur];
      var rest := inodes[i].caps.Keys;
      while rest != {}
        invariant Valid() && inodes == was[i := cur]
        invariant rest <= cur.caps.Keys && CheckFrom(cur, rest, env) == CheckCaps(was[i], env)
        decreases rest
      {
        LeastExists(rest);
        var m :| m in rest && forall k | k in rest :: m <= k;
        CheckTurn(cur, rest, m, env);
        CheckOneCap(i, m, env);
        SetTwice(was, i, cur, CheckCap(cur, m, env));
        cur := CheckCap(cur, m, env);
        rest := rest - {m};
      }
    }

    /** The body of the check loop. */
    method CheckOneCap(i: Ino, m: Mds, env: Env)
      requires Valid() && i in inodes && m in inodes[i].caps
      modifies this
      ensures Valid() && inodes == old(inodes)[i := CheckCap(old(inodes)[i], m, env)]
    {
      var s := inodes[i];
      var flushing: Caps := {};
      if NeedsAck(s, m, env) {
        if IsAuth(s, m) && s.wb.dirty != {} { flushing := MarkCapsFlushing(i); }
        SendCapTo(i, m, CapUsed(s, m), Wanted(s.use), Retain(s.use, env), flushing);
      }
    }

    /** Sends the bits of inode i being flushed once more. */
    method FlushInodeCaps(i: Ino)
      requires Valid() && i in inodes && inodes[i].auth.Some? && inodes[i].auth.value in inodes[i].caps
      modifies this
      ensures Valid() && inodes == old(inodes)[i := FlushCaps(old(inodes)[i])]
    {
      var s := inodes[i];
      var c := s.caps[s.auth.value];
      SendCapTo(i, s.auth.value, Used(s.use), Wanted(s.use), c.issued + c.implemented, s.wb.flushing);
    }

    method HandleCapFlushAck(i: Ino, tid: nat, bits: Caps)
      requires Valid() && i in inodes
      modifies this
      ensures Valid() && inodes == old(inodes)[i := HandleFlushAck(old(inodes)[i], tid, bits)]
    {
      var s := inodes[i];
      assert InodeBooks(s, dirtyRefs[i], i in flushers);
      var cleaned := CleanedBits(s.wb, tid, bits);
      var ref, n := dirtyRefs[i], numFlushing;
      var left := s.wb.flushing - cleaned;
      if cleaned != {} && s.wb.flushing != {} {
        if left == {} { n := n - 1; }
        if s.wb.dirty == {} && left == {} { ref := ref - 1; }
      }
      assert cleaned == {} ==> left == s.wb.flushing;
      Store(i, HandleFlushAck(s, tid, bits), ref, n);
    }

    /** The session with MDS m closes for inode i. */
    method RemoveSessionCap(i: Ino, m: Mds)
      requires Valid() && i in inodes && m in inodes[i].caps
      modifies this
      ensures Valid() && inodes == old(inodes)[i := CloseSession(old(inodes)[i], m)]
    {
      var s := inodes[i];
      assert InodeBooks(s, dirtyRefs[i], i in flushers);
      var ref, n := dirtyRefs[i], numFlushing;
      if IsAuth(s, m) && IsDirty(s) {
        if s.wb.flushing != {} { n := n - 1; }
        ref := ref - 1;
      }
      Store(i, CloseSession(s, m), ref, n);
    }

    /** The session with MDS m closes: all its caps go, and with authoritative ones what was dirty. */
    method RemoveSessionCaps(m: Mds)
      requires Valid()
      modifies this
      ensures Valid() && SessionClosed(old(inodes), inodes, m, {})
    {
      ghost var was := inodes;
      var rest := set i | i in inodes && m in inodes[i].caps;
      while rest != {}
        invariant Valid() && rest <= inodes.Keys && SessionClosed(was, inodes, m, rest)
        decreases rest
      {
        var i :| i in rest;
        assert InodeClosed(was, inodes, m, rest, i);
        ghost var mid := inodes;
        RemoveSessionCap(i, m);
        forall j | j in inodes ensures InodeClosed(was, inodes, m, rest - {i}, j) { assert InodeClosed(was, mid, m, rest, j); }
        rest := rest - {i};
      }
    }

    /** Stores inode i with its caps changed and its writeback state as it was. */
    method StoreCaps(i: Ino, t: Inode)
      requires Valid() && i in inodes && t.wb == inodes[i].wb
      modifies this
      ensures Valid() && inodes == old(inodes)[i := t]
    {
      assert InodeBooks(inodes[i], dirtyRefs[i], i in flushers);
      Store(i, t, dirtyRefs[i], numFlushing);
    }

    /** Finds inode i in the table, or enters it: without caps, unused and clean. */
    method AddInode(i: Ino)
      requires Valid()
      modifies this
      ensures Valid() && inodes == if i in old(inodes) then old(inodes) else old(inodes)[i := NEW_INODE]
    {
      if i !in inodes {
        BooksAdd(inodes, dirtyRefs, flushers, numFlushing, i, NEW_INODE);
        inodes, dirtyRefs := inodes[i := NEW_INODE], dirtyRefs[i := 0];
      }
    }

    /** The inode's references, open files and cached pages change. */
    method SetUse(i: Ino, use: Use)
      requires Valid() && i in inodes
      modifies this
      ensures Valid() && inodes == old(inodes)[i := old(inodes)[i].(use := use)]
    {
      StoreCaps(i, inodes[i].(use := use));
    }

    /** The inode's size, or the size the client wants to write up to, changes. */
    method SetSizes(i: Ino, sizes: Sizes)
      requires Valid() && i in inodes
      modifies this
      ensures Valid() && inodes == old(inodes)[i := old(inodes)[i].(sizes := sizes)]
    {
      StoreCaps(i, inodes[i].(sizes := sizes));
    }

    /** Drops the cap of MDS m if the inode can do without it. */
    method TrimInodeCap(i: Ino, m: Mds)
      requires Valid() && i in inodes
      modifies this
      ensures Valid() && inodes == old(inodes)[i := TrimCap(old(inodes)[i], m)]
    {
      StoreCaps(i, TrimCap(inodes[i], m));
    }

    /** Gives bits back to MDS m along with a request; `released` says whether any were. */
    method EncodeInodeRelease(i: Ino, m: Mds, drop: Caps, unless: Caps) returns (released: bool)
      requires Valid() && i in inodes
      modifies this
      ensures Valid() && inodes == old(inodes)[i := EncodeRelease(old(inodes)[i], m, drop, unless)]
      ensures released == (inodes[i].caps != old(inodes)[i].caps)
    {
      var s := inodes[i];
      if m in s.caps {
        var c, left := s.caps[m], drop - (s.wb.dirty + Used(s.use));
        if left * c.issued != {} && unless * c.issued == {} {
          ReleaseShows(c, left);
          StoreCaps(i, s.(caps := s.caps[m := c.(issued := c.issued - left, implemented := c.implemented - left)]));
          return true;
        }
      }
      released := false;
    }

    method AddUpdateCapFrom(i: Ino, m: Mds, capId: nat, issued: Caps, seqno: int, mseq: int, authFlag: bool, env: Env)
      requires Valid() && i in inodes
      modifies this
      ensures Valid()
      ensures inodes == old(inodes)[i := AddUpdateCap(old(inodes)[i], m, capId, issued, seqno, mseq, authFlag, env)]
    {
      var s := inodes[i];
      var t, now := AddCap(s, m, capId, issued, seqno, mseq, authFlag), IssuedNow(s, m, issued, seqno);
      StoreCaps(i, t);
      if now - CapFrom(s, m).issued != {} && IsAuth(t, m) {
        var clash := FindClash(t, m, now);
        if clash {
          CheckAllCaps(i, env.(holding := false));
          SetTwice(old(inodes), i, t, CheckCaps(t, env.(holding := false)));
        }
      }
    }

    method HandleCapGrant(i: Ino, m: Mds, newCaps: Caps, seqno: int, rewant: bool, newMax: nat, flushWaits: bool, env: Env)
      requires Valid() && i in inodes && m in inodes[i].caps
      modifies this
      ensures Valid()
      ensures inodes == old(inodes)[i := HandleGrant(old(inodes)[i], m, newCaps, seqno, rewant, newMax, flushWaits, env)]
    {
      var s := inodes[i];
      var was, t := s.caps[m].issued, Granted(s, m, newCaps, seqno, newMax, flushWaits);
      StoreCaps(i, t);
      var check := rewant;
      if was - newCaps != {} {
        if !RevokeWaits(s, m, newCaps, flushWaits) { check := true; }
      } else if was != newCaps && IsAuth(t, m) {
        var clash := FindClash(t, m, newCaps);
        check := check || clash;
      }
      GrantCheck(s, m, newCaps, seqno, rewant, newMax, flushWaits, env, check);
      if check {
        CheckAllCaps(i, env);
        SetTwice(old(inodes), i, t, CheckCaps(t, env));
      }
    }

    method HandleCapImport(i: Ino, m: Mds, capId: nat, caps: Caps, seqno: int, mseq: int, peer: Option<Peer>, env: Env)
      requires Valid() && i in inodes
      modifies this
      ensures Valid()
      ensures inodes == old(inodes)[i := HandleImport(old(inodes)[i], m, capId, caps, seqno, mseq, peer, env)]
    {
      ghost var was := inodes;
      AddUpdateCapFrom(i, m, capId, caps, seqno, mseq, true, env);
      var a := inodes[i];
      if peer.Some? && peer.value.mds in a.caps && a.caps[peer.value.mds].capId == peer.value.capId {
        StoreCaps(i, RemoveCap(a, peer.value.mds));
        SetTwice(was, i, a, inodes[i]);
      }
      var r := inodes[i];
      if r.auth == Some(m) && m in r.caps && r.wb.flushing != {} {
        FlushInodeCaps(i);
        SetTwice(was, i, r, inodes[i]);
      }
    }

    /** Moves what the cap of MDS m was issued to the cap of the peer. */
    method HandOverTo(i: Ino, m: Mds, p: Peer, env: Env)
      requires Valid() && i in inodes && m in inodes[i].caps
      modifies this
      ensures Valid()
      ensures inodes == old(inodes)[i := HandOver(old(inodes)[i], m, p, env)]
    {
      var s := inodes[i];
      var c := s.caps[m];
      if p.mds !in s.caps {
        AddUpdateCapFrom(i, p.mds, p.capId, c.issued, p.seqno - 1, p.mseq, IsAuth(s, m), env);
      } else {
        var t := s.caps[p.mds];
        if t.capId != p.capId || t.seqno < p.seqno {
          var t' := t.(capId := p.capId, seqno := p.seqno - 1, issueSeq := p.seqno - 1, mseq := p.mseq,
                       issued := t.issued + c.issued, implemented := t.implemented + c.issued);
          StoreCaps(i, s.(caps := s.caps[p.mds := t'], auth := if IsAuth(s, m) then Some(p.mds) else s.auth));
        }
      }
    }

    method HandleCapExport(i: Ino, m: Mds, capId: nat, peer: Option<Peer>, env: Env)
      requires Valid() && i in inodes
      modifies this
      ensures Valid()
      ensures inodes == old(inodes)[i := HandleExport(old(inodes)[i], m, capId, peer, env)]
    {
      ghost var was := inodes;
      var s := inodes[i];
      if m !in s.caps || s.caps[m].capId != capId { return; }
      if peer.Some? { HandOverTo(i, m, peer.value, env); }
      var h := inodes[i];
      StoreCaps(i, RemoveCap(h, m));
      SetTwice(was, i, h, RemoveCap(h, m));
    }
  }
}
