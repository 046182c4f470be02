/**
 * The dentry and inode cache updated in place, one field at a time.  Each method is proved to
 * have the net effect of the corresponding step of `DentryGraph`.  Two pairs of updates are in
 * another order than in the client: a link here unlinks the old dentry of a directory before it
 * pins the new one, and an unlink drops the dentry before it closes its directory.
 */
module DentryCaches {
  import opened Options
  import opened DentryGraph

  /** Pinning the first parent is pinning every parent: a directory has only one. */
  lemma RepinFirst(g: Graph, i: InodeId, d: DentryId, delta: int)
    requires Inv(g) && i in g.inodes && g.inodes[i].isDir && d in g.inodes[i].dnSet
    ensures InodeOk(g, i) && RepinParent(g, i, delta) == g.dentries[d := g.dentries[d].(ref := g.dentries[d].ref + delta)]
  {
    assert InodeOk(g, i);
    forall e | e in g.inodes[i].dnSet ensures e == d { OneParent(g, i, e, d); }
  }

  lemma RepinNone(g: Graph, i: InodeId, delta: int)
    requires i in g.inodes && g.inodes[i].dnSet == {}
    ensures RepinParent(g, i, delta) == g.dentries
  {
  }

  /** Pins on the dentry of a directory are on top of the pin of the directory that holds it. */
  lemma PinsBelow(g: Graph, d: DentryId)
    requires Inv(g) && d in g.dentries && g.dentries[d].inode.Some?
    ensures DentryOk(g, d) && g.dentries[d].ref > DirPins(g.inodes[g.dentries[d].inode.value])
  {
    assert DentryOk(g, d);
  }

  /** A directory that is about to be closed has the references that closing drops. */
  lemma CloseReady(g: Graph, i: InodeId)
    requires Inv(g) && i in g.inodes && g.inodes[i].dir == Some(map[])
    ensures g.inodes[i].ref > 0 && |g.inodes[i].dnSet| <= 1
    ensures forall d | d in g.inodes[i].dnSet :: d in g.dentries && g.dentries[d].ref > 1
  {
    assert InodeOk(g, i);
    forall d | d in g.inodes[i].dnSet ensures d in g.dentries && g.dentries[d].ref > 1 { PinsBelow(g, d); }
  }

  lemma LinkInodeSteps(g: Graph, d: DentryId, i: InodeId, q: Graph)
    requires Inv(g) && d in g.dentries && g.dentries[d].inode.None? && g.dentries[d].dir.Some? && i in g.inodes
    requires Inv(PinInode(g, i)) && q == Orphan(PinInode(g, i), i)
    ensures d in q.dentries && i in q.inodes && i in q.ipins && LinkInode(g, d, i) == Attach(q, d, i)
  {
  }

  class DentryCache {
    var inodes: map<InodeId, Inode>
    var dentries: map<DentryId, Dentry>
    ghost var ipins: multiset<InodeId>
    ghost var dpins: multiset<DentryId>

    ghost function G(): Graph
      reads this
    {
      Graph(inodes, dentries, ipins, dpins)
    }

    constructor ()
      ensures G() == EMPTY && Inv(G())
    {
      inodes, dentries, ipins, dpins := map[], map[], multiset{}, multiset{};
      EmptyOk();
    }

    /** Enters an inode that nothing refers to yet. */
    method CreateInode(i: InodeId, isDir: bool)
      requires Inv(G()) && i !in inodes
      modifies this`inodes
      ensures G() == NewInode(old(G()), i, isDir) && Inv(G())
    {
      NewInodeOk(G(), i, isDir);
      inodes := inodes[i := Inode(0, isDir, 0, None, {})];
    }

    /** Takes a reference to inode i from outside. */
    method Hold(i: InodeId)
      requires Inv(G()) && i in inodes
      modifies this`inodes, this`ipins
      ensures G() == PinInode(old(G()), i) && Inv(G())
    {
      PinInodeOk(G(), i);
      inodes := inodes[i := inodes[i].(ref := inodes[i].ref + 1)];
      ipins := ipins + multiset{i};
    }

    /** Takes a reference to dentry d from outside. */
    method HoldDentry(d: DentryId)
      requires Inv(G()) && d in dentries
      modifies this`dentries, this`dpins
      ensures G() == PinDentry(old(G()), d) && Inv(G())
    {
      PinDentryOk(G(), d);
      assert DentryOk(G(), d);
      GetDentry(d);
      dpins := dpins + multiset{d};
    }

    /** Gives back a reference to dentry d held from outside. */
    method ReleaseDentry(d: DentryId)
      requires Inv(G()) && d in dentries && d in dpins
      modifies this`dentries, this`dpins
      ensures G() == UnpinDentry(old(G()), d) && Inv(G())
    {
      UnpinDentryOk(G(), d);
      assert DentryOk(G(), d);
      PutDentry(d);
      dpins := dpins - multiset{d};
    }

    method GetDentry(d: DentryId)
      requires d in dentries && dentries[d].ref > 0
      modifies this`dentries
      ensures dentries == old(dentries)[d := old(dentries)[d].(ref := old(dentries)[d].ref + 1)]
    {
      dentries := dentries[d := dentries[d].(ref := dentries[d].ref + 1)];
    }

    method PutDentry(d: DentryId)
      requires d in dentries && dentries[d].ref > 0
      modifies this`dentries
      ensures dentries == if old(dentries)[d].ref == 1 then old(dentries) - {d}
                          else old(dentries)[d := old(dentries)[d].(ref := old(dentries)[d].ref - 1)]
    {
      dentries := dentries[d := dentries[d].(ref := dentries[d].ref - 1)];
      if dentries[d].ref == 0 { dentries := dentries - {d}; }
    }

    /** Drops n references to inode i and deletes it with the last one. */
    method PutInode(i: InodeId, n: nat)
      requires i in inodes && inodes[i].ref >= n
      modifies this`inodes
      ensures inodes == if old(inodes)[i].ref == n then old(inodes) - {i}
                        else old(inodes)[i := old(inodes)[i].(ref := old(inodes)[i].ref - n)]
    {
      inodes := inodes[i := inodes[i].(ref := inodes[i].ref - n)];
      if inodes[i].ref == 0 { inodes := inodes - {i}; }
    }

    /** Gives back n references held from outside. */
    method Release(i: InodeId, n: nat)
      requires Inv(G()) && i in inodes && ipins[i] >= n
      modifies this`inodes, this`ipins
      ensures G() == UnpinInode(old(G()), i, n) && Inv(G())
    {
      UnpinInodeOk(G(), i, n);
      UnpinInodeIs(G(), i, n);
      assert InodeOk(G(), i);
      PutInode(i, n);
      ipins := ipins[i := ipins[i] - n];
    }

    /** Pins the dentry that names directory i, if there is one. */
    method GetFirstParent(i: InodeId, ghost g: Graph)
      requires Inv(g) && i in g.inodes && g.inodes[i].isDir && dentries == g.dentries
      requires i in inodes && inodes[i].dnSet == g.inodes[i].dnSet
      modifies this`dentries
      ensures InodeOk(g, i) && dentries == RepinParent(g, i, 1)
    {
      assert InodeOk(g, i);
      if inodes[i].dnSet == {} { RepinNone(g, i, 1); return; }
      var d :| d in inodes[i].dnSet;
      assert DentryOk(g, d);
      RepinFirst(g, i, d, 1);
      GetDentry(d);
    }

    /** Unpins the dentry that names directory i, if there is one. */
    method PutFirstParent(i: InodeId, ghost g: Graph)
      requires Inv(g) && i in g.inodes && g.inodes[i].isDir && dentries == g.dentries && DirPins(g.inodes[i]) > 0
      requires i in inodes && inodes[i].dnSet == g.inodes[i].dnSet
      modifies this`dentries
      ensures InodeOk(g, i) && dentries == RepinParent(g, i, -1)
    {
      assert InodeOk(g, i);
      if inodes[i].dnSet == {} { RepinNone(g, i, -1); return; }
      var d :| d in inodes[i].dnSet;
      PinsBelow(g, d);
      RepinFirst(g, i, d, -1);
      PutDentry(d);
    }

    /** Opens the directory of inode i and pins the dentry that names it. */
    method Open(i: InodeId)
      requires Inv(G()) && i in inodes && inodes[i].isDir
      modifies this`inodes, this`dentries
      ensures InodeOk(old(G()), i) && G() == OpenDir(old(G()), i) && Inv(G())
    {
      OpenDirOk(G(), i);
      if inodes[i].dir.Some? { return; }
      ghost var g := G();
      inodes := inodes[i := inodes[i].(dir := Some(map[]))];
      GetFirstParent(i, g);
      inodes := inodes[i := inodes[i].(ref := inodes[i].ref + 1)];
    }

    /** Closes the empty directory of inode i and unpins the dentry that names it. */
    method Close(i: InodeId)
      requires i in inodes && inodes[i].dir == Some(map[]) && inodes[i].ref > 0
      requires |inodes[i].dnSet| <= 1
      requires forall d | d in inodes[i].dnSet :: d in dentries && dentries[d].ref > 1
      modifies this`inodes, this`dentries
      ensures G() == CloseDir(old(G()), i)
    {
      ghost var g := G();
      if inodes[i].dnSet != {} {
        var d :| d in inodes[i].dnSet;
        assert inodes[i].dnSet == {d} by {
          forall e | e in inodes[i].dnSet ensures e == d {
            if e != d { SubsetSize({d, e}, inodes[i].dnSet); }
          }
        }
        PutDentry(d);
      }
      assert dentries == RepinParent(g, i, -1);
      inodes := inodes[i := inodes[i].(dir := None)];
      PutInode(i, 1);
    }

    method LowLevelGet(i: InodeId)
      requires Inv(G()) && i in inodes
      modifies this`inodes, this`dentries
      ensures InodeOk(old(G()), i) && G() == LlGet(old(G()), i) && Inv(G())
    {
      ghost var g := G();
      LlGetOk(g, i);
      var n := inodes[i];
      if n.llRef == 0 {
        n := n.(ref := n.ref + 1);
        if n.isDir { GetFirstParent(i, g); }
      }
      inodes := inodes[i := n.(llRef := n.llRef + 1)];
    }

    method LowLevelPut(i: InodeId, num: nat) returns (left: nat)
      requires Inv(G()) && i in inodes && 0 < inodes[i].llRef && num <= inodes[i].llRef
      modifies this`inodes, this`dentries
      ensures InodeOk(old(G()), i) && G() == LlPut(old(G()), i, num) && Inv(G())
      ensures left == old(inodes)[i].llRef - num
    {
      ghost var g := G();
      LlPutOk(g, i, num);
      inodes := inodes[i := inodes[i].(llRef := inodes[i].llRef - num)];
      left := inodes[i].llRef;
      if left == 0 { DropLowLevel(i, g); }
    }

    /** The last low-level reference unpins the dentry of a directory and the inode. */
    method DropLowLevel(i: InodeId, ghost g: Graph)
      requires Inv(g) && i in g.inodes && g.inodes[i].llRef > 0
      requires G() == g.(inodes := g.inodes[i := g.inodes[i].(llRef := 0)])
      modifies this`inodes, this`dentries
      ensures InodeOk(g, i) && G() == LlPut(g, i, g.inodes[i].llRef)
    {
      assert InodeOk(g, i);
      if inodes[i].isDir { PutFirstParent(i, g); }
      PutInode(i, 1);
    }

    /** First part of an unlink: dentry d gives up its inode. */
    method UnlinkInode(d: DentryId)
      requires Inv(G()) && d in dentries
      modifies this`inodes, this`dentries
      ensures DentryOk(old(G()), d) && G() == Unhook(old(G()), d) && Inv(G())
    {
      ghost var g := G();
      UnhookOk(g, d);
      if dentries[d].inode.None? { return; }
      var i := dentries[d].inode.value;
      PinsBelow(g, d);
      assert InodeOk(g, i);
      PutDirPins(d, inodes[i]);
      dentries := dentries[d := dentries[d].(inode := None)];
      assert dentries == Untie(g, d, i).dentries;
      inodes := inodes[i := inodes[i].(dnSet := inodes[i].dnSet - {d})];
      PutInode(i, 1);
      assert inodes == Unhook(g, d).inodes;
    }

    /** Unlinks dentry d from its inode and, unless kept, from its directory. */
    method UnlinkDentry(d: DentryId, keepDir: bool, keepDentry: bool)
      requires Inv(G()) && d in dentries && dentries[d].dir.Some?
      modifies this`inodes, this`dentries
      ensures G() == Unlink(old(G()), d, keepDir, keepDentry) && Inv(G())
    {
      UnlinkInode(d);
      if keepDentry { return; }
      var p := LeaveDirectory(d);
      if inodes[p].dir.value == map[] && !keepDir {
        CloseDirOk(G(), p);
        CloseReady(G(), p);
        Close(p);
      }
    }

    /** Second part of an unlink: dentry d, which names nothing, leaves its directory p. */
    method LeaveDirectory(d: DentryId) returns (p: InodeId)
      requires Inv(G()) && d in dentries && dentries[d].dir.Some? && dentries[d].inode.None?
      modifies this`inodes, this`dentries
      ensures DentryOk(old(G()), d) && G() == Withdraw(old(G()), d) && Inv(G())
      ensures p == old(dentries)[d].dir.value && p in inodes && inodes[p].dir.Some?
    {
      ghost var h := G();
      WithdrawOk(h, d);
      p := dentries[d].dir.value;
      inodes := inodes[p := inodes[p].(dir := Some(inodes[p].dir.value - {dentries[d].name}))];
      dentries := dentries[d := dentries[d].(dir := None)];
      PutDentry(d);
    }

    /** Links inode t, if given, under `name` in directory p; dentry d is created if it is new. */
    method LinkDentry(p: InodeId, name: string, d: DentryId, t: Option<InodeId>)
      requires Inv(G()) && Linkable(G(), p, name, d) && (t.Some? ==> t.value in inodes)
      modifies this`inodes, this`dentries, this`ipins
      ensures G() == Link(old(G()), p, name, d, t) && Inv(G())
    {
      if d !in dentries {
        AddDentryOk(G(), p, name, d);
        inodes := inodes[p := inodes[p].(dir := Some(inodes[p].dir.value[name := d]))];
        dentries := dentries[d := Dentry(1, name, Some(p), None)];
      }
      if t.Some? { NameInode(d, t.value); }
    }

    /** Dentry d starts naming inode i; a directory first gives up its previous name. */
    method NameInode(d: DentryId, i: InodeId)
      requires Inv(G()) && d in dentries && dentries[d].inode.None? && dentries[d].dir.Some? && i in inodes
      modifies this`inodes, this`dentries, this`ipins
      ensures G() == LinkInode(old(G()), d, i) && Inv(G())
    {
      ghost var g := G();
      Hold(i);
      GiveUpName(i);
      LinkInodeSteps(g, d, i, G());
      TakeOver(d, i);
    }

    /** Dentry d takes over a reference to inode i held from outside. */
    method TakeOver(d: DentryId, i: InodeId)
      requires d in dentries && i in inodes && i in ipins
      modifies this`inodes, this`dentries, this`ipins
      ensures G() == Attach(old(G()), d, i)
    {
      var n := dentries[d];
      dentries := dentries[d := n.(inode := Some(i), ref := n.ref + DirPins(inodes[i]))];
      inodes := inodes[i := inodes[i].(dnSet := inodes[i].dnSet + {d})];
      ipins := ipins - multiset{i};
    }

    /** A pinned directory that has a name is unlinked from it. */
    method GiveUpName(i: InodeId)
      requires Inv(G()) && i in ipins
      modifies this`inodes, this`dentries
      ensures G() == Orphan(old(G()), i)
    {
      ghost var q := G();
      if inodes[i].isDir && inodes[i].dnSet != {} {
        var e :| e in inodes[i].dnSet;
        UnhookParent(q, i, e);
        UnlinkDentry(e, true, true);
      }
    }

    /** Drops the pins that directory inode n keeps on the dentry that names it. */
    method PutDirPins(d: DentryId, n: Inode)
      requires d in dentries && dentries[d].ref > DirPins(n)
      modifies this`dentries
      ensures dentries == old(dentries)[d := old(dentries)[d].(ref := old(dentries)[d].ref - DirPins(n))]
    {
      if n.isDir {
        if n.dir.Some? { PutDentry(d); }
        if n.llRef > 0 { PutDentry(d); }
      }
    }
  }
}
