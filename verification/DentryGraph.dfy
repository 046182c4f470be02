/**
 * The client's cache of dentries and inodes: a graph kept alive by two kinds of
 * reference counts.  A dentry is pinned by the directory that holds it, by an open
 * `Dir` or a low-level reference of the directory inode it names, and from outside.
 * An inode is pinned by the dentries that name it, by its open `Dir`, by a low-level
 * reference, and from outside.
 */
module DentryGraph {
  import opened Options

  type InodeId = nat
  type DentryId = nat

  datatype Inode = Inode(
    ref: int, isDir: bool, llRef: nat,
    dir: Option<map<string, DentryId>>,
    dnSet: set<DentryId>)

  datatype Dentry = Dentry(ref: int, name: string, dir: Option<InodeId>, inode: Option<InodeId>)

  /** The cache, together with the references held by code outside it. */
  datatype Graph = Graph(
    inodes: map<InodeId, Inode>, dentries: map<DentryId, Dentry>,
    ipins: multiset<InodeId>, dpins: multiset<DentryId>)

  /** The pins a directory inode keeps on the dentry that names it. */
  function DirPins(i: Inode): nat {
    if i.isDir then One(i.dir.Some?) + One(i.llRef > 0) else 0
  }

  // ---------------------------------------------------------------- the invariant

  ghost predicate InodeOk(g: Graph, i: InodeId)
    requires i in g.inodes
  {
    var n := g.inodes[i];
    && n.ref == |n.dnSet| + One(n.dir.Some?) + One(n.llRef > 0) + g.ipins[i]
    && (n.isDir ==> |n.dnSet| <= 1)
    && (n.dir.Some? ==> n.isDir)
    && (forall d | d in n.dnSet :: d in g.dentries && g.dentries[d].inode == Some(i))
    && (n.dir.Some? ==> forall s | s in n.dir.value ::
          n.dir.value[s] in g.dentries && g.dentries[n.dir.value[s]].dir == Some(i) && g.dentries[n.dir.value[s]].name == s)
  }

  ghost predicate DentryOk(g: Graph, d: DentryId)
    requires d in g.dentries
  {
    var n := g.dentries[d];
    && (n.inode.Some? ==> n.inode.value in g.inodes && d in g.inodes[n.inode.value].dnSet && n.dir.Some?)
    && n.ref == One(n.dir.Some?) + g.dpins[d] + (if n.inode.Some? then DirPins(g.inodes[n.inode.value]) else 0)
    && n.ref > 0
    && (n.dir.Some? ==>
          var p := n.dir.value;
          p in g.inodes && g.inodes[p].dir.Some? && n.name in g.inodes[p].dir.value && g.inodes[p].dir.value[n.name] == d)
  }

  ghost predicate Inv(g: Graph) {
    && (forall i {:trigger InodeOk(g, i)} | i in g.inodes :: InodeOk(g, i))
    && (forall d {:trigger DentryOk(g, d)} | d in g.dentries :: DentryOk(g, d))
    && (forall i | i in g.ipins :: i in g.inodes)
    && (forall d | d in g.dpins :: d in g.dentries)
  }

  // ---------------------------------------------------------------- single steps

  /** Deletes inode i once its last reference is gone. */
  function Reap(g: Graph, i: InodeId): Graph
    requires i in g.inodes
  {
    if g.inodes[i].ref == 0 then g.(inodes := g.inodes - {i}) else g
  }

  function NewInode(g: Graph, i: InodeId, isDir: bool): Graph
    requires i !in g.inodes
  {
    g.(inodes := g.inodes[i := Inode(0, isDir, 0, None, {})])
  }

  function PinInode(g: Graph, i: InodeId): Graph
    requires i in g.inodes
  {
    g.(inodes := g.inodes[i := g.inodes[i].(ref := g.inodes[i].ref + 1)], ipins := g.ipins + multiset{i})
  }

  function DropPins(g: Graph, i: InodeId, n: nat): Graph
    requires i in g.inodes && g.ipins[i] >= n
  {
    g.(inodes := g.inodes[i := g.inodes[i].(ref := g.inodes[i].ref - n)], ipins := g.ipins[i := g.ipins[i] - n])
  }

  function UnpinInode(g: Graph, i: InodeId, n: nat): Graph
    requires i in g.inodes && g.ipins[i] >= n
  {
    Reap(DropPins(g, i, n), i)
  }

  /** What dropping n pins leaves of the inodes. */
  lemma UnpinInodeIs(g: Graph, i: InodeId, n: nat)
    requires i in g.inodes && g.ipins[i] >= n
    ensures UnpinInode(g, i, n).inodes ==
            if g.inodes[i].ref == n then g.inodes - {i} else g.inodes[i := g.inodes[i].(ref := g.inodes[i].ref - n)]
  {
    var m := g.inodes[i := g.inodes[i].(ref := g.inodes[i].ref - n)];
    assert m - {i} == g.inodes - {i};
  }

  function PinDentry(g: Graph, d: DentryId): Graph
    requires d in g.dentries
  {
    g.(dentries := g.dentries[d := g.dentries[d].(ref := g.dentries[d].ref + 1)], dpins := g.dpins + multiset{d})
  }

  function UnpinDentry(g: Graph, d: DentryId): Graph
    requires d in g.dentries && d in g.dpins
  {
    var n := g.dentries[d].(ref := g.dentries[d].ref - 1);
    g.(dentries := if n.ref == 0 then g.dentries - {d} else g.dentries[d := n], dpins := g.dpins - multiset{d})
  }

  /** A new dentry `name`, naming nothing yet, in the open directory p. */
  function AddDentry(g: Graph, p: InodeId, name: string, d: DentryId): Graph
    requires p in g.inodes && g.inodes[p].dir.Some? && d !in g.dentries
  {
    var dir := g.inodes[p].dir.value[name := d];
    g.(inodes := g.inodes[p := g.inodes[p].(dir := Some(dir))], dentries := g.dentries[d := Dentry(1, name, Some(p), None)])
  }

  /** Dentry d stops naming inode i. */
  function Untie(g: Graph, d: DentryId, i: InodeId): Graph
    requires d in g.dentries && i in g.inodes
  {
    var n := g.dentries[d];
    g.(dentries := g.dentries[d := n.(inode := None, ref := n.ref - DirPins(g.inodes[i]))],
       inodes := g.inodes[i := g.inodes[i].(dnSet := g.inodes[i].dnSet - {d}, ref := g.inodes[i].ref - 1)])
  }

  /** Dentry d stops naming its inode, if any; the inode goes with its last reference. */
  function Unhook(g: Graph, d: DentryId): Graph
    requires d in g.dentries && (g.dentries[d].inode.Some? ==> g.dentries[d].inode.value in g.inodes)
  {
    var i := g.dentries[d].inode;
    if i.None? then g else Reap(Untie(g, d, i.value), i.value)
  }

  /** Dentry d starts naming inode i, taking over a reference held from outside. */
  function Attach(g: Graph, d: DentryId, i: InodeId): Graph
    requires d in g.dentries && i in g.inodes && i in g.ipins
  {
    var n := g.dentries[d];
    g.(dentries := g.dentries[d := n.(inode := Some(i), ref := n.ref + DirPins(g.inodes[i]))],
       inodes := g.inodes[i := g.inodes[i].(dnSet := g.inodes[i].dnSet + {d})], ipins := g.ipins - multiset{i})
  }

  /** Dentry d, which names nothing, leaves its directory. */
  function Withdraw(g: Graph, d: DentryId): Graph
    requires d in g.dentries && g.dentries[d].dir.Some?
    requires g.dentries[d].dir.value in g.inodes && g.inodes[g.dentries[d].dir.value].dir.Some?
  {
    var n := g.dentries[d].(dir := None, ref := g.dentries[d].ref - 1);
    var p := g.dentries[d].dir.value;
    g.(inodes := g.inodes[p := g.inodes[p].(dir := Some(g.inodes[p].dir.value - {n.name}))],
       dentries := if n.ref == 0 then g.dentries - {d} else g.dentries[d := n])
  }

  /** Moves the count of the dentry that names directory i, if there is one. */
  function RepinParent(g: Graph, i: InodeId, delta: int): map<DentryId, Dentry>
    requires i in g.inodes && forall d | d in g.inodes[i].dnSet :: d in g.dentries
  {
    map d | d in g.dentries ::
      if d in g.inodes[i].dnSet then g.dentries[d].(ref := g.dentries[d].ref + delta) else g.dentries[d]
  }

  function OpenDir(g: Graph, i: InodeId): Graph
    requires i in g.inodes && forall d | d in g.inodes[i].dnSet :: d in g.dentries
  {
    if g.inodes[i].dir.Some? then g else
      g.(dentries := RepinParent(g, i, 1),
         inodes := g.inodes[i := g.inodes[i].(dir := Some(map[]), ref := g.inodes[i].ref + 1)])
  }

  function CloseDir(g: Graph, i: InodeId): Graph
    requires i in g.inodes && forall d | d in g.inodes[i].dnSet :: d in g.dentries
  {
    Reap(g.(dentries := RepinParent(g, i, -1),
            inodes := g.inodes[i := g.inodes[i].(dir := None, ref := g.inodes[i].ref - 1)]), i)
  }

  function LlGet(g: Graph, i: InodeId): Graph
    requires i in g.inodes && forall d | d in g.inodes[i].dnSet :: d in g.dentries
  {
    var n := g.inodes[i];
    if n.llRef > 0 then g.(inodes := g.inodes[i := n.(llRef := n.llRef + 1)]) else
      g.(dentries := if n.isDir then RepinParent(g, i, 1) else g.dentries,
         inodes := g.inodes[i := n.(llRef := 1, ref := n.ref + 1)])
  }

  function LlPut(g: Graph, i: InodeId, num: nat): Graph
    requires i in g.inodes && g.inodes[i].llRef >= num && g.inodes[i].llRef > 0
    requires forall d | d in g.inodes[i].dnSet :: d in g.dentries
  {
    var n := g.inodes[i];
    if n.llRef > num then g.(inodes := g.inodes[i := n.(llRef := n.llRef - num)]) else
      Reap(g.(dentries := if n.isDir then RepinParent(g, i, -1) else g.dentries,
              inodes := g.inodes[i := n.(llRef := 0, ref := n.ref - 1)]), i)
  }

  // ---------------------------------------------------------------- every step keeps the invariant

  /** All references accounted for, except that inode i may have run out of them. */
  lemma ReapOk(g: Graph, i: InodeId)
    requires Inv(g) && i in g.inodes
    ensures Inv(Reap(g, i))
    ensures var n := g.inodes[i];
            i !in Reap(g, i).inodes <==> n.dnSet == {} && n.dir.None? && n.llRef == 0 && i !in g.ipins
  {
    var h := Reap(g, i);
    assert InodeOk(g, i);
    if h != g {
      forall j | j in h.inodes ensures InodeOk(h, j) { assert InodeOk(g, j); }
      forall d | d in h.dentries ensures DentryOk(h, d) { assert DentryOk(g, d); }
    }
  }

  lemma NewInodeOk(g: Graph, i: InodeId, isDir: bool)
    requires Inv(g) && i !in g.inodes
    ensures Inv(NewInode(g, i, isDir))
  {
    var h := NewInode(g, i, isDir);
    forall j | j in h.inodes ensures InodeOk(h, j) { if j != i { assert InodeOk(g, j); } }
    forall d | d in h.dentries ensures DentryOk(h, d) { assert DentryOk(g, d); }
  }

  lemma PinInodeOk(g: Graph, i: InodeId)
    requires Inv(g) && i in g.inodes
    ensures Inv(PinInode(g, i))
  {
    var h := PinInode(g, i);
    forall j | j in h.inodes ensures InodeOk(h, j) { assert InodeOk(g, j); }
    forall d | d in h.dentries ensures DentryOk(h, d) { assert DentryOk(g, d); }
  }

  lemma DropPinsOk(g: Graph, i: InodeId, n: nat)
    requires Inv(g) && i in g.inodes && g.ipins[i] >= n
    ensures Inv(DropPins(g, i, n))
  {
    var h := DropPins(g, i, n);
    forall j | j in h.inodes ensures InodeOk(h, j) { assert InodeOk(g, j); }
    forall d | d in h.dentries ensures DentryOk(h, d) { assert DentryOk(g, d); }
  }

  lemma UnpinInodeOk(g: Graph, i: InodeId, n: nat)
    requires Inv(g) && i in g.inodes && g.ipins[i] >= n
    ensures Inv(UnpinInode(g, i, n))
  {
    DropPinsOk(g, i, n);
    ReapOk(DropPins(g, i, n), i);
  }

  lemma PinDentryOk(g: Graph, d: DentryId)
    requires Inv(g) && d in g.dentries
    ensures Inv(PinDentry(g, d))
  {
    var h := PinDentry(g, d);
    forall j | j in h.inodes ensures InodeOk(h, j) { assert InodeOk(g, j); }
    forall e | e in h.dentries ensures DentryOk(h, e) { assert DentryOk(g, e); }
  }

  /** A dentry is deleted exactly when it is in no directory and has no pin left. */
  lemma UnpinDentryOk(g: Graph, d: DentryId)
    requires Inv(g) && d in g.dentries && d in g.dpins
    ensures Inv(UnpinDentry(g, d))
    ensures d !in UnpinDentry(g, d).dentries <==> g.dentries[d].dir.None? && g.dpins[d] == 1
  {
    var h := UnpinDentry(g, d);
    assert DentryOk(g, d);
    UnpinDentryInodes(g, d);
    forall e | e in h.dentries ensures DentryOk(h, e) { assert DentryOk(g, e); }
  }

  lemma UnpinDentryInodes(g: Graph, d: DentryId)
    requires Inv(g) && d in g.dentries && d in g.dpins && DentryOk(g, d)
    ensures var h := UnpinDentry(g, d); forall j {:trigger InodeOk(h, j)} | j in h.inodes :: InodeOk(h, j)
  {
    var h := UnpinDentry(g, d);
    forall j | j in h.inodes ensures InodeOk(h, j) { assert InodeOk(g, j); }
  }

  lemma AddDentryOk(g: Graph, p: InodeId, name: string, d: DentryId)
    requires Inv(g) && p in g.inodes && g.inodes[p].dir.Some? && name !in g.inodes[p].dir.value && d !in g.dentries
    ensures Inv(AddDentry(g, p, name, d))
  {
    var h := AddDentry(g, p, name, d);
    forall j | j in h.inodes ensures InodeOk(h, j) { assert InodeOk(g, j); }
    forall e | e in h.dentries ensures DentryOk(h, e) { if e != d { assert DentryOk(g, e); } }
  }

  lemma UntieOk(g: Graph, d: DentryId, i: InodeId)
    requires Inv(g) && d in g.dentries && g.dentries[d].inode == Some(i) && i in g.inodes
    ensures Inv(Untie(g, d, i))
  {
    var h := Untie(g, d, i);
    assert DentryOk(g, d) && InodeOk(g, i);
    assert |h.inodes[i].dnSet| == |g.inodes[i].dnSet| - 1;
    forall j | j in h.inodes ensures InodeOk(h, j) { assert InodeOk(g, j); }
    UntieDentries(g, d, i);
  }

  lemma UntieDentries(g: Graph, d: DentryId, i: InodeId)
    requires Inv(g) && d in g.dentries && g.dentries[d].inode == Some(i) && i in g.inodes
    ensures var h := Untie(g, d, i); forall e | e in h.dentries :: DentryOk(h, e)
  {
    var h := Untie(g, d, i);
    forall e | e in h.dentries ensures DentryOk(h, e) { assert DentryOk(g, e); }
  }

  lemma UnhookOk(g: Graph, d: DentryId)
    requires Inv(g) && d in g.dentries
    ensures DentryOk(g, d) && Inv(Unhook(g, d))
  {
    assert DentryOk(g, d);
    if g.dentries[d].inode.Some? {
      var i := g.dentries[d].inode.value;
      UntieOk(g, d, i);
      ReapOk(Untie(g, d, i), i);
    }
  }

  lemma AttachOk(g: Graph, d: DentryId, i: InodeId)
    requires Inv(g) && d in g.dentries && g.dentries[d].inode.None? && g.dentries[d].dir.Some?
    requires i in g.ipins && (g.inodes[i].isDir ==> g.inodes[i].dnSet == {})
    ensures Inv(Attach(g, d, i))
  {
    var h := Attach(g, d, i);
    assert DentryOk(g, d) && InodeOk(g, i);
    assert d !in g.inodes[i].dnSet;
    assert |h.inodes[i].dnSet| == |g.inodes[i].dnSet| + 1;
    forall j | j in h.inodes ensures InodeOk(h, j) { assert InodeOk(g, j); }
    AttachDentries(g, d, i);
  }

  lemma AttachDentries(g: Graph, d: DentryId, i: InodeId)
    requires Inv(g) && d in g.dentries && g.dentries[d].inode.None? && g.dentries[d].dir.Some?
    requires i in g.ipins && (g.inodes[i].isDir ==> g.inodes[i].dnSet == {})
    ensures var h := Attach(g, d, i); forall e | e in h.dentries :: DentryOk(h, e)
  {
    var h := Attach(g, d, i);
    forall e | e in h.dentries ensures DentryOk(h, e) { assert DentryOk(g, e); }
  }

  lemma WithdrawOk(g: Graph, d: DentryId)
    requires Inv(g) && d in g.dentries && g.dentries[d].inode.None? && g.dentries[d].dir.Some?
    ensures DentryOk(g, d) && Inv(Withdraw(g, d))
    ensures d !in Withdraw(g, d).dentries <==> d !in g.dpins
  {
    assert DentryOk(g, d);
    var h := Withdraw(g, d);
    var p := g.dentries[d].dir.value;
    assert InodeOk(g, p);
    forall j | j in h.inodes ensures InodeOk(h, j) { assert InodeOk(g, j); }
    forall e | e in h.dentries ensures DentryOk(h, e) { assert DentryOk(g, e); }
  }

  /** The only dentry that names directory i is the one in its set. */
  lemma OneParent(g: Graph, i: InodeId, d: DentryId, e: DentryId)
    requires i in g.inodes && InodeOk(g, i) && g.inodes[i].isDir && d in g.inodes[i].dnSet && e in g.inodes[i].dnSet
    ensures d == e
  {
    if d != e { assert {d, e} <= g.inodes[i].dnSet; SubsetSize({d, e}, g.inodes[i].dnSet); }
  }

  lemma SubsetSize(a: set<DentryId>, b: set<DentryId>)
    requires a <= b
    ensures |a| <= |b|
  {
    assert b == a + (b - a);
  }

  /** Changing the directory state of inode i and the pins on its dentry together keeps the books. */
  lemma RepinOk(g: Graph, i: InodeId, n: Inode, dentries: map<DentryId, Dentry>)
    requires Inv(g) && i in g.inodes
    requires n.isDir == g.inodes[i].isDir && n.dnSet == g.inodes[i].dnSet && (n.dir.Some? ==> n.isDir)
    requires n.dir == g.inodes[i].dir || (n.dir == Some(map[]) && g.inodes[i].dir.None?) ||
             (n.dir.None? && g.inodes[i].dir == Some(map[]))
    requires n.ref - g.inodes[i].ref == One(n.dir.Some?) + One(n.llRef > 0) - One(g.inodes[i].dir.Some?) - One(g.inodes[i].llRef > 0)
    requires dentries == map d | d in g.dentries ::
               if d in g.inodes[i].dnSet then g.dentries[d].(ref := g.dentries[d].ref + DirPins(n) - DirPins(g.inodes[i]))
               else g.dentries[d]
    ensures Inv(g.(inodes := g.inodes[i := n], dentries := dentries))
  {
    var h := g.(inodes := g.inodes[i := n], dentries := dentries);
    assert InodeOk(g, i);
    forall j | j in h.inodes ensures InodeOk(h, j) { assert InodeOk(g, j); }
    forall e | e in h.dentries ensures DentryOk(h, e) {
      assert DentryOk(g, e);
    }
  }

  lemma OpenDirOk(g: Graph, i: InodeId)
    requires Inv(g) && i in g.inodes && g.inodes[i].isDir
    ensures InodeOk(g, i) && Inv(OpenDir(g, i))
  {
    assert InodeOk(g, i);
    var n := g.inodes[i];
    if n.dir.None? {
      RepinOk(g, i, n.(dir := Some(map[]), ref := n.ref + 1), RepinParent(g, i, 1));
    }
  }

  lemma CloseDirOk(g: Graph, i: InodeId)
    requires Inv(g) && i in g.inodes && g.inodes[i].dir == Some(map[])
    ensures InodeOk(g, i) && Inv(CloseDir(g, i))
  {
    assert InodeOk(g, i);
    var n := g.inodes[i].(dir := None, ref := g.inodes[i].ref - 1);
    RepinOk(g, i, n, RepinParent(g, i, -1));
    ReapOk(g.(inodes := g.inodes[i := n], dentries := RepinParent(g, i, -1)), i);
  }

  lemma LlGetOk(g: Graph, i: InodeId)
    requires Inv(g) && i in g.inodes
    ensures InodeOk(g, i) && Inv(LlGet(g, i))
  {
    assert InodeOk(g, i);
    var n, h := g.inodes[i], LlGet(g, i);
    assert g.dentries == RepinParent(g, i, 0);
    RepinOk(g, i, h.inodes[i], h.dentries);
  }

  lemma LlDropOk(g: Graph, i: InodeId)
    requires Inv(g) && i in g.inodes && 0 < g.inodes[i].llRef
    ensures InodeOk(g, i) && Inv(LlPut(g, i, g.inodes[i].llRef))
  {
    assert InodeOk(g, i);
    var n := g.inodes[i];
    var n' := n.(llRef := 0, ref := n.ref - 1);
    var ds := if n.isDir then RepinParent(g, i, -1) else g.dentries;
    if !n.isDir { assert ds == RepinParent(g, i, 0); }
    RepinOk(g, i, n', ds);
    ReapOk(g.(inodes := g.inodes[i := n'], dentries := ds), i);
  }

  lemma LlPutOk(g: Graph, i: InodeId, num: nat)
    requires Inv(g) && i in g.inodes && 0 < g.inodes[i].llRef && num <= g.inodes[i].llRef
    ensures InodeOk(g, i) && Inv(LlPut(g, i, num))
  {
    assert InodeOk(g, i);
    if num == g.inodes[i].llRef { LlDropOk(g, i); }
    else {
      assert g.dentries == RepinParent(g, i, 0);
      RepinOk(g, i, g.inodes[i].(llRef := g.inodes[i].llRef - num), g.dentries);
    }
  }

  // ---------------------------------------------------------------- link and unlink

  /** Dentry d stops naming its inode and, unless it is kept, leaves its directory;
      a directory emptied that way is closed unless it is kept. */
  function Unlink(g: Graph, d: DentryId, keepDir: bool, keepDentry: bool): (h: Graph)
    requires Inv(g) && d in g.dentries && g.dentries[d].dir.Some?
    ensures Inv(h)
  {
    UnhookOk(g, d);
    var h := Unhook(g, d);
    if keepDentry then h else
      var p := h.dentries[d].dir.value;
      WithdrawOk(h, d);
      var w := Withdraw(h, d);
      if w.inodes[p].dir.value == map[] && !keepDir then CloseDirOk(w, p); CloseDir(w, p) else w
  }

  /** The dentry that names a directory. */
  ghost function FirstParent(n: Inode): DentryId
    requires n.dnSet != {}
  {
    var d :| d in n.dnSet; d
  }

  /** Whether dentry d may be given to `link` for `name` in directory p: a new dentry for a new
      name, or the existing one, naming nothing. */
  predicate Linkable(g: Graph, p: InodeId, name: string, d: DentryId) {
    && p in g.inodes && g.inodes[p].dir.Some?
    && (d !in g.dentries ==> name !in g.inodes[p].dir.value)
    && (d in g.dentries ==> g.dentries[d].dir == Some(p) && g.dentries[d].name == name && g.dentries[d].inode.None?)
  }

  /** A pinned directory gives up the name it has, if any. */
  ghost function Orphan(g: Graph, i: InodeId): (h: Graph)
    requires Inv(g) && i in g.ipins
    ensures Inv(h) && i in h.inodes && h.inodes[i].isDir == g.inodes[i].isDir && h.ipins == g.ipins && h.dpins == g.dpins
    ensures h.inodes[i].dnSet == if g.inodes[i].isDir then {} else g.inodes[i].dnSet
    ensures h.dentries.Keys == g.dentries.Keys
    ensures forall d | d in g.dentries && g.dentries[d].inode.None? :: h.dentries[d] == g.dentries[d]
  {
    if g.inodes[i].isDir && g.inodes[i].dnSet != {} then
      var e := FirstParent(g.inodes[i]);
      UnhookParent(g, i, e);
      UnhookOk(g, e);
      Unhook(g, e)
    else g
  }

  /** Taking the one parent of a pinned directory away leaves it without parents. */
  lemma UnhookParent(g: Graph, i: InodeId, e: DentryId)
    requires Inv(g) && i in g.ipins && g.inodes[i].isDir && e in g.inodes[i].dnSet
    ensures InodeOk(g, i) && DentryOk(g, e) && g.dentries[e].inode == Some(i) && e == FirstParent(g.inodes[i])
    ensures var h := Unhook(g, e);
            && i in h.inodes && h.inodes[i].dnSet == {} && h.inodes[i].isDir && h.ipins == g.ipins && h.dpins == g.dpins
            && h.dentries.Keys == g.dentries.Keys
            && forall d | d in g.dentries && d != e :: h.dentries[d] == g.dentries[d]
  {
    assert InodeOk(g, i) && DentryOk(g, e);
    forall d | d in g.inodes[i].dnSet ensures d == e { OneParent(g, i, d, e); }
    assert g.inodes[i].dnSet == {e};
  }

  ghost function LinkInode(g: Graph, d: DentryId, i: InodeId): (h: Graph)
    requires Inv(g) && d in g.dentries && g.dentries[d].inode.None? && g.dentries[d].dir.Some? && i in g.inodes
    ensures Inv(h)
  {
    PinInodeOk(g, i);
    var q := Orphan(PinInode(g, i), i);
    AttachOk(q, d, i);
    Attach(q, d, i)
  }

  /** Links inode oi, if given, under `name` in directory p; a directory that had a parent loses it. */
  ghost function Link(g: Graph, p: InodeId, name: string, d: DentryId, oi: Option<InodeId>): (h: Graph)
    requires Inv(g) && Linkable(g, p, name, d) && (oi.Some? ==> oi.value in g.inodes)
    ensures Inv(h)
  {
    if d !in g.dentries then
      AddDentryOk(g, p, name, d);
      var a := AddDentry(g, p, name, d);
      if oi.None? then a else LinkInode(a, d, oi.value)
    else if oi.None? then g else LinkInode(g, d, oi.value)
  }

  lemma LinkInodeNames(g: Graph, d: DentryId, i: InodeId)
    requires Inv(g) && d in g.dentries && g.dentries[d].inode.None? && g.dentries[d].dir.Some? && i in g.inodes
    ensures
      var h := LinkInode(g, d, i);
      && d in h.dentries && h.dentries[d].inode == Some(i) && h.dentries[d].dir == g.dentries[d].dir
      && i in h.inodes && h.inodes[i].isDir == g.inodes[i].isDir
      && h.inodes[i].dnSet == (if g.inodes[i].isDir then {d} else g.inodes[i].dnSet + {d})
      && h.ipins == g.ipins && h.dpins == g.dpins
  {
    PinInodeOk(g, i);
    assert PinInode(g, i).ipins - multiset{i} == g.ipins;
  }

  /** What a link achieves: the dentry names the inode, and a directory has no other name. */
  lemma LinkNames(g: Graph, p: InodeId, name: string, d: DentryId, i: InodeId)
    requires Inv(g) && Linkable(g, p, name, d) && i in g.inodes
    ensures
      var h := Link(g, p, name, d, Some(i));
      && d in h.dentries && h.dentries[d].inode == Some(i) && h.dentries[d].dir == Some(p)
      && i in h.inodes && h.inodes[i].isDir == g.inodes[i].isDir
      && h.inodes[i].dnSet == (if g.inodes[i].isDir then {d} else g.inodes[i].dnSet + {d})
      && h.ipins == g.ipins && h.dpins == g.dpins
  {
    if d !in g.dentries {
      AddDentryOk(g, p, name, d);
      LinkInodeNames(AddDentry(g, p, name, d), d, i);
    } else {
      LinkInodeNames(g, d, i);
    }
  }

  // ---------------------------------------------------------------- runs

  datatype Op =
    | DoNew(i: InodeId, isDir: bool)
    | DoPin(i: InodeId)
    | DoUnpin(i: InodeId, n: nat)
    | DoPinDentry(d: DentryId)
    | DoUnpinDentry(d: DentryId)
    | DoLink(p: InodeId, name: string, d: DentryId, target: Option<InodeId>)
    | DoUnlink(d: DentryId, keepDir: bool, keepDentry: bool)
    | DoOpenDir(i: InodeId)
    | DoCloseDir(i: InodeId)
    | DoLlGet(i: InodeId)
    | DoLlPut(i: InodeId, n: nat)

  /** What the code demands of its callers. */
  predicate Enabled(g: Graph, op: Op) {
    match op
    case DoNew(i, _) => i !in g.inodes
    case DoPin(i) => i in g.inodes
    case DoUnpin(i, n) => i in g.inodes && g.ipins[i] >= n
    case DoPinDentry(d) => d in g.dentries
    case DoUnpinDentry(d) => d in g.dentries && d in g.dpins
    case DoLink(p, name, d, t) => Linkable(g, p, name, d) && (t.Some? ==> t.value in g.inodes)
    case DoUnlink(d, _, _) => d in g.dentries && g.dentries[d].dir.Some?
    case DoOpenDir(i) => i in g.inodes && g.inodes[i].isDir
    case DoCloseDir(i) => i in g.inodes && g.inodes[i].dir == Some(map[])
    case DoLlGet(i) => i in g.inodes
    case DoLlPut(i, n) => i in g.inodes && g.inodes[i].llRef > 0 && n <= g.inodes[i].llRef
  }

  ghost function Apply(g: Graph, op: Op): (h: Graph)
    requires Inv(g) && Enabled(g, op)
    ensures Inv(h)
  {
    match op
    case DoNew(i, isDir) => NewInodeOk(g, i, isDir); NewInode(g, i, isDir)
    case DoPin(i) => PinInodeOk(g, i); PinInode(g, i)
    case DoUnpin(i, n) => UnpinInodeOk(g, i, n); UnpinInode(g, i, n)
    case DoPinDentry(d) => PinDentryOk(g, d); PinDentry(g, d)
    case DoUnpinDentry(d) => UnpinDentryOk(g, d); UnpinDentry(g, d)
    case DoLink(p, name, d, t) => Link(g, p, name, d, t)
    case DoUnlink(d, keepDir, keepDentry) => Unlink(g, d, keepDir, keepDentry)
    case DoOpenDir(i) => OpenDirOk(g, i); OpenDir(g, i)
    case DoCloseDir(i) => CloseDirOk(g, i); CloseDir(g, i)
    case DoLlGet(i) => LlGetOk(g, i); LlGet(g, i)
    case DoLlPut(i, n) => LlPutOk(g, i, n); LlPut(g, i, n)
  }

  /** g' can be reached from g by steps each of which the code allows. */
  ghost predicate Reaches(g: Graph, ops: seq<Op>, g': Graph)
    requires Inv(g)
    decreases |ops|
  {
    if ops == [] then g' == g else Enabled(g, ops[0]) && Reaches(Apply(g, ops[0]), ops[1..], g')
  }

  const EMPTY := Graph(map[], map[], multiset{}, multiset{})

  /** In every state of every run: each count is the number of its holders, the two directions of
      the dentry-inode relation agree, a directory has at most one parent, and nothing that is
      still linked, open, referenced from below or pinned has been deleted. */
  lemma {:induction false} EveryRun(g: Graph, ops: seq<Op>, g': Graph)
    requires Inv(g) && Reaches(g, ops, g')
    ensures forall i | i in g'.inodes ::
              var n := g'.inodes[i];
              && n.ref == |n.dnSet| + One(n.dir.Some?) + One(n.llRef > 0) + g'.ipins[i]
              && (n.isDir ==> |n.dnSet| <= 1)
    ensures forall d | d in g'.dentries ::
              var n := g'.dentries[d];
              && (n.inode.Some? ==> n.inode.value in g'.inodes)
              && (n.dir.Some? ==> n.dir.value in g'.inodes)
              && n.ref == One(n.dir.Some?) + g'.dpins[d] + (if n.inode.Some? then DirPins(g'.inodes[n.inode.value]) else 0)
    ensures forall i, d :: (i in g'.inodes && d in g'.inodes[i].dnSet) <==> (d in g'.dentries && g'.dentries[d].inode == Some(i))
    ensures forall i | i in g'.ipins :: i in g'.inodes
    ensures forall d | d in g'.dpins :: d in g'.dentries
    decreases |ops|
  {
    if ops == [] {
      forall i | i in g'.inodes ensures InodeOk(g', i) {}
      forall d | d in g'.dentries ensures DentryOk(g', d) {}
    } else {
      EveryRun(Apply(g, ops[0]), ops[1..], g');
    }
  }

  lemma EmptyOk()
    ensures Inv(EMPTY)
  {
  }
}
