/**
 * The client's table of snapshot realms, updated in place: reference counting with
 * cascading release, re-parenting, cached contexts, and the handling of snap traces.
 */
module RealmTables {
  import opened Options
  import opened SnapRealms

  function Entry(realms: Realms, r: Ino): Realm {
    if r in realms then realms[r] else FreshRealm()
  }

  /** `b` is `a` after dropping references: survivors lose only children that were freed,
      and nothing that held an inode with caps or a surviving child was freed. */
  ghost predicate Released(a: Realms, b: Realms) {
    && b.Keys <= a.Keys
    && (forall i | i in b :: b[i] == a[i].(nref := b[i].nref, pchildren := a[i].pchildren * b.Keys))
    && (forall i | i in a && i !in b :: a[i].inodes == {} && a[i].pchildren !! b.Keys)
  }

  ghost predicate OnlyCaches(a: Realms, b: Realms) {
    a.Keys == b.Keys && forall i | i in a :: b[i] == a[i].(cached := b[i].cached)
  }

  ghost function Cleared(realms: Realms, S: set<Ino>): Realms {
    map i | i in realms :: if i in S then realms[i].(cached := NO_CONTEXT) else realms[i]
  }

  /** Inode n is on the list of exactly the realm it points to. */
  ghost predicate Placed(realms: Realms, realmOf: map<Ino, Ino>) {
    && (forall n | n in realmOf :: realmOf[n] in realms)
    && (forall i {:trigger Members(realmOf, i)} | i in realms :: realms[i].inodes == Members(realmOf, i))
  }

  ghost function Members(realmOf: map<Ino, Ino>, i: Ino): set<Ino> {
    set n | n in realmOf && realmOf[n] == i
  }

  /** What holds of the table between steps. */
  ghost predicate Inv(realms: Realms, realmOf: map<Ino, Ino>, rank: Ino -> nat, temps: multiset<Ino>, stale: set<Ino>) {
    && Forest(realms, rank) && Counted(realms, temps) && Placed(realms, realmOf)
    && CachesOk(realms, rank, stale)
  }

  // ---------------------------------------------------------------- parent edges

  ghost function Edges(realms: Realms): map<Ino, Ino> {
    map i | i in realms && realms[i].pparent.Some? :: realms[i].pparent.value
  }

  ghost predicate Ranks(edges: map<Ino, Ino>, rank: Ino -> nat) {
    forall i | i in edges :: rank(edges[i]) < rank(i)
  }

  ghost predicate Acyclic(edges: map<Ino, Ino>) {
    exists rank: Ino -> nat :: Ranks(edges, rank)
  }

  /** Applying the moves in order never closes a cycle. */
  ghost predicate SafeMoves(edges: map<Ino, Ino>, moves: seq<(Ino, Ino)>)
    decreases |moves|
  {
    Acyclic(edges) && (moves != [] ==> SafeMoves(edges[moves[0].0 := moves[0].1], moves[1..]))
  }

  function Moves(trace: seq<RealmInfo>): (m: seq<(Ino, Ino)>)
    ensures |m| == |trace| && forall k | 0 <= k < |trace| :: m[k] == (trace[k].ino, trace[k].parent)
  {
    seq(|trace|, k requires 0 <= k < |trace| => (trace[k].ino, trace[k].parent))
  }

  ghost predicate Within(edges: map<Ino, Ino>, bound: map<Ino, Ino>) {
    forall i | i in edges :: i in bound && edges[i] == bound[i]
  }

  // ---------------------------------------------------------------- dropping references

  /** A realm whose only reference is the temporary being dropped has no child and no inode. */
  lemma LastReference(realms: Realms, temps: multiset<Ino>, r: Ino)
    requires Counted(realms, temps) && r in temps && realms[r].nref == 1
    ensures realms[r].pchildren == {} && realms[r].inodes == {} && temps[r] == 1
  {
    assert CountOk(realms, temps, r);
  }

  /** `e` is `a` without realm r, which is also off its parent's child set. */
  ghost predicate Erased(a: Realms, e: Realms, r: Ino) {
    e.Keys == a.Keys - {r} && forall i | i in e :: e[i] == a[i].(pchildren := a[i].pchildren - {r})
  }

  lemma ErasedForest(a: Realms, e: Realms, rank: Ino -> nat, r: Ino)
    requires Forest(a, rank) && r in a && a[r].pchildren == {} && Erased(a, e, r)
    ensures Forest(e, rank)
  {
    forall i | i in e ensures NodeOk(e, rank, i) {
      assert NodeOk(a, rank, i);
      if a[i].pparent.Some? { assert NodeOk(a, rank, a[i].pparent.value); }
    }
  }

  lemma ErasedCounted(a: Realms, e: Realms, rank: Ino -> nat, temps: multiset<Ino>, r: Ino, temps': multiset<Ino>)
    requires Forest(a, rank) && Counted(a, temps) && r in temps && a[r].nref == 1 && Erased(a, e, r)
    requires temps' == if a[r].pparent.Some? then temps - multiset{r} + multiset{a[r].pparent.value} else temps - multiset{r}
    ensures Counted(e, temps')
  {
    LastReference(a, temps, r);
    assert NodeOk(a, rank, r);
    forall i | i in e ensures CountOk(e, temps', i) {
      assert CountOk(a, temps, i) && NodeOk(a, rank, i);
      if r !in a[i].pchildren { assert a[i].pchildren - {r} == a[i].pchildren; }
    }
  }

  lemma ErasedCaches(a: Realms, e: Realms, rank: Ino -> nat, stale: set<Ino>, r: Ino)
    requires Forest(a, rank) && Forest(e, rank) && Erased(a, e, r) && CachesOk(a, rank, stale)
    ensures CachesOk(e, rank, stale)
  {
    var S := e.Keys - stale;
    forall i | i in S ensures ParentIn(e, S, i) && Carried(a, e, stale, i) {
      assert ParentIn(a, a.Keys - stale, i) && NodeOk(e, rank, i);
    }
    CachesFrame(a, rank, stale, e, rank, stale);
  }

  lemma ErasedReleased(a: Realms, e: Realms, rank: Ino -> nat, realmOf: map<Ino, Ino>, r: Ino)
    requires Forest(a, rank) && Erased(a, e, r) && r in a && a[r].pchildren == {} && a[r].inodes == {}
    requires Placed(a, realmOf)
    ensures Placed(e, realmOf) && Released(a, e) && |e| < |a|
  {
    assert a[r].inodes == Members(realmOf, r);
    forall i | i in e ensures e[i].inodes == Members(realmOf, i) { assert a[i].inodes == Members(realmOf, i); }
    forall n | n in realmOf ensures realmOf[n] in e { assert n in Members(realmOf, realmOf[n]); }
    forall i | i in e ensures a[i].pchildren - {r} == a[i].pchildren * e.Keys {
      assert NodeOk(a, rank, i);
    }
    assert |e.Keys| < |a.Keys|;
  }

  lemma ReleasedTrans(a: Realms, b: Realms, c: Realms)
    requires Released(a, b) && Released(b, c)
    ensures Released(a, c)
  {
    forall i | i in c
      ensures c[i] == a[i].(nref := c[i].nref, pchildren := a[i].pchildren * c.Keys)
    {
      assert a[i].pchildren * b.Keys * c.Keys == a[i].pchildren * c.Keys;
    }
  }

  lemma AddThenDrop(T: multiset<Ino>, p: Ino)
    ensures T + multiset{p} - multiset{p} == T
  {
  }

  // ---------------------------------------------------------------- changing one reference count

  /** Only realm r's reference count differs (r may be new). */
  ghost predicate Recounted(a: Realms, b: Realms, r: Ino) {
    && b.Keys == a.Keys + {r}
    && (forall i | i in a && i != r :: b[i] == a[i])
    && b[r] == Entry(a, r).(nref := b[r].nref)
  }

  lemma RecountForest(a: Realms, b: Realms, rank: Ino -> nat, r: Ino)
    requires Forest(a, rank) && Recounted(a, b, r)
    ensures Forest(b, rank)
  {
    forall i | i in b ensures NodeOk(b, rank, i) {
      if i in a { assert NodeOk(a, rank, i); }
    }
  }

  lemma RecountCaches(a: Realms, b: Realms, rank: Ino -> nat, stale: set<Ino>, r: Ino)
    requires Forest(a, rank) && Recounted(a, b, r) && CachesOk(a, rank, stale) && Forest(b, rank)
    ensures CachesOk(b, rank, stale - (b.Keys - a.Keys))
  {
    var stale' := stale - (b.Keys - a.Keys);
    var S := b.Keys - stale';
    forall i | i in S ensures ParentIn(b, S, i) && Carried(a, b, stale, i) {
      if i in a { assert ParentIn(a, a.Keys - stale, i); }
    }
    CachesFrame(a, rank, stale, b, rank, stale');
  }

  lemma RecountPlaced(a: Realms, b: Realms, realmOf: map<Ino, Ino>, r: Ino)
    requires Placed(a, realmOf) && Recounted(a, b, r)
    ensures Placed(b, realmOf)
  {
    forall i | i in b ensures b[i].inodes == Members(realmOf, i) {
      if i in a { assert a[i].inodes == Members(realmOf, i); }
    }
  }

  lemma RecountKeeps(a: Realms, b: Realms, realmOf: map<Ino, Ino>, rank: Ino -> nat,
                     temps: multiset<Ino>, temps': multiset<Ino>, stale: set<Ino>, r: Ino)
    requires Inv(a, realmOf, rank, temps, stale) && Recounted(a, b, r)
    requires forall i | i != r :: temps'[i] == temps[i]
    requires temps'[r] + Entry(a, r).nref == temps[r] + b[r].nref && b[r].nref > 0
    ensures Inv(b, realmOf, rank, temps', stale - (b.Keys - a.Keys))
  {
    RecountForest(a, b, rank, r);
    RecountCaches(a, b, rank, stale, r);
    RecountPlaced(a, b, realmOf, r);
    forall i | i in b ensures CountOk(b, temps', i) {
      if i in a { assert CountOk(a, temps, i); }
    }
  }

  lemma RecountReleased(a: Realms, b: Realms, rank: Ino -> nat, r: Ino)
    requires Forest(a, rank) && Recounted(a, b, r) && r in a
    ensures Released(a, b)
  {
    forall i | i in b ensures a[i].pchildren == a[i].pchildren * b.Keys { assert NodeOk(a, rank, i); }
  }

  lemma EraseKeeps(a: Realms, e: Realms, realmOf: map<Ino, Ino>, rank: Ino -> nat,
                   temps: multiset<Ino>, temps': multiset<Ino>, stale: set<Ino>, r: Ino)
    requires Inv(a, realmOf, rank, temps, stale) && r in temps && a[r].nref == 1 && Erased(a, e, r)
    requires temps' == if a[r].pparent.Some? then temps - multiset{r} + multiset{a[r].pparent.value} else temps - multiset{r}
    ensures Inv(e, realmOf, rank, temps', stale) && Released(a, e) && |e| < |a|
  {
    LastReference(a, temps, r);
    ErasedForest(a, e, rank, r);
    ErasedReleased(a, e, rank, realmOf, r);
    ErasedCaches(a, e, rank, stale, r);
    ErasedCounted(a, e, rank, temps, r, temps');
  }

  /** Unhooking r from its parent's child set, then dropping it, erases it. */
  lemma UnhookErases(a: Realms, rank: Ino -> nat, r: Ino, e: Realms)
    requires Forest(a, rank) && r in a
    requires a[r].pparent.None? ==> e == a - {r}
    requires a[r].pparent.Some? ==>
      var p := a[r].pparent.value;
      p in a - {r} && e == (a - {r})[p := a[p].(pchildren := a[p].pchildren - {r})]
    ensures Erased(a, e, r)
  {
    forall i | i in e ensures e[i] == a[i].(pchildren := a[i].pchildren - {r}) {
      assert NodeOk(a, rank, i);
      if r !in a[i].pchildren { assert a[i].pchildren - {r} == a[i].pchildren; }
    }
  }

  /** The table without realm r, whose last reference goes. */
  lemma {:induction false} FreeOk(a: Realms, e: Realms, realmOf: map<Ino, Ino>, rank: Ino -> nat, temps: multiset<Ino>, temps': multiset<Ino>,
                                  stale: set<Ino>, r: Ino)
    requires Inv(a, realmOf, rank, temps, stale) && r in temps && r in a && a[r].nref == 1
    requires a[r].pparent.Some? ==> a[r].pparent.value in a && a[r].pparent.value != r
    requires e == (var up := a[r].pparent;
                   if up.Some? then (a - {r})[up.value := a[up.value].(pchildren := a[up.value].pchildren - {r})] else a - {r})
    requires temps' == temps - multiset{r} + if a[r].pparent.Some? then multiset{a[r].pparent.value} else multiset{}
    ensures Inv(e, realmOf, rank, temps', stale) && Released(a, e) && |e| < |a|
  {
    assert CountOk(a, temps, r) && NodeOk(a, rank, r);
    UnhookErases(a, rank, r, e);
    EraseKeeps(a, e, realmOf, rank, temps, temps', stale, r);
  }

  // ---------------------------------------------------------------- breadth-first walks

  ghost predicate Distinct(q: seq<Ino>) {
    forall i, j | 0 <= i < j < |q| :: q[i] != q[j]
  }

  /** A breadth-first walk from root has visited V and still has Q to visit. */
  ghost predicate Walking(realms: Realms, rank: Ino -> nat, root: Ino, V: set<Ino>, Q: set<Ino>)
    requires Forest(realms, rank)
  {
    && root in V + Q && V !! Q && V + Q <= realms.Keys
    && (forall x | x in V + Q :: Under(realms, rank, x, root))
    && (forall x | x in V + Q && x != root :: realms[x].pparent.Some? && realms[x].pparent.value in V)
    && (forall x | x in V :: realms[x].pchildren <= V + Q)
  }

  lemma WalkStep(realms: Realms, rank: Ino -> nat, root: Ino, V: set<Ino>, Q: set<Ino>, x: Ino)
    requires Forest(realms, rank) && Walking(realms, rank, root, V, Q) && x in Q
    ensures Walking(realms, rank, root, V + {x}, Q - {x} + realms[x].pchildren)
    ensures realms[x].pchildren !! V + Q
  {
    UnderRank(realms, rank, x, root);
    assert NodeOk(realms, rank, x);
    forall c | c in realms[x].pchildren
      ensures c in realms && realms[c].pparent == Some(x) && Under(realms, rank, c, root) && c !in V + Q && c != x
    {
      assert NodeOk(realms, rank, c);
    }
  }

  /** Popping the head of a queue without repetitions and pushing new members keeps it so. */
  lemma QueueStep(q: seq<Ino>, kids: seq<Ino>)
    requires q != [] && Distinct(q) && Distinct(kids) && Elems(q) !! Elems(kids)
    ensures Distinct(q[1..] + kids)
    ensures Elems(q[1..] + kids) == Elems(q) - {q[0]} + Elems(kids)
  {
    var t := q[1..] + kids;
    assert q == [q[0]] + q[1..];
    forall i, j | 0 <= i < j < |t| ensures t[i] != t[j] {
      if i < |q| - 1 <= j { assert q[i + 1] in Elems(q) && kids[j - (|q| - 1)] in Elems(kids); }
    }
    forall x ensures x in t <==> (x in q && x != q[0]) || x in kids {
      assert x in t <==> x in q[1..] || x in kids;
      if x in kids && x == q[0] { assert x in Elems(q) && x in Elems(kids); }
    }
  }

  /** One turn of a breadth-first walk. */
  lemma WalkTurn(realms: Realms, rank: Ino -> nat, root: Ino, V: set<Ino>, q: seq<Ino>, kids: seq<Ino>)
    requires Forest(realms, rank) && Walking(realms, rank, root, V, Elems(q)) && q != [] && Distinct(q)
    requires q[0] in realms && Distinct(kids) && Elems(kids) == realms[q[0]].pchildren
    ensures q[0] !in V && V + {q[0]} <= realms.Keys
    ensures Distinct(q[1..] + kids) && Walking(realms, rank, root, V + {q[0]}, Elems(q[1..] + kids))
  {
    assert q[0] in Elems(q);
    WalkStep(realms, rank, root, V, Elems(q), q[0]);
    QueueStep(q, kids);
  }

  lemma WalkDone(realms: Realms, rank: Ino -> nat, root: Ino, V: set<Ino>)
    requires Forest(realms, rank) && Walking(realms, rank, root, V, {})
    ensures V == Subtree(realms, rank, root)
  {
    forall i | i in realms && Under(realms, rank, i, root) ensures i in V {
      UnderClosed(realms, rank, V, root, i);
    }
  }

  /** Iterates a set in some order, each element once. */
  method Iterate(S: set<Ino>) returns (s: seq<Ino>)
    ensures Distinct(s) && Elems(s) == S
  {
    s := [];
    var rest := S;
    while rest != {}
      invariant Distinct(s) && rest <= S
      invariant forall x :: x in S <==> x in s || x in rest
      invariant forall x | x in s :: x !in rest
      decreases rest
    {
      var x :| x in rest;
      s, rest := s + [x], rest - {x};
    }
  }

  // ---------------------------------------------------------------- cache-only changes

  lemma ForestCaches(a: Realms, b: Realms, rank: Ino -> nat)
    requires Forest(a, rank) && OnlyCaches(a, b)
    ensures Forest(b, rank)
  {
    forall i | i in b ensures NodeOk(b, rank, i) { assert NodeOk(a, rank, i); }
  }

  lemma CountedCaches(a: Realms, b: Realms, temps: multiset<Ino>)
    requires Counted(a, temps) && OnlyCaches(a, b)
    ensures Counted(b, temps)
  {
    forall i | i in b ensures CountOk(b, temps, i) { assert CountOk(a, temps, i); }
  }

  lemma ContextCaches(a: Realms, b: Realms, rank: Ino -> nat, i: Ino)
    requires Forest(a, rank) && Forest(b, rank) && OnlyCaches(a, b) && i in a
    ensures ContextOf(a, rank, i) == ContextOf(b, rank, i)
  {
    forall j | j in a ensures ParentIn(a, a.Keys, j) { assert NodeOk(a, rank, j); }
    ContextFrame(a, rank, b, rank, a.Keys, i);
  }

  lemma {:induction false} UnderCaches(a: Realms, b: Realms, rank: Ino -> nat, i: Ino, root: Ino)
    requires Forest(a, rank) && Forest(b, rank) && OnlyCaches(a, b) && i in a
    ensures Under(a, rank, i, root) <==> Under(b, rank, i, root)
    decreases rank(i)
  {
    assert NodeOk(a, rank, i);
    if a[i].pparent.Some? { UnderCaches(a, b, rank, a[i].pparent.value, root); }
  }

  lemma SubtreeCaches(a: Realms, b: Realms, rank: Ino -> nat, root: Ino)
    requires Forest(a, rank) && Forest(b, rank) && OnlyCaches(a, b)
    ensures Subtree(a, rank, root) == Subtree(b, rank, root)
  {
    forall i | i in a ensures Under(a, rank, i, root) <==> Under(b, rank, i, root) {
      UnderCaches(a, b, rank, i, root);
    }
  }

  lemma {:induction false} UnderKept(a: Realms, ra: Ino -> nat, b: Realms, rb: Ino -> nat, i: Ino, root: Ino)
    requires Forest(a, ra) && Forest(b, rb) && i in a && i in b && Under(a, ra, i, root)
    requires forall j | j in a && j in b && j != root :: a[j].pparent == b[j].pparent
    ensures Under(b, rb, i, root)
    decreases ra(i)
  {
    assert NodeOk(a, ra, i) && NodeOk(b, rb, i);
    if i != root { UnderKept(a, ra, b, rb, a[i].pparent.value, root); }
  }

  // ---------------------------------------------------------------- re-parenting

  /** Realm r cut from its parent. */
  function Cut(a: Realms, r: Ino): Realms
    requires r in a && a[r].pparent.Some? && a[r].pparent.value in a && a[r].pparent.value != r
  {
    var q := a[r].pparent.value;
    a[r := a[r].(parent := 0, pparent := None)][q := a[q].(pchildren := a[q].pchildren - {r})]
  }

  /** Parentless realm r hooked under p. */
  function Hook(a: Realms, r: Ino, p: Ino): Realms
    requires r in a && p in a && p != r
  {
    a[r := a[r].(parent := p, pparent := Some(p))][p := a[p].(pchildren := a[p].pchildren + {r})]
  }

  lemma CutForest(a: Realms, rank: Ino -> nat, temps: multiset<Ino>, r: Ino)
    requires Forest(a, rank) && Counted(a, temps) && r in a && a[r].pparent.Some?
    ensures NodeOk(a, rank, r) && Forest(Cut(a, r), rank)
    ensures Counted(Cut(a, r), temps + multiset{a[r].pparent.value})
  {
    assert NodeOk(a, rank, r);
    var b, temps' := Cut(a, r), temps + multiset{a[r].pparent.value};
    forall i | i in b ensures NodeOk(b, rank, i) && CountOk(b, temps', i) {
      assert NodeOk(a, rank, i) && CountOk(a, temps, i);
      if a[i].pparent.Some? { assert NodeOk(a, rank, a[i].pparent.value); }
    }
  }

  lemma CutKeeps(a: Realms, realmOf: map<Ino, Ino>, rank: Ino -> nat, temps: multiset<Ino>, stale: set<Ino>, r: Ino)
    requires Inv(a, realmOf, rank, temps, stale) && r in a && a[r].pparent.Some?
    ensures NodeOk(a, rank, r) && Forest(Cut(a, r), rank)
    ensures Inv(Cut(a, r), realmOf, rank, temps + multiset{a[r].pparent.value}, stale + Subtree(Cut(a, r), rank, r))
  {
    CutForest(a, rank, temps, r);
    var b := Cut(a, r);
    var stale' := stale + Subtree(b, rank, r);
    var S := b.Keys - stale';
    forall i | i in S ensures ParentIn(b, S, i) && Carried(a, b, stale, i) {
      assert i != r && ParentIn(a, a.Keys - stale, i) && NodeOk(b, rank, i);
    }
    CachesFrame(a, rank, stale, b, rank, stale');
    forall i | i in b ensures b[i].inodes == Members(realmOf, i) { assert a[i].inodes == Members(realmOf, i); }
  }

  lemma HookForest(a: Realms, rank: Ino -> nat, r: Ino, p: Ino, rank': Ino -> nat)
    requires Forest(a, rank) && r in a && p in a && p != r && a[r].pparent.None?
    requires Ranks(Edges(a)[r := p], rank')
    ensures Forest(Hook(a, r, p), rank')
  {
    var b, E := Hook(a, r, p), Edges(a)[r := p];
    assert r in E && rank'(E[r]) < rank'(r);
    forall i | i in b ensures NodeOk(b, rank', i) {
      assert NodeOk(a, rank, i);
      if a[i].pparent.Some? { assert i in E && rank'(E[i]) < rank'(i); }
    }
  }

  lemma HookCounted(a: Realms, rank: Ino -> nat, temps: multiset<Ino>, r: Ino, p: Ino)
    requires Forest(a, rank) && Counted(a, temps) && r in a && p in temps && p != r && a[r].pparent.None?
    ensures Counted(Hook(a, r, p), temps - multiset{p})
  {
    var b, temps' := Hook(a, r, p), temps - multiset{p};
    assert NodeOk(a, rank, p);
    forall i | i in b ensures CountOk(b, temps', i) { assert CountOk(a, temps, i); }
  }

  lemma HookKeeps(a: Realms, realmOf: map<Ino, Ino>, rank: Ino -> nat, temps: multiset<Ino>, stale: set<Ino>, r: Ino, p: Ino, rank': Ino -> nat)
    requires Inv(a, realmOf, rank, temps, stale) && r in a && p in temps && p != r && a[r].pparent.None?
    requires Ranks(Edges(a)[r := p], rank')
    ensures Forest(Hook(a, r, p), rank')
    ensures Inv(Hook(a, r, p), realmOf, rank', temps - multiset{p}, stale + Subtree(Hook(a, r, p), rank', r))
  {
    HookForest(a, rank, r, p, rank');
    HookCounted(a, rank, temps, r, p);
    var b := Hook(a, r, p);
    var stale' := stale + Subtree(b, rank', r);
    var S := b.Keys - stale';
    forall i | i in S ensures ParentIn(b, S, i) && Carried(a, b, stale, i) {
      assert i != r && ParentIn(a, a.Keys - stale, i) && NodeOk(b, rank', i);
    }
    CachesFrame(a, rank, stale, b, rank', stale');
    forall i | i in b ensures b[i].inodes == Members(realmOf, i) { assert a[i].inodes == Members(realmOf, i); }
  }

  lemma RanksWithin(edges: map<Ino, Ino>, bound: map<Ino, Ino>, rank: Ino -> nat)
    requires Within(edges, bound) && Ranks(bound, rank)
    ensures Ranks(edges, rank)
  {
  }

  /** b is a with r taken from its parent and with what that freed gone. */
  ghost predicate Detached(a: Realms, b: Realms, r: Ino) {
    && b.Keys <= a.Keys && r in b && r in a
    && SameInfo(a[r].(parent := 0, pparent := None), b[r])
    && forall i | i in b && i != r :: SameInfo(a[i], b[i])
  }

  /** Apart from counts, children and caches, b's realms other than r are those of a or fresh. */
  ghost predicate Evolved(a: Realms, b: Realms, r: Ino) {
    forall i | i in b && i != r :: SameInfo(FreshRealm(), b[i]) || (i in a && SameInfo(a[i], b[i]))
  }

  lemma CutReleased(a: Realms, b: Realms, r: Ino)
    requires r in a && a[r].pparent.Some? && a[r].pparent.value in a && a[r].pparent.value != r
    requires Released(Cut(a, r), b) && r in b
    ensures Detached(a, b, r)
  {
    forall i | i in b && i != r ensures SameInfo(a[i], b[i]) {}
  }

  lemma DetachedEdges(a: Realms, b: Realms, r: Ino, p: Ino, rank': Ino -> nat)
    requires Detached(a, b, r) && Ranks(Edges(a)[r := p], rank')
    ensures p != r && Ranks(Edges(b)[r := p], rank')
  {
    assert r in Edges(a)[r := p];
    RanksWithin(Edges(b)[r := p], Edges(a)[r := p], rank');
  }

  lemma AttachEdges(a: Realms, b: Realms, c: Realms, r: Ino, p: Ino)
    requires Detached(a, b, r)
    requires Recounted(b, c, p) && p != r
    ensures r in c && c[r].pparent.None?
    ensures Within(Edges(c)[r := p], Edges(a)[r := p])
    ensures Within(Edges(Hook(c, r, p)), Edges(a)[r := p])
  {
  }

  lemma AttachEvolved(a: Realms, b: Realms, c: Realms, r: Ino, p: Ino)
    requires Detached(a, b, r)
    requires Recounted(b, c, p) && p != r
    ensures r in c && Evolved(a, Hook(c, r, p), r)
    ensures forall i | i in b && i != r :: i in Hook(c, r, p) && SameInfo(a[i], Hook(c, r, p)[i])
    ensures SameInfo(a[r].(parent := p, pparent := Some(p)), Hook(c, r, p)[r])
  {
    var d := Hook(c, r, p);
    forall i | i in d && i != r ensures SameInfo(FreshRealm(), d[i]) || (i in a && SameInfo(a[i], d[i])) {
      if i in b { assert SameInfo(b[i], c[i]) && SameInfo(c[i], d[i]); }
    }
  }

  /** Whatever was above i still is. */
  ghost predicate KeepsAbove(a: Realms, ra: Ino -> nat, b: Realms, rb: Ino -> nat, i: Ino)
    requires Forest(a, ra) && Forest(b, rb) && i in a && i in b
  {
    forall x {:trigger Under(a, ra, i, x)} | Under(a, ra, i, x) :: Under(b, rb, i, x)
  }

  /** What is stale after moving r lies below r, or was stale before and kept its ancestors. */
  ghost predicate StaleMoved(a: Realms, ra: Ino -> nat, sa: set<Ino>, b: Realms, rb: Ino -> nat, sb: set<Ino>, r: Ino)
    requires Forest(a, ra) && Forest(b, rb)
  {
    forall i {:trigger Under(b, rb, i, r)} | i in b && i in sb ::
      Under(b, rb, i, r) || (i in a && i in sa && KeepsAbove(a, ra, b, rb, i))
  }

  lemma {:induction false} DetachUnder(a: Realms, ra: Ino -> nat, b: Realms, rb: Ino -> nat, r: Ino, i: Ino, x: Ino)
    requires Forest(a, ra) && Forest(b, rb) && Detached(a, b, r) && i in b && Under(a, ra, i, x)
    ensures Under(b, rb, i, x) || Under(b, rb, i, r)
    decreases ra(i)
  {
    assert NodeOk(a, ra, i) && NodeOk(b, rb, i);
    if i != x && i != r { DetachUnder(a, ra, b, rb, r, a[i].pparent.value, x); }
  }

  lemma {:induction false} AttachUnder(b: Realms, rb: Ino -> nat, d: Realms, rd: Ino -> nat, i: Ino, x: Ino)
    requires Forest(b, rb) && Forest(d, rd) && b.Keys <= d.Keys && i in b && Under(b, rb, i, x)
    requires forall j | j in b && b[j].pparent.Some? :: d[j].pparent == b[j].pparent
    ensures Under(d, rd, i, x)
    decreases rb(i)
  {
    assert NodeOk(b, rb, i) && NodeOk(d, rd, i);
    if i != x { AttachUnder(b, rb, d, rd, b[i].pparent.value, x); }
  }

  lemma DetachStale(a: Realms, ra: Ino -> nat, sa: set<Ino>, b: Realms, rb: Ino -> nat, r: Ino)
    requires Forest(a, ra) && Forest(b, rb) && Detached(a, b, r)
    requires NodeOk(a, ra, r) && a[r].pparent.Some? && Forest(Cut(a, r), ra) && Released(Cut(a, r), b)
    ensures StaleMoved(a, ra, sa, b, rb, sa + Subtree(Cut(a, r), ra, r), r)
  {
    var cut := Cut(a, r);
    forall i | i in b && i in sa + Subtree(cut, ra, r) && !Under(b, rb, i, r)
      ensures i in sa && KeepsAbove(a, ra, b, rb, i)
    {
      if i in Subtree(cut, ra, r) { UnderKept(cut, ra, b, rb, i, r); }
      forall x | Under(a, ra, i, x) ensures Under(b, rb, i, x) { DetachUnder(a, ra, b, rb, r, i, x); }
    }
  }

  lemma AttachStale(b: Realms, rb: Ino -> nat, sb: set<Ino>, c: Realms, r: Ino, p: Ino, rd: Ino -> nat, sd: set<Ino>)
    requires Forest(b, rb) && r in b && b[r].pparent.None? && Recounted(b, c, p) && p != r && Forest(Hook(c, r, p), rd)
    requires forall i | i in sd && i in c :: (i in sb && i in b) || Under(Hook(c, r, p), rd, i, r)
    ensures StaleMoved(b, rb, sb, Hook(c, r, p), rd, sd, r)
  {
    var d := Hook(c, r, p);
    forall i | i in d && i in sd && !Under(d, rd, i, r) ensures i in b && i in sb && KeepsAbove(b, rb, d, rd, i) {
      forall x | Under(b, rb, i, x) ensures Under(d, rd, i, x) { AttachUnder(b, rb, d, rd, i, x); }
    }
  }

  /** Parentless realm r is to go under p, on which a reference has been taken since `was`. */
  ghost predicate AttachReady(was: Realms, rank: Ino -> nat, staleA: set<Ino>, c: Realms, realmOf: map<Ino, Ino>,
                              temps: multiset<Ino>, temps': multiset<Ino>, stale: set<Ino>, r: Ino, p: Ino, rank': Ino -> nat) {
    && Forest(was, rank) && Recounted(was, c, p) && r in was && was[r].pparent.None? && p != r
    && Inv(c, realmOf, rank, temps, stale) && p in temps && temps' == temps - multiset{p}
    && (stale == if p in was then staleA else staleA - {p})
    && Ranks(Edges(was)[r := p], rank')
  }

  lemma AttachDone(was: Realms, rank: Ino -> nat, staleA: set<Ino>, c: Realms, realmOf: map<Ino, Ino>,
                   temps: multiset<Ino>, temps': multiset<Ino>, stale: set<Ino>, r: Ino, p: Ino, rank': Ino -> nat, d: Realms)
    requires AttachReady(was, rank, staleA, c, realmOf, temps, temps', stale, r, p, rank') && d == Hook(c, r, p)
    ensures Forest(d, rank') && Inv(d, realmOf, rank', temps', stale + Subtree(d, rank', r))
    ensures StaleMoved(was, rank, staleA, d, rank', stale + Subtree(d, rank', r), r)
  {
    assert NodeOk(was, rank, r);
    AttachEdges(was, was, c, r, p);
    RanksWithin(Edges(c)[r := p], Edges(was)[r := p], rank');
    HookKeeps(c, realmOf, rank, temps, stale, r, p, rank');
    AttachStale(was, rank, staleA, c, r, p, rank', stale + Subtree(Hook(c, r, p), rank', r));
  }

  lemma StaleMovedTrans(a: Realms, ra: Ino -> nat, sa: set<Ino>, b: Realms, rb: Ino -> nat, sb: set<Ino>,
                        d: Realms, rd: Ino -> nat, sd: set<Ino>, r: Ino)
    requires Forest(a, ra) && Forest(b, rb) && Forest(d, rd)
    requires StaleMoved(a, ra, sa, b, rb, sb, r) && StaleMoved(b, rb, sb, d, rd, sd, r)
    ensures StaleMoved(a, ra, sa, d, rd, sd, r)
  {
    forall i | i in d && i in sd && !Under(d, rd, i, r) ensures i in a && i in sa && KeepsAbove(a, ra, d, rd, i) {
      assert i in b && i in sb && KeepsAbove(b, rb, d, rd, i);
      assert !Under(b, rb, i, r);
      forall x | Under(a, ra, i, x) ensures Under(d, rd, i, x) { assert Under(b, rb, i, x); }
    }
  }

  lemma StaleMovedSame(a: Realms, ra: Ino -> nat, sa: set<Ino>, r: Ino)
    requires Forest(a, ra)
    ensures StaleMoved(a, ra, sa, a, ra, sa, r)
  {
    forall i | i in a && i in sa ensures KeepsAbove(a, ra, a, ra, i) {}
  }

  lemma SameParentWithin(a: Realms, rank: Ino -> nat, r: Ino)
    requires Forest(a, rank) && r in a
    ensures Within(Edges(a), Edges(a)[r := a[r].parent])
  {
    assert NodeOk(a, rank, r);
  }

  predicate SameInfo(x: Realm, y: Realm) {
    y == x.(nref := y.nref, pchildren := y.pchildren, cached := y.cached, inodes := y.inodes)
  }

  // ---------------------------------------------------------------- filling and clearing caches

  /** A cache slot may be set to the right context, to nothing, or, in a stale realm, to anything. */
  lemma CacheKeeps(a: Realms, b: Realms, realmOf: map<Ino, Ino>, rank: Ino -> nat, temps: multiset<Ino>, stale: set<Ino>, stale': set<Ino>)
    requires Inv(a, realmOf, rank, temps, stale) && OnlyCaches(a, b)
    requires UpClosed(a, a.Keys - stale')
    requires forall i | i in a && i !in stale' ::
               b[i].cached.seqno == 0 || (b[i].cached == a[i].cached && i !in stale) || b[i].cached == ContextOf(a, rank, i)
    ensures Inv(b, realmOf, rank, temps, stale')
  {
    ForestCaches(a, b, rank);
    CountedCaches(a, b, temps);
    forall i | i in b ensures b[i].inodes == Members(realmOf, i) { assert a[i].inodes == Members(realmOf, i); }
    forall i | i in b.Keys - stale' ensures ParentIn(b, b.Keys - stale', i) {
      assert ParentIn(a, a.Keys - stale', i);
    }
    forall i | i in b && i !in stale' ensures CacheOk(b, rank, i) {
      ContextCaches(a, b, rank, i);
      if i !in stale { assert CacheOk(a, rank, i); }
    }
  }

  /** The parts a context is assembled from. */
  lemma ContextParts(realms: Realms, rank: Ino -> nat, i: Ino, snaps: set<SnapId>, maxSeq: SnapId)
    requires Forest(realms, rank) && i in realms
    requires realms[i].pparent.None? ==> snaps == OwnSnaps(realms, i) && maxSeq == realms[i].seqno
    requires NodeOk(realms, rank, i)
    requires realms[i].pparent.Some? ==>
               var pc := ContextOf(realms, rank, realms[i].pparent.value);
               && snaps == OwnSnaps(realms, i) + (set x | x in pc.snaps && x >= realms[i].parentSince)
               && maxSeq == if pc.seqno > realms[i].seqno then pc.seqno else realms[i].seqno
    ensures ContextOf(realms, rank, i) == SnapContext(maxSeq, Descending(snaps))
  {
  }

  lemma BuildDone(was: Realms, mid: Realms, realmOf: map<Ino, Ino>, rank: Ino -> nat, temps: multiset<Ino>, stale: set<Ino>, i: Ino, c: SnapContext)
    requires Forest(was, rank) && i in was && OnlyCaches(was, mid) && Inv(mid, realmOf, rank, temps, stale)
    requires i !in stale ==> c == ContextOf(was, rank, i)
    ensures OnlyCaches(was, mid[i := mid[i].(cached := c)])
    ensures Inv(mid[i := mid[i].(cached := c)], realmOf, rank, temps, stale)
  {
    var b := mid[i := mid[i].(cached := c)];
    ContextCaches(was, mid, rank, i);
    CacheKeeps(mid, b, realmOf, rank, temps, stale, stale);
    OnlyCachesTrans(was, mid, b);
  }

  lemma TrustAncestors(realms: Realms, rank: Ino -> nat, stale: set<Ino>, i: Ino)
    requires Forest(realms, rank) && CachesOk(realms, rank, stale) && i in realms && realms[i].pparent.Some?
    ensures i !in stale ==> realms[i].pparent.value !in stale
  {
    if i !in stale { assert ParentIn(realms, realms.Keys - stale, i); }
  }

  /** With r's parent trusted and r's subtree cleared, the subtree can be trusted again. */
  lemma ClearedUpClosed(realms: Realms, rank: Ino -> nat, stale: set<Ino>, r: Ino)
    requires Forest(realms, rank) && UpClosed(realms, realms.Keys - stale) && r in realms
    requires realms[r].pparent.Some? ==> realms[r].pparent.value !in stale
    ensures UpClosed(realms, realms.Keys - (stale - Subtree(realms, rank, r)))
  {
    var S := realms.Keys - (stale - Subtree(realms, rank, r));
    forall i | i in S ensures ParentIn(realms, S, i) {
      assert NodeOk(realms, rank, i);
      if i !in stale { assert ParentIn(realms, realms.Keys - stale, i); }
    }
  }

  lemma ClearedStep(a: Realms, V: set<Ino>, x: Ino)
    requires x in a && x !in V
    ensures Cleared(a, V)[x := Cleared(a, V)[x].(cached := NO_CONTEXT)] == Cleared(a, V + {x})
    ensures Cleared(a, V)[x].pchildren == a[x].pchildren
  {
  }

  lemma InvalidateDone(a: Realms, realmOf: map<Ino, Ino>, rank: Ino -> nat, temps: multiset<Ino>, stale: set<Ino>, r: Ino, V: set<Ino>)
    requires Inv(a, realmOf, rank, temps, stale) && r in a && Walking(a, rank, r, V, {})
    requires a[r].pparent.Some? ==> a[r].pparent.value !in stale
    ensures V == Subtree(a, rank, r) && Inv(Cleared(a, V), realmOf, rank, temps, stale - V)
  {
    WalkDone(a, rank, r, V);
    ClearedUpClosed(a, rank, stale, r);
    CacheKeeps(a, Cleared(a, V), realmOf, rank, temps, stale, stale - V);
  }

  /** With a parent that cannot be trusted either, clearing r's subtree does no harm. */
  lemma InvalidateUntrusted(a: Realms, realmOf: map<Ino, Ino>, rank: Ino -> nat, temps: multiset<Ino>, stale: set<Ino>, r: Ino, V: set<Ino>)
    requires Inv(a, realmOf, rank, temps, stale) && r in a && Walking(a, rank, r, V, {})
    ensures V == Subtree(a, rank, r) && Inv(Cleared(a, V), realmOf, rank, temps, stale)
  {
    WalkDone(a, rank, r, V);
    CacheKeeps(a, Cleared(a, V), realmOf, rank, temps, stale, stale);
  }

  /** Realm r has no parent whose cache may be out of date. */
  predicate TrustedAbove(realms: Realms, stale: set<Ino>, r: Ino)
    requires r in realms
  {
    realms[r].pparent.Some? ==> realms[r].pparent.value !in stale
  }

  lemma OnlyCachesTrans(a: Realms, b: Realms, c: Realms)
    requires OnlyCaches(a, b) && OnlyCaches(b, c)
    ensures OnlyCaches(a, c)
  {
    forall i | i in a ensures c[i] == a[i].(cached := c[i].cached) { assert b[i] == a[i].(cached := b[i].cached); }
  }

  // ---------------------------------------------------------------- applying a trace record

  /** The snapshot fields of a trace record, stored in a realm. */
  function Refreshed(r: Realm, info: RealmInfo): Realm {
    r.(seqno := info.seqno, created := info.created, parentSince := info.parentSince,
       priorParentSnaps := info.priorParentSnaps, mySnaps := info.mySnaps)
  }

  function Moved(r: Realm, p: Ino): Realm {
    if r.parent != p then r.(parent := p, pparent := Some(p)) else r
  }

  /** What a trace record makes of a realm. */
  function Revised(r: Realm, info: RealmInfo): Realm {
    if info.seqno > r.seqno then Refreshed(Moved(r, info.parent), info) else Moved(r, info.parent)
  }

  /** The record is newer than the realm or moves it. */
  predicate Changes(r: Realm, info: RealmInfo) {
    info.seqno > r.seqno || r.parent != info.parent
  }

  /** Whatever is out of date lies below r. */
  ghost predicate StaleBelow(realms: Realms, rank: Ino -> nat, stale: set<Ino>, r: Ino)
    requires Forest(realms, rank)
  {
    forall i | i in realms && i in stale :: Under(realms, rank, i, r)
  }

  /** A record after which no cache is out of date: none is, or all that are lie below the realm and
      the record changes it. */
  ghost predicate Repairs(realms: Realms, rank: Ino -> nat, stale: set<Ino>, info: RealmInfo)
    requires Forest(realms, rank)
  {
    || realms.Keys !! stale
    || (StaleBelow(realms, rank, stale, info.ino) && info.ino in realms && Changes(realms[info.ino], info))
  }

  lemma RepairsRecounted(a: Realms, sa: set<Ino>, g: Realms, sg: set<Ino>, h: Realms, rank: Ino -> nat, info: RealmInfo)
    requires Forest(a, rank) && Forest(g, rank) && Forest(h, rank) && Repairs(a, rank, sa, info)
    requires Recounted(a, g, info.ino) && sg == sa - (g.Keys - a.Keys) && OnlyCaches(g, h)
    ensures Repairs(h, rank, sg, info)
  {
    if !(a.Keys !! sa) {
      StaleBelowRecounted(a, sa, g, sg, rank, info.ino, info.ino);
      StaleBelowCaches(g, h, rank, sg, info.ino);
      assert h[info.ino] == g[info.ino].(cached := h[info.ino].cached);
    }
  }

  /** Only the snapshot fields of realm r differ. */
  ghost predicate Rewritten(a: Realms, b: Realms, r: Ino) {
    && a.Keys == b.Keys && r in a
    && (forall i | i in a && i != r :: b[i] == a[i])
    && b[r] == a[r].(seqno := b[r].seqno, created := b[r].created, parentSince := b[r].parentSince,
                     priorParentSnaps := b[r].priorParentSnaps, mySnaps := b[r].mySnaps)
  }

  lemma RewriteForest(a: Realms, b: Realms, rank: Ino -> nat, r: Ino)
    requires Forest(a, rank) && Rewritten(a, b, r)
    ensures Forest(b, rank) && Edges(b) == Edges(a)
  {
    forall i | i in b ensures NodeOk(b, rank, i) && b[i].pparent == a[i].pparent {
      assert NodeOk(a, rank, i);
      assert b[i].pparent == a[i].pparent && b[i].pchildren == a[i].pchildren && b[i].parent == a[i].parent;
    }
    EdgesByParents(a, b);
  }

  lemma EdgesByParents(a: Realms, b: Realms)
    requires a.Keys == b.Keys && forall i | i in b :: b[i].pparent == a[i].pparent
    ensures Edges(b) == Edges(a)
  {
  }

  lemma RewriteSubtree(a: Realms, b: Realms, rank: Ino -> nat, r: Ino)
    requires Forest(a, rank) && Forest(b, rank) && Rewritten(a, b, r)
    ensures Subtree(b, rank, r) == Subtree(a, rank, r)
  {
    forall i | i in a ensures Under(a, rank, i, r) <==> Under(b, rank, i, r) {
      if Under(a, rank, i, r) { UnderKept(a, rank, b, rank, i, r); }
      if Under(b, rank, i, r) { UnderKept(b, rank, a, rank, i, r); }
    }
  }

  lemma RewriteCaches(a: Realms, b: Realms, rank: Ino -> nat, stale: set<Ino>, r: Ino)
    requires Forest(a, rank) && Forest(b, rank) && Rewritten(a, b, r) && CachesOk(a, rank, stale)
    ensures CachesOk(b, rank, stale + Subtree(a, rank, r))
  {
    var stale' := stale + Subtree(a, rank, r);
    SubtreeComplement(a, rank, stale, r);
    var S := b.Keys - stale';
    forall i | i in S ensures ParentIn(b, S, i) && Carried(a, b, stale, i) {
      assert i != r && ParentIn(a, S, i);
    }
    CachesFrame(a, rank, stale, b, rank, stale');
  }

  /** Rewriting the fields of realm r affects the contexts of its subtree only. */
  lemma RewriteKeeps(a: Realms, b: Realms, realmOf: map<Ino, Ino>, rank: Ino -> nat, temps: multiset<Ino>, stale: set<Ino>, r: Ino)
    requires Inv(a, realmOf, rank, temps, stale) && Rewritten(a, b, r)
    ensures Inv(b, realmOf, rank, temps, stale + Subtree(a, rank, r))
    ensures Subtree(b, rank, r) == Subtree(a, rank, r) && Edges(b) == Edges(a)
  {
    RewriteForest(a, b, rank, r);
    RewriteSubtree(a, b, rank, r);
    RewriteCaches(a, b, rank, stale, r);
    forall i | i in b ensures CountOk(b, temps, i) && b[i].inodes == Members(realmOf, i) {
      assert CountOk(a, temps, i) && a[i].inodes == Members(realmOf, i);
    }
  }

  /** `follows` gives every realm of V that lists inodes the sequence number of its context. */
  ghost predicate FollowsOk(realms: Realms, rank: Ino -> nat, stale: set<Ino>, V: set<Ino>, follows: map<Ino, SnapId>)
    requires Forest(realms, rank) && V <= realms.Keys
  {
    && (follows.Keys == set x | x in V && realms[x].inodes != {})
    && forall x | x in follows && x !in stale :: follows[x] == ContextOf(realms, rank, x).seqno
  }

  lemma ParentNotStale(realms: Realms, rank: Ino -> nat, stale: set<Ino>, r: Ino)
    requires Forest(realms, rank) && StaleBelow(realms, rank, stale, r) && r in realms && realms[r].pparent.Some?
    ensures realms[r].pparent.value !in stale
  {
    assert NodeOk(realms, rank, r);
    if realms[r].pparent.value in stale { UnderRank(realms, rank, realms[r].pparent.value, r); }
  }

  lemma StaleBelowMoved(a: Realms, ra: Ino -> nat, sa: set<Ino>, b: Realms, rb: Ino -> nat, sb: set<Ino>, r: Ino)
    requires Forest(a, ra) && Forest(b, rb) && StaleBelow(a, ra, sa, r) && StaleMoved(a, ra, sa, b, rb, sb, r)
    ensures StaleBelow(b, rb, sb, r)
  {
    forall i | i in b && i in sb ensures Under(b, rb, i, r) {
      if i in a && i in sa && KeepsAbove(a, ra, b, rb, i) { assert Under(a, ra, i, r); }
    }
  }

  /** Storing newer fields in realm r changes nothing else. */
  lemma RefreshEvolved(a: Realms, b: Realms, c: Realms, info: RealmInfo)
    requires info.ino in a && info.ino in b && Evolved(a, b, info.ino)
    requires SameInfo(Moved(a[info.ino], info.parent), b[info.ino])
    requires c == if info.seqno > b[info.ino].seqno then b[info.ino := Refreshed(b[info.ino], info)] else b
    ensures info.ino in c && SameInfo(Revised(a[info.ino], info), c[info.ino]) && Evolved(a, c, info.ino)
    ensures Edges(c) == Edges(b)
  {
  }

  lemma CachesEvolved(a: Realms, c: Realms, d: Realms, r: Ino, x: Realm)
    requires r in c && Evolved(a, c, r) && SameInfo(x, c[r]) && OnlyCaches(c, d)
    ensures Evolved(a, d, r) && SameInfo(x, d[r]) && Edges(d) == Edges(c)
  {
    forall i | i in d && i != r ensures SameInfo(FreshRealm(), d[i]) || (i in a && SameInfo(a[i], d[i])) {
      assert d[i] == c[i].(cached := d[i].cached);
    }
  }

  lemma StaleBelowRewritten(b: Realms, sb: set<Ino>, c: Realms, sc: set<Ino>, rank: Ino -> nat, r: Ino)
    requires Forest(b, rank) && Forest(c, rank) && b.Keys == c.Keys && Subtree(b, rank, r) == Subtree(c, rank, r)
    requires StaleBelow(b, rank, sb, r) && sc <= sb + Subtree(b, rank, r)
    ensures StaleBelow(c, rank, sc, r)
  {
    forall i | i in c && i in sc ensures Under(c, rank, i, r) {
      assert i in Subtree(b, rank, r);
    }
  }

  lemma ClearedOnlyCaches(a: Realms, S: set<Ino>)
    ensures OnlyCaches(a, Cleared(a, S)) && OnlyCaches(a, a)
  {
  }

  lemma StaleBelowRecounted(a: Realms, sa: set<Ino>, b: Realms, sb: set<Ino>, rank: Ino -> nat, r: Ino, x: Ino)
    requires Forest(a, rank) && Forest(b, rank) && Recounted(a, b, x) && StaleBelow(a, rank, sa, r)
    requires sb == sa - (b.Keys - a.Keys)
    ensures StaleBelow(b, rank, sb, r)
  {
    forall i | i in b && i in sb ensures Under(b, rank, i, r) { UnderKept(a, rank, b, rank, i, r); }
  }

  lemma StaleBelowReleased(a: Realms, b: Realms, rank: Ino -> nat, stale: set<Ino>, r: Ino)
    requires Forest(a, rank) && Forest(b, rank) && Released(a, b) && StaleBelow(a, rank, stale, r)
    ensures StaleBelow(b, rank, stale, r)
  {
    forall i | i in b && i in stale ensures Under(b, rank, i, r) { UnderKept(a, rank, b, rank, i, r); }
  }

  lemma StaleBelowCaches(a: Realms, b: Realms, rank: Ino -> nat, stale: set<Ino>, r: Ino)
    requires Forest(a, rank) && Forest(b, rank) && OnlyCaches(a, b) && StaleBelow(a, rank, stale, r)
    ensures StaleBelow(b, rank, stale, r)
  {
    SubtreeCaches(a, b, rank, r);
    StaleBelowRewritten(a, stale, b, stale, rank, r);
  }

  lemma EvolvedReleased(a: Realms, d: Realms, e: Realms, r: Ino)
    requires Evolved(a, d, r) && Released(d, e)
    ensures Evolved(a, e, r) && Within(Edges(e), Edges(d))
    ensures r in e ==> SameInfo(d[r], e[r])
  {
    forall i | i in e && i != r ensures SameInfo(FreshRealm(), e[i]) || (i in a && SameInfo(a[i], e[i])) {
      assert SameInfo(d[i], e[i]);
    }
  }

  lemma EvolvedFrom(a: Realms, g: Realms, b: Realms, r: Ino)
    requires Recounted(a, g, r) && Evolved(g, b, r)
    ensures Evolved(a, b, r) && Edges(g) == Edges(a)
  {
    forall i | i in b && i != r ensures SameInfo(FreshRealm(), b[i]) || (i in a && SameInfo(a[i], b[i])) {
      if i in g { assert g[i] == a[i]; }
    }
  }

  lemma EvolvedCaches(g: Realms, h: Realms, b: Realms, r: Ino)
    requires r in g && OnlyCaches(g, h) && Evolved(h, b, r)
    ensures Evolved(g, b, r) && Edges(h) == Edges(g)
  {
    forall i | i in b && i != r ensures SameInfo(FreshRealm(), b[i]) || (i in g && SameInfo(g[i], b[i])) {
      if i in h { assert h[i] == g[i].(cached := h[i].cached); }
    }
  }

  lemma RevisedSame(x: Realm, y: Realm, info: RealmInfo, z: Realm)
    requires SameInfo(x, y) && SameInfo(Revised(y, info), z)
    ensures SameInfo(Revised(x, info), z)
  {
  }

  /** From the state before a record (a), through lookup (g) and flushing (h), to the state after (b). */
  lemma RecordDone(a: Realms, g: Realms, h: Realms, b: Realms, info: RealmInfo)
    requires Recounted(a, g, info.ino) && OnlyCaches(g, h) && Evolved(h, b, info.ino)
    requires info.ino in b ==> SameInfo(Revised(h[info.ino], info), b[info.ino])
    ensures Edges(h) == Edges(a) && Evolved(a, b, info.ino)
    ensures info.ino in b ==> SameInfo(Revised(Entry(a, info.ino), info), b[info.ino])
  {
    EvolvedCaches(g, h, b, info.ino);
    EvolvedFrom(a, g, b, info.ino);
    if info.ino in b {
      assert h[info.ino] == g[info.ino].(cached := h[info.ino].cached);
      RevisedSame(Entry(a, info.ino), h[info.ino], info, b[info.ino]);
    }
  }

  // ---------------------------------------------------------------- applying a whole trace

  /** What the records from j up to k make of realm i, if it is r before them. */
  function RevisedBy(r: Realm, i: Ino, trace: seq<RealmInfo>, j: nat, k: nat): Realm
    requires j <= k <= |trace|
    decreases k - j
  {
    if j == k then r else
      var x := RevisedBy(r, i, trace, j, k - 1);
      if trace[k - 1].ino == i then Revised(x, trace[k - 1]) else x
  }

  ghost predicate DerivesFrom(a: Realms, i: Ino, trace: seq<RealmInfo>, j: nat, k: nat, x: Realm)
    requires j <= k <= |trace|
  {
    SameInfo(RevisedBy(if j == 0 then Entry(a, i) else FreshRealm(), i, trace, j, k), x)
  }

  /** After the first k records, realm i is what they make of it, or, if it was freed on the way,
      what those after that make of a fresh realm. */
  ghost predicate Derives(a: Realms, i: Ino, trace: seq<RealmInfo>, k: nat, x: Realm)
    requires k <= |trace|
  {
    exists j: nat {:trigger DerivesFrom(a, i, trace, j, k, x)} :: j <= k && DerivesFrom(a, i, trace, j, k, x)
  }

  lemma DerivesStart(a: Realms, i: Ino, trace: seq<RealmInfo>)
    requires i in a
    ensures Derives(a, i, trace, 0, a[i])
  {
    assert DerivesFrom(a, i, trace, 0, 0, a[i]);
  }

  lemma RevisedAgain(x: Realm, y: Realm, z: Realm, info: RealmInfo)
    requires SameInfo(x, y) && SameInfo(Revised(y, info), z)
    ensures SameInfo(Revised(x, info), z)
  {
  }

  /** One more record, which turns table b into c. */
  lemma DerivesStep(a: Realms, i: Ino, trace: seq<RealmInfo>, k: nat, b: Realms, c: Realms)
    requires k < |trace| && i in c && (i in b ==> Derives(a, i, trace, k, b[i])) && (k == 0 ==> a == b)
    requires Evolved(b, c, trace[k].ino)
    requires trace[k].ino in c ==> SameInfo(Revised(Entry(b, trace[k].ino), trace[k]), c[trace[k].ino])
    ensures Derives(a, i, trace, k + 1, c[i])
  {
    var mine := trace[k].ino == i;
    if i in b && (mine || SameInfo(b[i], c[i])) {
      var j: nat :| j <= k && DerivesFrom(a, i, trace, j, k, b[i]);
      var x := RevisedBy(if j == 0 then Entry(a, i) else FreshRealm(), i, trace, j, k);
      if mine { RevisedAgain(x, b[i], c[i], trace[k]); }
      assert DerivesFrom(a, i, trace, j, k + 1, c[i]);
    } else if mine {
      assert RevisedBy(FreshRealm(), i, trace, k, k) == FreshRealm();
      assert DerivesFrom(a, i, trace, k, k + 1, c[i]);
    } else {
      assert DerivesFrom(a, i, trace, k + 1, k + 1, c[i]);
    }
  }

  ghost predicate QueuedIn(a: Realms, stale: set<Ino>, r: Ino, g: Realms, rank: Ino -> nat, follows: map<Ino, SnapId>) {
    Recounted(a, g, r) && Forest(g, rank) && FollowsOk(g, rank, stale, Subtree(g, rank, r), follows)
  }

  /** A record that is newer than its realm queues, if asked to, a cap snap for the inodes of every realm
      from its own downwards, under the context that realm had before the record. */
  ghost predicate Queued(a: Realms, stale: set<Ino>, info: RealmInfo, flush: bool, follows: map<Ino, SnapId>) {
    if flush && info.seqno > Entry(a, info.ino).seqno
    then exists g, rank :: QueuedIn(a, stale, info.ino, g, rank, follows) else follows == map[]
  }

  lemma QueuedFrom(a: Realms, sa: set<Ino>, g: Realms, rank: Ino -> nat, sg: set<Ino>, info: RealmInfo, flush: bool, follows: map<Ino, SnapId>)
    requires Recounted(a, g, info.ino) && Forest(g, rank) && sg == if info.ino in a then sa else sa - {info.ino}
    requires if flush && info.seqno > Entry(a, info.ino).seqno
             then FollowsOk(g, rank, sg, Subtree(g, rank, info.ino), follows) else follows == map[]
    ensures Queued(a, sa * a.Keys, info, flush, follows)
  {
    if flush && info.seqno > Entry(a, info.ino).seqno { assert QueuedIn(a, sa * a.Keys, info.ino, g, rank, follows); }
  }

  /** After k records: every realm is what they make of it, and each of them has queued its cap snaps. */
  ghost predicate Traced(a: Realms, trace: seq<RealmInfo>, k: nat, b: Realms, flush: bool,
                         follows: seq<map<Ino, SnapId>>, states: seq<Realms>, trusted: bool) {
    && k <= |trace| && |follows| == |states| == k && (if k == 0 then b == a else states[0] == a)
    && (forall i | i in b :: Derives(a, i, trace, k, b[i]))
    && (trusted ==> forall n | 0 <= n < k :: Queued(states[n], {}, trace[n], flush, follows[n]))
  }

  lemma TracedStart(a: Realms, trace: seq<RealmInfo>, flush: bool, trusted: bool)
    ensures Traced(a, trace, 0, a, flush, [], [], trusted)
  {
    forall i | i in a ensures Derives(a, i, trace, 0, a[i]) { DerivesStart(a, i, trace); }
  }

  lemma TracedStep(a: Realms, trace: seq<RealmInfo>, k: nat, b: Realms, stale: set<Ino>, c: Realms, flush: bool,
                   follows: seq<map<Ino, SnapId>>, states: seq<Realms>, trusted: bool, f: map<Ino, SnapId>)
    requires Traced(a, trace, k, b, flush, follows, states, trusted) && k < |trace|
    requires Evolved(b, c, trace[k].ino)
    requires trace[k].ino in c ==> SameInfo(Revised(Entry(b, trace[k].ino), trace[k]), c[trace[k].ino])
    requires Queued(b, stale * b.Keys, trace[k], flush, f) && (trusted ==> b.Keys !! stale)
    ensures Traced(a, trace, k + 1, c, flush, follows + [f], states + [b], trusted)
  {
    forall i | i in c ensures Derives(a, i, trace, k + 1, c[i]) { DerivesStep(a, i, trace, k, b, c); }
    assert trusted ==> stale * b.Keys == {};
  }

  /** The first record that names a realm. */
  function FirstRealm(trace: seq<RealmInfo>): Ino {
    if trace == [] then 0 else if trace[0].ino != 0 then trace[0].ino else FirstRealm(trace[1..])
  }

  lemma {:induction false} FirstSnoc(trace: seq<RealmInfo>, info: RealmInfo)
    ensures FirstRealm(trace + [info]) == if FirstRealm(trace) == 0 then info.ino else FirstRealm(trace)
  {
    if trace == [] {
      assert trace + [info] == [info] && [info][1..] == [];
    } else {
      assert (trace + [info])[1..] == trace[1..] + [info];
      FirstSnoc(trace[1..], info);
    }
  }

  lemma WithinTrans(a: map<Ino, Ino>, b: map<Ino, Ino>, c: map<Ino, Ino>)
    requires Within(a, b) && Within(b, c)
    ensures Within(a, c)
  {
  }

  lemma WithinMove(a: map<Ino, Ino>, b: map<Ino, Ino>, r: Ino, p: Ino)
    requires Within(a, b)
    ensures Within(a[r := p], b[r := p])
  {
  }

  lemma {:induction false} SafeMovesWithin(edges: map<Ino, Ino>, bound: map<Ino, Ino>, moves: seq<(Ino, Ino)>)
    requires SafeMoves(bound, moves) && Within(edges, bound)
    ensures SafeMoves(edges, moves)
    decreases |moves|
  {
    var rank: Ino -> nat :| Ranks(bound, rank);
    RanksWithin(edges, bound, rank);
    if moves != [] {
      WithinMove(edges, bound, moves[0].0, moves[0].1);
      SafeMovesWithin(edges[moves[0].0 := moves[0].1], bound[moves[0].0 := moves[0].1], moves[1..]);
    }
  }

  /** The moves that put each of the given realms under r. */
  function ChildMoves(children: seq<Ino>, r: Ino): (m: seq<(Ino, Ino)>)
    ensures |m| == |children| && forall k | 0 <= k < |m| :: m[k] == (children[k], r)
  {
    seq(|children|, k requires 0 <= k < |children| => (children[k], r))
  }

  /** What is stale after child c was put under r lies below r, if that was so before. */
  lemma ChildStale(a: Realms, ra: Ino -> nat, sa: set<Ino>, b: Realms, rb: Ino -> nat, sb: set<Ino>, c: Ino, r: Ino)
    requires Forest(a, ra) && Forest(b, rb) && StaleBelow(a, ra, sa, r) && StaleMoved(a, ra, sa, b, rb, sb, c)
    requires c in b && b[c].pparent == Some(r)
    ensures StaleBelow(b, rb, sb, r)
  {
    assert NodeOk(b, rb, c);
    assert Under(b, rb, c, r);
    forall i | i in b && i in sb ensures Under(b, rb, i, r) {
      if Under(b, rb, i, c) { UnderTrans(b, rb, i, c, r); }
      else if i in a && i in sa && KeepsAbove(a, ra, b, rb, i) { assert Under(a, ra, i, r); }
    }
  }

  // ---------------------------------------------------------------- inodes with caps

  lemma RelistCore(a: Realms, b: Realms, rank: Ino -> nat, stale: set<Ino>, j: Ino, inodes: set<Ino>)
    requires Forest(a, rank) && CachesOk(a, rank, stale)
    requires j in a && j in b && b == a[j := a[j].(inodes := inodes, nref := b[j].nref)]
    ensures Forest(b, rank) && CachesOk(b, rank, stale)
  {
    forall i | i in b ensures NodeOk(b, rank, i) { assert NodeOk(a, rank, i); }
    var S := b.Keys - stale;
    forall i | i in S ensures ParentIn(b, S, i) && Carried(a, b, stale, i) { assert ParentIn(a, a.Keys - stale, i); }
    CachesFrame(a, rank, stale, b, rank, stale);
  }

  lemma MembersAdd(realmOf: map<Ino, Ino>, n: Ino, j: Ino, i: Ino)
    requires n !in realmOf
    ensures Members(realmOf[n := j], i) == if i == j then Members(realmOf, i) + {n} else Members(realmOf, i)
    ensures n !in Members(realmOf, i)
  {
  }

  /** A reference held by code in progress becomes the reference of inode n. */
  lemma ListInode(a: Realms, realmOf: map<Ino, Ino>, rank: Ino -> nat, temps: multiset<Ino>, temps': multiset<Ino>, stale: set<Ino>, n: Ino, j: Ino)
    requires Inv(a, realmOf, rank, temps, stale) && n !in realmOf && j in temps && temps' == temps - multiset{j}
    ensures Inv(a[j := a[j].(inodes := a[j].inodes + {n})], realmOf[n := j], rank, temps', stale)
  {
    var b := a[j := a[j].(inodes := a[j].inodes + {n})];
    RelistCore(a, b, rank, stale, j, a[j].inodes + {n});
    forall i | i in b ensures CountOk(b, temps', i) && b[i].inodes == Members(realmOf[n := j], i) {
      MembersAdd(realmOf, n, j, i);
      assert CountOk(a, temps, i) && a[i].inodes == Members(realmOf, i);
    }
  }

  /** Inode n joins the list of a realm that is in use anyway. */
  lemma ListNewInode(a: Realms, realmOf: map<Ino, Ino>, rank: Ino -> nat, temps: multiset<Ino>, stale: set<Ino>, n: Ino, j: Ino)
    requires Inv(a, realmOf, rank, temps, stale) && n !in realmOf && j in a
    ensures Inv(a[j := a[j].(inodes := a[j].inodes + {n}, nref := a[j].nref + 1)], realmOf[n := j], rank, temps, stale)
  {
    var b := a[j := a[j].(inodes := a[j].inodes + {n}, nref := a[j].nref + 1)];
    RelistCore(a, b, rank, stale, j, a[j].inodes + {n});
    forall i | i in b ensures CountOk(b, temps, i) && b[i].inodes == Members(realmOf[n := j], i) {
      MembersAdd(realmOf, n, j, i);
      assert CountOk(a, temps, i) && a[i].inodes == Members(realmOf, i);
    }
  }

  /** The reference of inode n becomes one held by code in progress. */
  lemma UnlistInode(a: Realms, realmOf: map<Ino, Ino>, rank: Ino -> nat, temps: multiset<Ino>, stale: set<Ino>, n: Ino)
    requires Inv(a, realmOf, rank, temps, stale) && n in realmOf
    ensures var j := realmOf[n];
            Inv(a[j := a[j].(inodes := a[j].inodes - {n})], realmOf - {n}, rank, temps + multiset{j}, stale)
  {
    var j := realmOf[n];
    var b := a[j := a[j].(inodes := a[j].inodes - {n})];
    RelistCore(a, b, rank, stale, j, a[j].inodes - {n});
    assert n in Members(realmOf, j) && a[j].inodes == Members(realmOf, j);
    forall i | i in b ensures CountOk(b, temps + multiset{j}, i) && b[i].inodes == Members(realmOf - {n}, i) {
      assert CountOk(a, temps, i) && a[i].inodes == Members(realmOf, i);
    }
  }

  /** The listed inodes a split takes from their realms: not already there, and not in a newer realm. */
  ghost function Taken(realms: Realms, realmOf: map<Ino, Ino>, info: RealmInfo, inos: seq<Ino>): set<Ino>
    requires forall n | n in realmOf :: realmOf[n] in realms
  {
    set n | n in inos && n in realmOf && realmOf[n] != info.ino && realms[realmOf[n]].created <= info.created
  }

  /** The listed inodes now belong to realm r. */
  ghost function Given(realmOf: map<Ino, Ino>, moved: seq<Ino>, r: Ino): map<Ino, Ino> {
    map n | n in realmOf.Keys + Elems(moved) :: if n in Elems(moved) then r else realmOf[n]
  }

  lemma GivenSnoc(realmOf: map<Ino, Ino>, moved: seq<Ino>, n: Ino, r: Ino)
    ensures Given(realmOf, moved + [n], r) == Given(realmOf, moved, r)[n := r]
  {
    ElemsSnoc(moved, n);
  }

  lemma GivenBack(realmOf: map<Ino, Ino>, moved: seq<Ino>, r: Ino)
    requires Elems(moved) <= realmOf.Keys
    ensures Given(realmOf - Elems(moved), moved, r)
         == map n | n in realmOf :: if n in Elems(moved) then r else realmOf[n]
  {
  }

  lemma TakenRecounted(a: Realms, g: Realms, realmOf: map<Ino, Ino>, info: RealmInfo, inos: seq<Ino>)
    requires Placed(a, realmOf) && Recounted(a, g, info.ino)
    ensures Taken(g, realmOf, info, inos) == Taken(a, realmOf, info, inos)
  {
  }

  /** Some realms of a are gone; the others keep their snapshot fields and parents. */
  ghost predicate Shrunk(a: Realms, b: Realms) {
    b.Keys <= a.Keys && forall i {:trigger SameInfo(a[i], b[i])} | i in b :: SameInfo(a[i], b[i])
  }

  lemma ShrunkSame(a: Realms)
    ensures Shrunk(a, a)
  {
  }

  lemma ShrunkCaches(a: Realms, b: Realms)
    requires OnlyCaches(a, b)
    ensures Shrunk(a, b)
  {
    forall i | i in b ensures SameInfo(a[i], b[i]) { assert b[i] == a[i].(cached := b[i].cached); }
  }

  lemma ShrunkReleased(a: Realms, b: Realms)
    requires Released(a, b)
    ensures Shrunk(a, b)
  {
    forall i | i in b ensures SameInfo(a[i], b[i]) {}
  }

  lemma ShrunkTrans(a: Realms, b: Realms, c: Realms)
    requires Shrunk(a, b) && Shrunk(b, c)
    ensures Shrunk(a, c)
  {
    forall i | i in c ensures SameInfo(a[i], c[i]) { assert SameInfo(a[i], b[i]) && SameInfo(b[i], c[i]); }
  }

  lemma ShrunkBoth(a: Realms, g: Realms, b: Realms, r: Ino)
    requires r in a && Recounted(a, g, r) && Shrunk(g, b)
    ensures Shrunk(a, b)
  {
    forall i | i in b ensures SameInfo(a[i], b[i]) { assert SameInfo(g[i], b[i]); }
  }

  lemma ShrunkContext(a: Realms, b: Realms, rank: Ino -> nat, i: Ino)
    requires Forest(a, rank) && Forest(b, rank) && Shrunk(a, b) && i in b
    ensures ContextOf(b, rank, i) == ContextOf(a, rank, i)
  {
    forall j | j in b.Keys ensures ParentIn(b, b.Keys, j) && SameCore(b[j], a[j]) {
      assert NodeOk(b, rank, j) && SameInfo(a[j], b[j]);
    }
    ContextFrame(b, rank, a, rank, b.Keys, i);
  }

  lemma RecountContext(a: Realms, g: Realms, rank: Ino -> nat, r: Ino, i: Ino)
    requires Forest(a, rank) && Forest(g, rank) && Recounted(a, g, r) && i in a
    ensures ContextOf(g, rank, i) == ContextOf(a, rank, i)
  {
    forall j | j in a.Keys ensures ParentIn(a, a.Keys, j) && SameCore(a[j], g[j]) { assert NodeOk(a, rank, j); }
    ContextFrame(a, rank, g, rank, a.Keys, i);
  }

  /** Each inode that moves is queued with the sequence number of the context that its realm had. */
  ghost predicate MovedFollows(a: Realms, rank: Ino -> nat, realmOf: map<Ino, Ino>, follows: map<Ino, SnapId>)
    requires Forest(a, rank)
  {
    forall n {:trigger follows[n]} | n in follows ::
      n in realmOf && realmOf[n] in a && follows[n] == ContextOf(a, rank, realmOf[n]).seqno
  }

  lemma MovedRecounted(a: Realms, g: Realms, rank: Ino -> nat, r: Ino, realmOf: map<Ino, Ino>, follows: map<Ino, SnapId>)
    requires Forest(a, rank) && Forest(g, rank) && Recounted(a, g, r) && Placed(a, realmOf) && MovedFollows(g, rank, realmOf, follows)
    ensures MovedFollows(a, rank, realmOf, follows)
  {
    forall n {:trigger follows[n]} | n in follows
      ensures n in realmOf && realmOf[n] in a && follows[n] == ContextOf(a, rank, realmOf[n]).seqno
    {
      RecountContext(a, g, rank, r, realmOf[n]);
    }
  }

  lemma TakenSnoc(realms: Realms, realmOf: map<Ino, Ino>, info: RealmInfo, inos: seq<Ino>, n: Ino)
    requires forall m | m in realmOf :: realmOf[m] in realms
    ensures Taken(realms, realmOf, info, inos + [n]) == Taken(realms, realmOf, info, inos) +
              if n in realmOf && realmOf[n] != info.ino && realms[realmOf[n]].created <= info.created then {n} else {}
  {
  }

  /** No listed child is in the table under another parent than r. */
  predicate NoneMoves(realms: Realms, children: seq<Ino>, r: Ino) {
    forall c | c in children && c in realms :: realms[c].parent == r
  }

  lemma NoneMovesShrunk(a: Realms, b: Realms, children: seq<Ino>, r: Ino)
    requires NoneMoves(a, children, r) && Shrunk(a, b)
    ensures NoneMoves(b, children, r)
  {
    forall c | c in children && c in b ensures b[c].parent == r { assert SameInfo(a[c], b[c]); }
  }

  lemma NoneMovesRecounted(a: Realms, g: Realms, h: Realms, children: seq<Ino>, r: Ino)
    requires Recounted(a, g, r) && r !in children && Shrunk(g, h)
    ensures NoneMoves(a, children, r) ==> NoneMoves(h, children, r)
  {
    if NoneMoves(a, children, r) {
      forall c | c in children && c in h ensures h[c].parent == r { assert SameInfo(g[c], h[c]); }
    }
  }

  /** A realm cannot be put under itself. */
  lemma {:induction false} NotOwnChild(edges: map<Ino, Ino>, children: seq<Ino>, r: Ino, after: seq<(Ino, Ino)>)
    requires SafeMoves(edges, ChildMoves(children, r) + after)
    ensures r !in children
    decreases |children|
  {
    if children != [] {
      var moves := ChildMoves(children, r) + after;
      var c := children[0];
      assert moves[0] == (c, r);
      assert moves[1..] == ChildMoves(children[1..], r) + after;
      var rank: Ino -> nat :| Ranks(edges[c := r], rank);
      assert c in edges[c := r];
      NotOwnChild(edges[c := r], children[1..], r, after);
    }
  }

  /** A record that changes the realm repairs what the split left below it. */
  lemma SplitRepairs(a: Realms, g: Realms, h: Realms, b: Realms, rank: Ino -> nat, stale: set<Ino>, info: RealmInfo)
    requires Recounted(a, g, info.ino) && info.ino in h && info.ino in b && SameInfo(g[info.ino], h[info.ino]) && SameInfo(h[info.ino], b[info.ino])
    requires Forest(b, rank) && StaleBelow(b, rank, stale, info.ino)
    ensures Changes(Entry(a, info.ino), info) ==> Repairs(b, rank, stale, info)
  {
  }

  /** Of the inodes seen so far, those that move have been taken out of their realms. */
  ghost predicate TakenSoFar(a: Realms, rank: Ino -> nat, of: map<Ino, Ino>, info: RealmInfo, seen: seq<Ino>, b: Realms, now: map<Ino, Ino>,
                             moved: seq<Ino>, follows: map<Ino, SnapId>, trusted: bool) {
    && Forest(a, rank) && Placed(a, of) && Shrunk(a, b)
    && Distinct(moved) && Elems(moved) == Taken(a, of, info, seen) && now == of - Elems(moved)
    && follows.Keys == Elems(moved) && (trusted ==> MovedFollows(a, rank, of, follows))
  }

  lemma TakenNone(a: Realms, rank: Ino -> nat, of: map<Ino, Ino>, info: RealmInfo, seen: seq<Ino>, b: Realms, now: map<Ino, Ino>,
                  moved: seq<Ino>, follows: map<Ino, SnapId>, trusted: bool, n: Ino)
    requires TakenSoFar(a, rank, of, info, seen, b, now, moved, follows, trusted) && n !in seen && Placed(b, now)
    requires !(n in now && now[n] != info.ino && b[now[n]].created <= info.created)
    ensures TakenSoFar(a, rank, of, info, seen + [n], b, now, moved, follows, trusted)
  {
    TakenSnoc(a, of, info, seen, n);
    if n in now { assert SameInfo(a[now[n]], b[now[n]]); }
  }

  lemma TakenMore(a: Realms, rank: Ino -> nat, of: map<Ino, Ino>, info: RealmInfo, seen: seq<Ino>, b: Realms, now: map<Ino, Ino>,
                  c: Realms, after: map<Ino, Ino>, moved: seq<Ino>, follows: map<Ino, SnapId>, trusted: bool, n: Ino, q: SnapId)
    requires TakenSoFar(a, rank, of, info, seen, b, now, moved, follows, trusted) && n !in seen && Placed(b, now)
    requires n in now && now[n] != info.ino && b[now[n]].created <= info.created
    requires Shrunk(a, c) && after == now - {n} && (trusted ==> q == ContextOf(a, rank, now[n]).seqno)
    ensures TakenSoFar(a, rank, of, info, seen + [n], c, after, moved + [n], follows[n := q], trusted)
  {
    TakenSnoc(a, of, info, seen, n);
    assert SameInfo(a[now[n]], b[now[n]]);
    ElemsSnoc(moved, n);
    assert n !in Elems(moved);
  }

  lemma EdgesSame(a: Realms, b: Realms)
    requires Shrunk(a, b)
    ensures Within(Edges(b), Edges(a))
  {
    forall i | i in Edges(b) ensures i in Edges(a) && Edges(b)[i] == Edges(a)[i] { assert SameInfo(a[i], b[i]); }
  }

  /** Realms 1 and 2 are roots; realm 3 hangs below realm 1 and has cached the context it inherits.
      Each lists an inode with caps. */
  function TwoRoots(): Realms {
    map[1 := Realm(2, 0, 9, 0, 0, [], [9], None, {3}, NO_CONTEXT, {11}),
        2 := Realm(1, 0, 7, 0, 0, [], [7], None, {}, NO_CONTEXT, {12}),
        3 := Realm(1, 0, 1, 1, 0, [], [], Some(1), {}, SnapContext(9, [9]), {13})]
  }

  function TwoRootsInodes(): map<Ino, Ino> { map[11 := 1, 12 := 2, 13 := 3] }

  function TwoRootsRank(i: Ino): nat { if i == 3 then 1 else 0 }

  /** A record that says of realm 2 what the client knows already. */
  function OldNews(): RealmInfo { RealmInfo(2, 0, 7, 0, 0, [], [7]) }

  /** Takes or drops a reference that is not the last. */
  function Count(a: Realms, r: Ino, delta: int): Realms
    requires r in a && a[r].nref + delta > 0
  {
    a[r := a[r].(nref := a[r].nref + delta)]
  }

  /** The split that moves realm 3 to realm 2, step by step: both are held, realm 3 leaves realm 1 and
      goes under realm 2, the record about realm 2 is skipped, and the references are dropped. */
  function SplitOff(): Realms {
    var held := Count(Count(TwoRoots(), 2, 1), 3, 1);
    var left := Count(Cut(held, 3), 1, -1);
    var moved := Count(Hook(Count(left, 2, 1), 3, 2), 3, -1);
    var skipped := Count(Count(moved, 2, 1), 2, -1);
    Count(skipped, 2, -1)
  }

  lemma TwoRootsForest()
    ensures Forest(TwoRoots(), TwoRootsRank) && Forest(SplitOff(), TwoRootsRank)
  {
    forall i | i in TwoRoots() ensures NodeOk(TwoRoots(), TwoRootsRank, i) {}
    forall i | i in SplitOff() ensures NodeOk(SplitOff(), TwoRootsRank, i) {}
  }

  lemma TwoRootsCounted()
    ensures Counted(TwoRoots(), multiset{})
  {
    forall i | i in TwoRoots() ensures CountOk(TwoRoots(), multiset{}, i) {}
  }

  lemma SplitOffCounted()
    ensures Counted(SplitOff(), multiset{})
  {
    var b := SplitOff();
    assert b[1].pchildren == {} && b[2].pchildren == {3};
    forall i | i in b ensures CountOk(b, multiset{}, i) {}
  }

  lemma TwoRootsPlaced()
    ensures Placed(TwoRoots(), TwoRootsInodes()) && Placed(SplitOff(), TwoRootsInodes())
  {
    var of := TwoRootsInodes();
    assert Members(of, 1) == {11} && Members(of, 2) == {12} && Members(of, 3) == {13};
  }

  lemma TwoRootsCaches()
    ensures Forest(TwoRoots(), TwoRootsRank) && CachesOk(TwoRoots(), TwoRootsRank, {})
  {
    var a, ra := TwoRoots(), TwoRootsRank;
    TwoRootsForest();
    assert Elems([]) + Elems([9]) == {9} && Elems([9]) == {9};
    ListsUnique(Descending({9}), [9], {9});
    ContextParts(a, ra, 1, {9}, 9);
    assert (set x: SnapId | x in [9] && x >= 0) == {9};
    ContextParts(a, ra, 3, {9}, 9);
    assert a.Keys - {} == a.Keys;
    forall i | i in a.Keys ensures ParentIn(a, a.Keys, i) && CacheOk(a, ra, i) {}
  }

  lemma SplitOffCaches()
    ensures Forest(SplitOff(), TwoRootsRank)
    ensures CachesOk(SplitOff(), TwoRootsRank, {3}) && !CachesOk(SplitOff(), TwoRootsRank, {})
  {
    var b, rb := SplitOff(), TwoRootsRank;
    TwoRootsForest();
    assert ContextOf(b, rb, 2).seqno == 7;
    assert ContextOf(b, rb, 3).seqno == 7;
    assert !CacheOk(b, rb, 3);
    assert b.Keys - {3} == {1, 2};
    forall i | i in b.Keys - {3} ensures ParentIn(b, b.Keys - {3}, i) && CacheOk(b, rb, i) {}
  }

  /** Why a split must come with a record that changes the realm: a split that moves a child realm and
      brings nothing new can leave a filled cache slot that is not the child's context any more. */
  lemma SplitAloneLeavesStaleCache()
    ensures Inv(TwoRoots(), TwoRootsInodes(), TwoRootsRank, multiset{}, {}) && !Changes(TwoRoots()[2], OldNews())
    ensures Inv(SplitOff(), TwoRootsInodes(), TwoRootsRank, multiset{}, {3})
    ensures !CachesOk(SplitOff(), TwoRootsRank, {})
  {
    TwoRootsCounted();
    SplitOffCounted();
    TwoRootsPlaced();
    TwoRootsCaches();
    SplitOffCaches();
  }

  /** Drops a reference to a realm without a parent. */
  function PutRoot(a: Realms, r: Ino): Realms
    requires r in a && a[r].pparent.None?
  {
    if a[r].nref == 1 then a - {r} else a[r := a[r].(nref := a[r].nref - 1)]
  }

  /** Takes inode n off the list of realm r. */
  function Unlisted(a: Realms, r: Ino, n: Ino): Realms
    requires r in a
  {
    a[r := a[r].(inodes := a[r].inodes - {n})]
  }

  /** Why the inodes of a split must be distinct: the inode's realm is not cleared when it is taken, so
      listing it twice drops two references.  In this table that frees realm 1 under its child. */
  lemma RepeatedInodeFreesRealm()
    ensures Inv(TwoRoots(), TwoRootsInodes(), TwoRootsRank, multiset{}, {})
    ensures var b := PutRoot(PutRoot(Unlisted(TwoRoots(), 1, 11), 1), 1);
            1 !in b && 3 in b && b[3].pparent == Some(1) && forall rank :: !Forest(b, rank)
  {
    TwoRootsCounted();
    TwoRootsPlaced();
    TwoRootsCaches();
    var b := PutRoot(PutRoot(Unlisted(TwoRoots(), 1, 11), 1), 1);
    forall rank ensures !Forest(b, rank) { assert !NodeOk(b, rank, 3); }
  }

  /** The client's realm table. */
  class RealmTable {
    var realms: Realms
    var realmOf: map<Ino, Ino>
    /** Witness that the parent pointers are acyclic. */
    ghost var rank: Ino -> nat
    /** References held by code in progress. */
    ghost var temps: multiset<Ino>
    /** Realms whose cached context may be out of date. */
    ghost var stale: set<Ino>

    ghost predicate Valid()
      reads this
    {
      Inv(realms, realmOf, rank, temps, stale)
    }

    constructor ()
      ensures Valid() && realms == map[] && realmOf == map[] && temps == multiset{} && stale == {}
    {
      realms, realmOf := map[], map[];
      rank, temps, stale := i => 0, multiset{}, {};
    }

    method GetSnapRealm(r: Ino)
      requires Valid()
      modifies this`realms, this`temps, this`stale
      ensures Valid() && temps == old(temps) + multiset{r}
      ensures stale == if r in old(realms) then old(stale) else old(stale) - {r}
      ensures Recounted(old(realms), realms, r) && realms[r].nref == Entry(old(realms), r).nref + 1
    {
      if r !in realms {
        realms := realms[r := FreshRealm()];
      }
      assert r in old(realms) ==> CountOk(realms, temps, r);
      realms := realms[r := realms[r].(nref := realms[r].nref + 1)];
      temps := temps + multiset{r};
      RecountKeeps(old(realms), realms, realmOf, rank, old(temps), temps, stale, r);
      if r !in old(realms) { stale := stale - {r}; }
      assert stale == old(stale) - (realms.Keys - old(realms).Keys);
    }

    method GetSnapRealmMaybe(r: Ino) returns (found: bool)
      requires Valid()
      modifies this`realms, this`temps, this`stale
      ensures Valid() && stale == old(stale) && found == (r in old(realms))
      ensures found ==> temps == old(temps) + multiset{r}
                        && Recounted(old(realms), realms, r) && realms[r].nref == old(realms)[r].nref + 1
      ensures !found ==> temps == old(temps) && realms == old(realms)
    {
      if r !in realms { return false; }
      GetSnapRealm(r);
      return true;
    }

    /** Drops a reference; the last one frees the realm and drops its reference to its parent. */
    method PutSnapRealm(r: Ino)
      requires Valid() && r in temps
      modifies this`realms, this`temps
      ensures Valid() && temps == old(temps) - multiset{r}
      ensures Released(old(realms), realms)
      decreases |realms|
    {
      ghost var was := realms;
      assert CountOk(was, temps, r);
      if realms[r].nref - 1 != 0 {
        DropReference(r);
      } else {
        var up := FreeRealm(r);
        if up.Some? {
          ghost var mid := realms;
          PutSnapRealm(up.value);
          ReleasedTrans(was, mid, realms);
          AddThenDrop(old(temps) - multiset{r}, up.value);
        }
      }
    }

    /** Drops a reference that is not the last. */
    method DropReference(r: Ino)
      requires Valid() && r in temps && realms[r].nref != 1
      modifies this`realms, this`temps
      ensures Valid() && temps == old(temps) - multiset{r}
      ensures Released(old(realms), realms)
    {
      ghost var was := realms;
      assert CountOk(was, temps, r);
      realms := realms[r := realms[r].(nref := realms[r].nref - 1)];
      temps := temps - multiset{r};
      RecountKeeps(was, realms, realmOf, rank, old(temps), temps, stale, r);
      RecountReleased(was, realms, rank, r);
      assert stale - (realms.Keys - was.Keys) == stale;
    }

    /** Frees realm r, whose last reference goes; the one it held on its parent is now ours. */
    method FreeRealm(r: Ino) returns (up: Option<Ino>)
      requires Valid() && r in temps && realms[r].nref == 1
      modifies this`realms, this`temps
      ensures Valid() && |realms| < |old(realms)| && Released(old(realms), realms)
      ensures temps == old(temps) - multiset{r} + if up.Some? then multiset{up.value} else multiset{}
    {
      assert NodeOk(realms, rank, r);
      up := realms[r].pparent;
      var rest := realms - {r};
      if up.Some? {
        rest := rest[up.value := rest[up.value].(pchildren := rest[up.value].pchildren - {r})];
      }
      ghost var temps' := temps - multiset{r} + if up.Some? then multiset{up.value} else multiset{};
      FreeOk(realms, rest, realmOf, rank, temps, temps', stale, r);
      realms, temps := rest, temps';
    }

    /** First half of a move: r leaves its parent, which may free the parent and realms above it. */
    method DetachFromParent(r: Ino)
      requires Valid() && r in temps
      modifies this`realms, this`temps, this`stale
      ensures Valid() && temps == old(temps) && Detached(old(realms), realms, r)
      ensures StaleMoved(old(realms), rank, old(stale), realms, rank, stale, r)
    {
      ghost var was := realms;
      if realms[r].pparent.None? {
        assert NodeOk(was, rank, r);
        StaleMovedSame(was, rank, stale, r);
        return;
      }
      var q := realms[r].pparent.value;
      CutKeeps(realms, realmOf, rank, temps, stale, r);
      realms := Cut(realms, r);
      temps, stale := temps + multiset{q}, stale + Subtree(realms, rank, r);
      PutSnapRealm(q);
      AddThenDrop(old(temps), q);
      CutReleased(was, realms, r);
      DetachStale(was, rank, old(stale), realms, rank, r);
    }

    /** Second half of a move: r, which has no parent, goes under p. */
    method AttachToParent(r: Ino, p: Ino, ghost rank': Ino -> nat) returns (ghost c: Realms)
      requires Valid() && r in temps && realms[r].pparent.None? && p != r
      requires Ranks(Edges(realms)[r := p], rank')
      modifies this`realms, this`temps, this`stale, this`rank
      ensures Valid() && temps == old(temps) && rank == rank'
      ensures Recounted(old(realms), c, p) && r in c && realms == Hook(c, r, p)
      ensures StaleMoved(old(realms), old(rank), old(stale), realms, rank, stale, r)
    {
      ghost var was, staleA := realms, stale;
      GetSnapRealm(p);
      c := realms;
      AddThenDrop(old(temps), p);
      HookHeld(r, p, was, staleA, old(temps), rank');
    }

    /** Hooks r under p; the reference held on p is that of its new child from now on. */
    method HookHeld(r: Ino, p: Ino, ghost was: Realms, ghost staleA: set<Ino>, ghost temps': multiset<Ino>, ghost rank': Ino -> nat)
      requires AttachReady(was, rank, staleA, realms, realmOf, temps, temps', stale, r, p, rank')
      modifies this`realms, this`temps, this`stale, this`rank
      ensures Valid() && temps == temps' && rank == rank' && r in old(realms) && realms == Hook(old(realms), r, p)
      ensures StaleMoved(was, old(rank), staleA, realms, rank, stale, r)
    {
      var d := Hook(realms, r, p);
      AttachDone(was, rank, staleA, realms, realmOf, temps, temps', stale, r, p, rank', d);
      ghost var stale' := stale + Subtree(d, rank', r);
      realms, temps, stale, rank := d, temps', stale', rank';
    }

    /** Moves r under p unless it is there already.  The caller of this code guarantees that the
        move closes no cycle; the subtree of r is left with caches that may be out of date. */
    method AdjustRealmParent(r: Ino, p: Ino, ghost rank': Ino -> nat) returns (changed: bool)
      requires Valid() && r in temps && Ranks(Edges(realms)[r := p], rank')
      modifies this`realms, this`temps, this`stale, this`rank
      ensures Valid() && temps == old(temps)
      ensures changed == (old(realms)[r].parent != p)
      ensures !changed ==> realms == old(realms) && stale == old(stale) && rank == old(rank)
      ensures r in realms
      ensures SameInfo(Moved(old(realms)[r], p), realms[r])
      ensures Evolved(old(realms), realms, r) && Within(Edges(realms), Edges(old(realms))[r := p])
      ensures forall i | i in old(temps) && i != r :: i in realms && SameInfo(old(realms)[i], realms[i])
      ensures StaleMoved(old(realms), old(rank), old(stale), realms, rank, stale, r)
    {
      ghost var a, rankA := realms, rank;
      if realms[r].parent == p {
        SameParentWithin(realms, rank, r);
        StaleMovedSame(realms, rank, stale, r);
        return false;
      }
      DetachFromParent(r);
      ghost var b, staleB := realms, stale;
      DetachedEdges(a, b, r, p, rank');
      ghost var c := AttachToParent(r, p, rank');
      AttachEdges(a, b, c, r, p);
      AttachEvolved(a, b, c, r, p);
      StaleMovedTrans(a, rankA, old(stale), b, rankA, staleB, realms, rank, stale, r);
      return true;
    }

    /** The context of realm i, from its cache slot if that is filled. */
    method GetSnapContext(i: Ino) returns (c: SnapContext)
      requires Valid() && i in realms
      modifies this`realms
      ensures Valid() && OnlyCaches(old(realms), realms) && c == realms[i].cached
      ensures i !in stale ==> c == ContextOf(old(realms), rank, i)
      decreases rank(i), 1
    {
      assert i !in stale ==> CacheOk(realms, rank, i);
      if realms[i].cached.seqno == 0 {
        BuildSnapContext(i);
      }
      c := realms[i].cached;
    }

    /** Computes realm i's context from its parent's and stores it. */
    method BuildSnapContext(i: Ino)
      requires Valid() && i in realms
      modifies this`realms
      ensures Valid() && OnlyCaches(old(realms), realms)
      ensures i !in stale ==> realms[i].cached == ContextOf(old(realms), rank, i)
      decreases rank(i), 0
    {
      assert NodeOk(realms, rank, i);
      ghost var was := realms;
      var r := realms[i];
      var maxSeq, snaps := r.seqno, Elems(r.priorParentSnaps);
      if r.pparent.Some? {
        TrustAncestors(realms, rank, stale, i);
        var pc := GetSnapContext(r.pparent.value);
        snaps := snaps + set x | x in pc.snaps && x >= r.parentSince;
        if pc.seqno > maxSeq { maxSeq := pc.seqno; }
      }
      snaps := snaps + Elems(r.mySnaps);
      var list := CollectDescending(snaps);
      if i !in stale { ContextParts(was, rank, i, snaps, maxSeq); }
      BuildDone(was, realms, realmOf, rank, temps, stale, i, SnapContext(maxSeq, list));
      realms := realms[i := realms[i].(cached := SnapContext(maxSeq, list))];
    }

    /** Empties the cache slots of r and everything below it, breadth first. */
    method InvalidateSnaprealmAndChildren(r: Ino)
      requires Valid() && r in realms
      modifies this`realms, this`stale
      ensures Valid() && realms == Cleared(old(realms), Subtree(old(realms), rank, r))
      ensures stale == if old(TrustedAbove(realms, stale, r)) then old(stale) - Subtree(old(realms), rank, r) else old(stale)
    {
      ghost var was := realms;
      var q := [r];
      ghost var V: set<Ino> := {};
      while q != []
        invariant Distinct(q) && V <= was.Keys && Walking(was, rank, r, V, Elems(q))
        invariant realms == Cleared(was, V)
        decreases was.Keys - V
        modifies this`realms
      {
        var x := q[0];
        assert x in Elems(q);
        ClearedStep(was, V, x);
        var kids := Iterate(realms[x].pchildren);
        WalkTurn(was, rank, r, V, q, kids);
        realms := realms[x := realms[x].(cached := NO_CONTEXT)];
        V, q := V + {x}, q[1..] + kids;
      }
      assert Elems(q) == {};
      if TrustedAbove(was, stale, r) {
        InvalidateDone(was, realmOf, rank, temps, stale, r, V);
        stale := stale - V;
      } else {
        InvalidateUntrusted(was, realmOf, rank, temps, stale, r, V);
      }
    }

    /** Queues a cap snap for every inode with caps in r's subtree; `follows[x]` is the sequence
        number used for the inodes of realm x. */
    method FlushSubtree(r: Ino) returns (follows: map<Ino, SnapId>)
      requires Valid() && r in realms
      modifies this`realms
      ensures Valid() && OnlyCaches(old(realms), realms)
      ensures FollowsOk(old(realms), rank, stale, Subtree(old(realms), rank, r), follows)
    {
      ghost var was := realms;
      var q := [r];
      ghost var V: set<Ino> := {};
      follows := map[];
      while q != []
        invariant Distinct(q) && V <= was.Keys && Walking(was, rank, r, V, Elems(q))
        invariant Valid() && OnlyCaches(was, realms)
        invariant FollowsOk(was, rank, stale, V, follows)
        decreases was.Keys - V
      {
        var x := q[0];
        assert x in Elems(q);
        follows := QueueCapSnaps(x, follows, was, V);
        var kids := Iterate(realms[x].pchildren);
        WalkTurn(was, rank, r, V, q, kids);
        V, q := V + {x}, q[1..] + kids;
      }
      assert Elems(q) == {};
      WalkDone(was, rank, r, V);
    }

    /** Queues a cap snap for every inode with caps on realm x's own list. */
    method QueueCapSnaps(x: Ino, follows: map<Ino, SnapId>, ghost was: Realms, ghost V: set<Ino>) returns (f: map<Ino, SnapId>)
      requires Valid() && x in realms && x !in V && V <= was.Keys
      requires Forest(was, rank) && OnlyCaches(was, realms) && FollowsOk(was, rank, stale, V, follows)
      modifies this`realms
      ensures Valid() && OnlyCaches(was, realms) && V + {x} <= was.Keys
      ensures FollowsOk(was, rank, stale, V + {x}, f)
    {
      ghost var mid := realms;
      assert realms[x] == was[x].(cached := realms[x].cached);
      f := follows;
      if realms[x].inodes != {} {
        ContextCaches(was, mid, rank, x);
        var c := GetSnapContext(x);
        OnlyCachesTrans(was, mid, realms);
        f := follows[x := c.seqno];
      }
    }

    /** Rewrites realm info.ino if the record is newer. */
    method RefreshRealm(info: RealmInfo) returns (newer: bool)
      requires Valid() && info.ino in realms
      modifies this`realms, this`stale
      ensures Valid() && newer == (info.seqno > old(realms)[info.ino].seqno)
      ensures !newer ==> realms == old(realms) && stale == old(stale)
      ensures newer ==> realms == old(realms)[info.ino := Refreshed(old(realms)[info.ino], info)]
      ensures newer ==> stale == old(stale) + Subtree(old(realms), rank, info.ino)
                        && Subtree(realms, rank, info.ino) == Subtree(old(realms), rank, info.ino)
                        && Edges(realms) == Edges(old(realms))
    {
      var r := info.ino;
      newer := info.seqno > realms[r].seqno;
      if newer {
        ghost var was := realms;
        realms := realms[r := Refreshed(realms[r], info)];
        RewriteKeeps(was, realms, realmOf, rank, temps, stale, r);
        stale := stale + Subtree(was, rank, r);
      }
    }

    /** Moves realm info.ino and stores newer fields; tells whether anything changed. */
    method MoveAndRefresh(info: RealmInfo, ghost rank': Ino -> nat) returns (invalidate: bool)
      requires Valid() && info.ino in temps && Ranks(Edges(realms)[info.ino := info.parent], rank')
      modifies this`realms, this`temps, this`stale, this`rank
      ensures Valid() && temps == old(temps) && info.ino in realms
      ensures old(StaleBelow(realms, rank, stale, info.ino)) ==> StaleBelow(realms, rank, stale, info.ino)
      ensures invalidate == Changes(old(realms)[info.ino], info)
      ensures !invalidate ==> realms == old(realms) && stale == old(stale)
      ensures SameInfo(Revised(old(realms)[info.ino], info), realms[info.ino]) && Evolved(old(realms), realms, info.ino)
      ensures Within(Edges(realms), Edges(old(realms))[info.ino := info.parent])
    {
      var r := info.ino;
      ghost var a, rankA, staleA := realms, rank, stale;
      invalidate := AdjustRealmParent(r, info.parent, rank');
      ghost var b, staleB := realms, stale;
      if StaleBelow(a, rankA, staleA, r) { StaleBelowMoved(a, rankA, staleA, b, rank, stale, r); }
      var newer := RefreshRealm(info);
      if newer { invalidate := true; }
      if StaleBelow(b, rank, staleB, r) { StaleBelowRewritten(b, staleB, realms, stale, rank, r); }
      RefreshEvolved(a, b, realms, info);
    }

    /** Brings realm info.ino up to date with a trace record and empties the caches that depended on it. */
    method ReviseRealm(info: RealmInfo, ghost rank': Ino -> nat)
      requires Valid() && info.ino in temps && Ranks(Edges(realms)[info.ino := info.parent], rank')
      modifies this`realms, this`temps, this`stale, this`rank
      ensures Valid() && temps == old(temps) && info.ino in realms
      ensures old(Repairs(realms, rank, stale, info)) ==> realms.Keys !! stale
      ensures SameInfo(Revised(old(realms)[info.ino], info), realms[info.ino]) && Evolved(old(realms), realms, info.ino)
      ensures Within(Edges(realms), Edges(old(realms))[info.ino := info.parent])
    {
      var r := info.ino;
      ghost var a := realms;
      var invalidate := MoveAndRefresh(info, rank');
      if invalidate {
        ghost var c := realms;
        if StaleBelow(realms, rank, stale, r) && realms[r].pparent.Some? { ParentNotStale(realms, rank, stale, r); }
        InvalidateSnaprealmAndChildren(r);
        ClearedOnlyCaches(c, Subtree(c, rank, r));
        CachesEvolved(a, c, realms, r, Revised(a[r], info));
      }
    }

    /** Looks up the realm of a record and, if it is about to be updated, flushes under the old contexts. */
    method PrepareRealm(info: RealmInfo, flush: bool) returns (follows: map<Ino, SnapId>, ghost g: Realms)
      requires Valid()
      modifies this`realms, this`temps, this`stale
      ensures Valid() && temps == old(temps) + multiset{info.ino}
      ensures old(Repairs(realms, rank, stale, info)) ==> Repairs(realms, rank, stale, info)
      ensures stale == if info.ino in old(realms) then old(stale) else old(stale) - {info.ino}
      ensures Recounted(old(realms), g, info.ino) && Forest(g, rank) && OnlyCaches(g, realms)
      ensures if flush && info.seqno > Entry(old(realms), info.ino).seqno
              then FollowsOk(g, rank, stale, Subtree(g, rank, info.ino), follows)
              else follows == map[]
    {
      var r := info.ino;
      ghost var a, staleA := realms, stale;
      GetSnapRealm(r);
      g := realms;
      assert stale == staleA - (g.Keys - a.Keys);
      follows := map[];
      ClearedOnlyCaches(g, {});
      if flush && info.seqno > realms[r].seqno { follows := FlushSubtree(r); }
      if Repairs(a, rank, staleA, info) { RepairsRecounted(a, staleA, g, stale, realms, rank, info); }
    }

    /** Updates the realm of a record and drops the reference taken on it. */
    method ReviseAndPut(info: RealmInfo, ghost rank': Ino -> nat)
      requires Valid() && info.ino in temps && Ranks(Edges(realms)[info.ino := info.parent], rank')
      modifies this`realms, this`temps, this`stale, this`rank
      ensures Valid() && temps == old(temps) - multiset{info.ino}
      ensures old(Repairs(realms, rank, stale, info)) ==> realms.Keys !! stale
      ensures info.ino in realms ==> SameInfo(Revised(old(realms)[info.ino], info), realms[info.ino])
      ensures Evolved(old(realms), realms, info.ino)
      ensures Within(Edges(realms), Edges(old(realms))[info.ino := info.parent])
    {
      ghost var a := realms;
      ReviseRealm(info, rank');
      ghost var d := realms;
      PutSnapRealm(info.ino);
      EvolvedReleased(a, d, realms, info.ino);
      WithinTrans(Edges(realms), Edges(d), Edges(a)[info.ino := info.parent]);
    }

    /** Processes one record of a snap trace. */
    method ApplyInfo(info: RealmInfo, flush: bool, ghost rank': Ino -> nat)
      returns (follows: map<Ino, SnapId>)
      requires Valid() && Ranks(Edges(realms)[info.ino := info.parent], rank')
      modifies this`realms, this`temps, this`stale, this`rank
      ensures Valid() && temps == old(temps)
      ensures old(Repairs(realms, rank, stale, info)) ==> realms.Keys !! stale
      ensures info.ino in realms ==> SameInfo(Revised(Entry(old(realms), info.ino), info), realms[info.ino])
      ensures Evolved(old(realms), realms, info.ino)
      ensures Within(Edges(realms), Edges(old(realms))[info.ino := info.parent])
      ensures Queued(old(realms), old(stale) * old(realms).Keys, info, flush, follows)
    {
      ghost var a := realms;
      ghost var g;
      follows, g := PrepareRealm(info, flush);
      ghost var h := realms;
      QueuedFrom(a, old(stale), g, rank, stale, info, flush, follows);
      RecordDone(a, g, h, map[], info);
      assert h[info.ino] == g[info.ino].(cached := h[info.ino].cached);
      ReviseAndPut(info, rank');
      AddThenDrop(old(temps), info.ino);
      RecordDone(a, g, h, realms, info);
    }

    /** The first cap on inode n opens its realm. */
    method OpenInodeRealm(n: Ino, r: Ino)
      requires Valid() && n !in realmOf
      modifies this`realms, this`realmOf, this`temps, this`stale
      ensures Valid() && temps == old(temps) && realmOf == old(realmOf)[n := r]
      ensures old(realms).Keys !! old(stale) ==> realms.Keys !! stale
    {
      GetSnapRealm(r);
      AddThenDrop(old(temps), r);
      ListInode(realms, realmOf, rank, temps, old(temps), stale, n, r);
      realms := realms[r := realms[r].(inodes := realms[r].inodes + {n})];
      realmOf, temps := realmOf[n := r], old(temps);
    }

    /** The last cap on inode n closes its realm. */
    method CloseInodeRealm(n: Ino)
      requires Valid() && n in realmOf
      modifies this`realms, this`realmOf, this`temps
      ensures Valid() && temps == old(temps) && realmOf == old(realmOf) - {n}
      ensures Shrunk(old(realms), realms)
    {
      var j := realmOf[n];
      ghost var a := realms;
      UnlistInode(realms, realmOf, rank, temps, stale, n);
      realms := realms[j := realms[j].(inodes := realms[j].inodes - {n})];
      realmOf, temps := realmOf - {n}, temps + multiset{j};
      ghost var b := realms;
      PutSnapRealm(j);
      AddThenDrop(old(temps), j);
      ShrunkReleased(b, realms);
      ShrunkTrans(a, b, realms);
    }

    /** Processes a snap trace.  Afterwards every filled cache slot holds the right context, if that was so
        before or the first record repairs it; every realm holds what the records make of it; and each
        record has queued its cap snaps. */
    method UpdateSnapTrace(trace: seq<RealmInfo>, flush: bool) returns (first: Ino, follows: seq<map<Ino, SnapId>>, ghost states: seq<Realms>)
      requires Valid() && SafeMoves(Edges(realms), Moves(trace))
      modifies this`realms, this`temps, this`stale, this`rank
      ensures Valid() && temps == old(temps)
      ensures old(realms.Keys !! stale) || (trace != [] && old(Repairs(realms, rank, stale, trace[0]))) ==> realms.Keys !! stale
      ensures first == FirstRealm(trace)
      ensures Traced(old(realms), trace, |trace|, realms, flush, follows, states, old(realms.Keys !! stale))
    {
      first, follows, states := 0, [], [];
      ghost var bound: map<Ino, Ino>, moves := Edges(realms), Moves(trace);
      ghost var a := realms;
      ghost var trusted := realms.Keys !! stale;
      ghost var repaired := trusted || (trace != [] && Repairs(realms, rank, stale, trace[0]));
      TracedStart(a, trace, flush, trusted);
      var k := 0;
      while k < |trace|
        invariant 0 <= k <= |trace| && first == FirstRealm(trace[..k])
        invariant Valid() && temps == old(temps)
        invariant (trusted || (k > 0 && repaired)) ==> realms.Keys !! stale
        invariant k == 0 ==> realms == old(realms) && stale == old(stale) && rank == old(rank)
        invariant Within(Edges(realms), bound) && SafeMoves(bound, moves[k..])
        invariant Traced(a, trace, k, realms, flush, follows, states, trusted)
      {
        var info := trace[k];
        assert trace[..k + 1] == trace[..k] + [info];
        FirstSnoc(trace[..k], info);
        if first == 0 { first := info.ino; }
        assert moves[k..][0] == (info.ino, info.parent) && moves[k..][1..] == moves[k + 1..];
        follows, states := ApplyNext(trace, flush, k, follows, bound, a, states, trusted);
        bound, k := bound[info.ino := info.parent], k + 1;
      }
      assert trace[..|trace|] == trace;
    }

    /** Processes record k of a trace. */
    method ApplyNext(trace: seq<RealmInfo>, flush: bool, k: nat, follows: seq<map<Ino, SnapId>>, ghost bound: map<Ino, Ino>,
                     ghost a: Realms, ghost states: seq<Realms>, ghost trusted: bool)
      returns (follows': seq<map<Ino, SnapId>>, ghost states': seq<Realms>)
      requires Valid() && k < |trace| && Within(Edges(realms), bound) && Acyclic(bound[trace[k].ino := trace[k].parent])
      requires Traced(a, trace, k, realms, flush, follows, states, trusted) && (trusted ==> realms.Keys !! stale)
      modifies this`realms, this`temps, this`stale, this`rank
      ensures Valid() && temps == old(temps)
      ensures old(Repairs(realms, rank, stale, trace[k])) ==> realms.Keys !! stale
      ensures Within(Edges(realms), bound[trace[k].ino := trace[k].parent])
      ensures Traced(a, trace, k + 1, realms, flush, follows', states', trusted)
    {
      ghost var b, staleB := realms, stale;
      var f := ApplyRecord(trace[k], flush, bound);
      TracedStep(a, trace, k, b, staleB, realms, flush, follows, states, trusted, f);
      follows', states' := follows + [f], states + [b];
    }

    /** Processes one record, whose move closes no cycle even with all the edges there may have been. */
    method ApplyRecord(info: RealmInfo, flush: bool, ghost bound: map<Ino, Ino>) returns (follows: map<Ino, SnapId>)
      requires Valid() && Within(Edges(realms), bound) && Acyclic(bound[info.ino := info.parent])
      modifies this`realms, this`temps, this`stale, this`rank
      ensures Valid() && temps == old(temps)
      ensures old(Repairs(realms, rank, stale, info)) ==> realms.Keys !! stale
      ensures info.ino in realms ==> SameInfo(Revised(Entry(old(realms), info.ino), info), realms[info.ino])
      ensures Evolved(old(realms), realms, info.ino)
      ensures Within(Edges(realms), bound[info.ino := info.parent])
      ensures Queued(old(realms), old(stale) * old(realms).Keys, info, flush, follows)
    {
      ghost var bound': map<Ino, Ino> := bound[info.ino := info.parent];
      ghost var rank' :| Ranks(bound', rank');
      ghost var e := Edges(realms);
      WithinMove(e, bound, info.ino, info.parent);
      RanksWithin(e[info.ino := info.parent], bound', rank');
      follows := ApplyInfo(info, flush, rank');
      WithinTrans(Edges(realms), e[info.ino := info.parent], bound');
    }

    /** Takes the inodes of a split out of the realms they are leaving. */
    method TakeSplitInodes(info: RealmInfo, inos: seq<Ino>) returns (moved: seq<Ino>, follows: map<Ino, SnapId>)
      requires Valid() && Distinct(inos)
      modifies this`realms, this`realmOf, this`temps
      ensures Valid() && temps == old(temps) && Shrunk(old(realms), realms)
      ensures Distinct(moved) && Elems(moved) == Taken(old(realms), old(realmOf), info, inos)
      ensures realmOf == old(realmOf) - Elems(moved)
      ensures follows.Keys == Elems(moved)
      ensures old(realms).Keys !! stale ==> MovedFollows(old(realms), rank, old(realmOf), follows)
    {
      moved, follows := [], map[];
      ghost var a, of := realms, realmOf;
      ShrunkSame(a);
      var k := 0;
      while k < |inos|
        invariant 0 <= k <= |inos| && Valid() && temps == old(temps)
        invariant TakenSoFar(a, rank, of, info, inos[..k], realms, realmOf, moved, follows, a.Keys !! stale)
      {
        moved, follows := TakeNext(info, inos, k, moved, follows, a, of);
        k := k + 1;
      }
      assert inos[..|inos|] == inos;
    }

    /** Takes inode inos[k] out of its realm if it is to move. */
    method TakeNext(info: RealmInfo, inos: seq<Ino>, k: nat, moved: seq<Ino>, follows: map<Ino, SnapId>,
                    ghost a: Realms, ghost of: map<Ino, Ino>) returns (moved': seq<Ino>, follows': map<Ino, SnapId>)
      requires Valid() && Distinct(inos) && k < |inos| && Forest(a, rank) && Placed(a, of)
      requires TakenSoFar(a, rank, of, info, inos[..k], realms, realmOf, moved, follows, a.Keys !! stale)
      modifies this`realms, this`realmOf, this`temps
      ensures Valid() && temps == old(temps)
      ensures TakenSoFar(a, rank, of, info, inos[..k + 1], realms, realmOf, moved', follows', a.Keys !! stale)
    {
      var n := inos[k];
      assert inos[..k + 1] == inos[..k] + [n] && n !in inos[..k];
      if n in realmOf && realmOf[n] != info.ino && realms[realmOf[n]].created <= info.created {
        ghost var b, was := realms, realmOf;
        ShrunkContext(a, b, rank, realmOf[n]);
        var q := TakeInode(n);
        ShrunkTrans(a, b, realms);
        TakenMore(a, rank, of, info, inos[..k], b, was, realms, realmOf, moved, follows, a.Keys !! stale, n, q);
        return moved + [n], follows[n := q];
      }
      TakenNone(a, rank, of, info, inos[..k], realms, realmOf, moved, follows, a.Keys !! stale, n);
      return moved, follows;
    }

    /** Queues a cap snap for inode n and takes it out of its realm. */
    method TakeInode(n: Ino) returns (follows: SnapId)
      requires Valid() && n in realmOf
      modifies this`realms, this`realmOf, this`temps
      ensures Valid() && temps == old(temps) && Shrunk(old(realms), realms) && realmOf == old(realmOf) - {n}
      ensures old(realmOf)[n] !in stale ==> follows == ContextOf(old(realms), rank, old(realmOf)[n]).seqno
    {
      ghost var a := realms;
      var c := GetSnapContext(realmOf[n]);
      follows := c.seqno;
      ghost var b := realms;
      ShrunkCaches(a, b);
      CloseInodeRealm(n);
      ShrunkTrans(a, b, realms);
    }

    /** Puts the child realms of a split under r, leaving their caches as they are. */
    method MoveChildRealms(r: Ino, children: seq<Ino>, ghost after: seq<(Ino, Ino)>)
      requires Valid() && r in temps && StaleBelow(realms, rank, stale, r)
      requires SafeMoves(Edges(realms), ChildMoves(children, r) + after)
      modifies this`realms, this`temps, this`stale, this`rank
      ensures Valid() && temps == old(temps) && StaleBelow(realms, rank, stale, r)
      ensures SameInfo(old(realms)[r], realms[r])
      ensures SafeMoves(Edges(realms), after)
      ensures old(realms.Keys !! stale && NoneMoves(realms, children, r)) ==> realms.Keys !! stale
    {
      ghost var none := realms.Keys !! stale && NoneMoves(realms, children, r);
      ghost var bound: map<Ino, Ino>, moves := Edges(realms), ChildMoves(children, r) + after;
      ghost var was := realms[r];
      var k := 0;
      while k < |children|
        invariant 0 <= k <= |children|
        invariant Valid() && temps == old(temps) && StaleBelow(realms, rank, stale, r)
        invariant SameInfo(was, realms[r])
        invariant none ==> realms.Keys !! stale && NoneMoves(realms, children, r)
        invariant Within(Edges(realms), bound) && SafeMoves(bound, moves[k..])
      {
        ghost var bound': map<Ino, Ino> := bound[children[k] := r];
        assert moves[k..][0] == (children[k], r) && moves[k..][1..] == moves[k + 1..];
        assert Acyclic(bound');
        ghost var rank' :| Ranks(bound', rank');
        ghost var b := realms;
        MoveChildRealm(r, children[k], bound, rank');
        if none { NoneMovesShrunk(b, realms, children, r); }
        bound, k := bound', k + 1;
      }
      assert moves[k..] == after;
      SafeMovesWithin(Edges(realms), bound, after);
    }

    method MoveChildRealm(r: Ino, child: Ino, ghost bound: map<Ino, Ino>, ghost rank': Ino -> nat)
      requires Valid() && r in temps && StaleBelow(realms, rank, stale, r)
      requires Within(Edges(realms), bound) && Ranks(bound[child := r], rank')
      modifies this`realms, this`temps, this`stale, this`rank
      ensures Valid() && temps == old(temps) && StaleBelow(realms, rank, stale, r)
      ensures SameInfo(old(realms)[r], realms[r])
      ensures Within(Edges(realms), bound[child := r])
      ensures old(child !in realms || realms[child].parent == r) ==> stale == old(stale) && Shrunk(old(realms), realms)
    {
      assert rank'(r) < rank'(child) by { assert child in bound[child := r]; }
      ghost var a, staleA := realms, stale;
      var found := GetSnapRealmMaybe(child);
      if found {
        ghost var g := realms;
        assert staleA - (g.Keys - a.Keys) == staleA;
        StaleBelowRecounted(a, staleA, g, stale, rank, r, child);
        EvolvedFrom(a, g, map[], child);
        AddThenDrop(old(temps), child);
        ReparentAndPut(r, child, bound, rank');
        if a[child].parent == r { ShrunkBoth(a, g, realms, child); }
      } else {
        ShrunkSame(a);
      }
    }

    /** Puts child under r and drops the reference held on it. */
    method ReparentAndPut(r: Ino, child: Ino, ghost bound: map<Ino, Ino>, ghost rank': Ino -> nat)
      requires Valid() && r in temps && child in temps && r != child && StaleBelow(realms, rank, stale, r)
      requires Within(Edges(realms), bound) && Ranks(bound[child := r], rank')
      modifies this`realms, this`temps, this`stale, this`rank
      ensures Valid() && temps == old(temps) - multiset{child} && StaleBelow(realms, rank, stale, r)
      ensures SameInfo(old(realms)[r], realms[r]) && Within(Edges(realms), bound[child := r])
      ensures old(realms)[child].parent == r ==> stale == old(stale) && Shrunk(old(realms), realms)
    {
      ReparentHeld(r, child, bound, rank');
      ghost var d := realms;
      PutSnapRealm(child);
      ShrunkReleased(d, realms);
      StaleBelowReleased(d, realms, rank, stale, r);
      EdgesSame(d, realms);
      WithinTrans(Edges(realms), Edges(d), bound[child := r]);
    }

    /** Puts child, on which a reference is held, under r. */
    method ReparentHeld(r: Ino, child: Ino, ghost bound: map<Ino, Ino>, ghost rank': Ino -> nat)
      requires Valid() && r in temps && child in temps && r != child && StaleBelow(realms, rank, stale, r)
      requires Within(Edges(realms), bound) && Ranks(bound[child := r], rank')
      modifies this`realms, this`temps, this`stale, this`rank
      ensures Valid() && temps == old(temps) && StaleBelow(realms, rank, stale, r)
      ensures SameInfo(old(realms)[r], realms[r]) && Within(Edges(realms), bound[child := r])
      ensures old(realms)[child].parent == r ==> realms == old(realms) && stale == old(stale)
    {
      ghost var g, rankG, staleG := realms, rank, stale;
      WithinMove(Edges(g), bound, child, r);
      RanksWithin(Edges(g)[child := r], bound[child := r], rank');
      var changed := AdjustRealmParent(child, r, rank');
      if changed { ChildStale(g, rankG, staleG, realms, rank, stale, child, r); }
      WithinTrans(Edges(realms), Edges(g)[child := r], bound[child := r]);
    }

    /** Lists the inodes of a split with their new realm. */
    method GiveSplitInodes(r: Ino, moved: seq<Ino>)
      requires Valid() && r in temps && Distinct(moved) && Elems(moved) !! realmOf.Keys
      modifies this`realms, this`realmOf, this`temps
      ensures Valid() && temps == old(temps) && realms.Keys == old(realms).Keys
      ensures realmOf == Given(old(realmOf), moved, r)
    {
      ghost var was := realmOf;
      var k := 0;
      while k < |moved|
        invariant 0 <= k <= |moved|
        invariant Valid() && temps == old(temps) && realms.Keys == old(realms).Keys
        invariant realmOf == Given(was, moved[..k], r)
      {
        assert moved[..k + 1] == moved[..k] + [moved[k]];
        assert moved[k] in Elems(moved) && moved[k] !in moved[..k];
        GivenSnoc(was, moved[..k], moved[k], r);
        ListSplitInode(r, moved[k]);
        k := k + 1;
      }
      assert moved[..|moved|] == moved;
    }

    method ListSplitInode(r: Ino, n: Ino)
      requires Valid() && r in temps && n !in realmOf
      modifies this`realms, this`realmOf, this`temps
      ensures Valid() && temps == old(temps) && realms.Keys == old(realms).Keys && realmOf == old(realmOf)[n := r]
    {
      ListNewInode(realms, realmOf, rank, temps, stale, n, r);
      realms := realms[r := realms[r].(inodes := realms[r].inodes + {n}, nref := realms[r].nref + 1)];
      realmOf := realmOf[n := r];
    }

    /** Handles a split: inodes and child realms move to realm info.ino, then the trace, whose first
        record is info, is processed.  Every filled cache slot holds the right context again if the
        record is newer than the realm or moves it, or if no child realm had to move.  `follows` is what
        the inodes that move are queued with. */
    method HandleSplit(info: RealmInfo, inos: seq<Ino>, children: seq<Ino>, trace: seq<RealmInfo>)
      returns (follows: map<Ino, SnapId>)
      requires Valid() && realms.Keys !! stale && Distinct(inos)
      requires trace != [] && trace[0] == info
      requires SafeMoves(Edges(realms), ChildMoves(children, info.ino) + Moves(trace))
      modifies this
      ensures Valid() && temps == old(temps)
      ensures Changes(Entry(old(realms), info.ino), info) || NoneMoves(old(realms), children, info.ino) ==> realms.Keys !! stale
      ensures realmOf == map n | n in old(realmOf) ::
                           if n in Taken(old(realms), old(realmOf), info, inos) then info.ino else old(realmOf)[n]
      ensures follows.Keys == Taken(old(realms), old(realmOf), info, inos)
      ensures MovedFollows(old(realms), old(rank), old(realmOf), follows)
    {
      var moved;
      moved, follows := BeginSplit(info, inos, children, trace);
      var _, _, _ := UpdateSnapTrace(trace, true);
      FinishSplit(info.ino, moved);
      AddThenDrop(old(temps), info.ino);
      GivenBack(old(realmOf), moved, info.ino);
    }

    /** Second half of a split: the inodes arrive and the reference on the realm is dropped. */
    method FinishSplit(r: Ino, moved: seq<Ino>)
      requires Valid() && r in temps && Distinct(moved) && Elems(moved) !! realmOf.Keys
      modifies this`realms, this`realmOf, this`temps
      ensures Valid() && temps == old(temps) - multiset{r} && realms.Keys <= old(realms).Keys
      ensures realmOf == Given(old(realmOf), moved, r)
    {
      GiveSplitInodes(r, moved);
      PutSnapRealm(r);
    }

    /** First half of a split: what leaves other realms does so. */
    method BeginSplit(info: RealmInfo, inos: seq<Ino>, children: seq<Ino>, ghost trace: seq<RealmInfo>)
      returns (moved: seq<Ino>, follows: map<Ino, SnapId>)
      requires Valid() && realms.Keys !! stale && Distinct(inos)
      requires SafeMoves(Edges(realms), ChildMoves(children, info.ino) + Moves(trace))
      modifies this
      ensures Valid() && temps == old(temps) + multiset{info.ino} && StaleBelow(realms, rank, stale, info.ino)
      ensures SafeMoves(Edges(realms), Moves(trace))
      ensures Changes(Entry(old(realms), info.ino), info) || NoneMoves(old(realms), children, info.ino) ==>
                Repairs(realms, rank, stale, info)
      ensures Distinct(moved) && Elems(moved) == Taken(old(realms), old(realmOf), info, inos)
      ensures realmOf == old(realmOf) - Elems(moved)
      ensures follows.Keys == Elems(moved) && MovedFollows(old(realms), old(rank), old(realmOf), follows)
    {
      ghost var a := realms;
      ghost var g;
      moved, follows, g := HoldAndTake(info, inos);
      ghost var h := realms;
      SafeMovesWithin(Edges(h), Edges(a), ChildMoves(children, info.ino) + Moves(trace));
      NotOwnChild(Edges(a), children, info.ino, Moves(trace));
      NoneMovesRecounted(a, g, h, children, info.ino);
      MoveChildRealms(info.ino, children, Moves(trace));
      SplitRepairs(a, g, h, realms, rank, stale, info);
    }

    /** Holds the realm of a split and takes its inodes out of the realms they are leaving. */
    method HoldAndTake(info: RealmInfo, inos: seq<Ino>) returns (moved: seq<Ino>, follows: map<Ino, SnapId>, ghost g: Realms)
      requires Valid() && realms.Keys !! stale && Distinct(inos)
      modifies this
      ensures Valid() && temps == old(temps) + multiset{info.ino} && realms.Keys !! stale
      ensures Recounted(old(realms), g, info.ino) && Shrunk(g, realms) && Within(Edges(realms), Edges(old(realms)))
      ensures info.ino in realms && SameInfo(g[info.ino], realms[info.ino])
      ensures Distinct(moved) && Elems(moved) == Taken(old(realms), old(realmOf), info, inos)
      ensures realmOf == old(realmOf) - Elems(moved)
      ensures rank == old(rank) && follows.Keys == Elems(moved) && MovedFollows(old(realms), rank, old(realmOf), follows)
    {
      ghost var a, of := realms, realmOf;
      GetSnapRealm(info.ino);
      g := realms;
      EvolvedFrom(a, g, map[], info.ino);
      TakenRecounted(a, g, realmOf, info, inos);
      moved, follows := TakeSplitInodes(info, inos);
      MovedRecounted(a, g, rank, info.ino, of, follows);
      EdgesSame(g, realms);
    }
  }
}
