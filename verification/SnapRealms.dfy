/**
 * Snapshot realms of the CephFS client: the tree of realms, their reference
 * counts, and the cached snapshot contexts.
 *
 * A realm is named by its inode number.  The class `RealmTable` is the client's
 * `snap_realms` map together with the parent/child pointers; `ContextOf` is the
 * uncached, recursive meaning of a realm's snapshot context.
 */
module SnapRealms {
  import opened Options

  type Ino = nat
  type SnapId = nat

  /** A snapshot context; `seqno == 0` marks an empty cache slot. */
  datatype SnapContext = SnapContext(seqno: SnapId, snaps: seq<SnapId>)

  const NO_CONTEXT := SnapContext(0, [])

  datatype Realm = Realm(
    nref: int,
    created: SnapId,
    seqno: SnapId,
    parent: Ino,
    parentSince: SnapId,
    priorParentSnaps: seq<SnapId>,
    mySnaps: seq<SnapId>,
    pparent: Option<Ino>,
    pchildren: set<Ino>,
    cached: SnapContext,
    inodes: set<Ino>)

  /** One decoded record of a snap trace. */
  datatype RealmInfo = RealmInfo(
    ino: Ino, created: SnapId, seqno: SnapId, parent: Ino, parentSince: SnapId,
    priorParentSnaps: seq<SnapId>, mySnaps: seq<SnapId>)

  type Realms = map<Ino, Realm>

  function FreshRealm(): Realm {
    Realm(0, 0, 0, 0, 0, [], [], None, {}, NO_CONTEXT, {})
  }

  // ---------------------------------------------------------------- ordered snap lists

  function Elems(s: seq<SnapId>): set<SnapId> { set x | x in s }

  ghost predicate StrictlyDescending(s: seq<SnapId>) {
    forall i, j | 0 <= i < j < |s| :: s[i] > s[j]
  }

  /** `s` lists exactly the snaps of `S`, newest first. */
  ghost predicate Lists(s: seq<SnapId>, S: set<SnapId>) {
    StrictlyDescending(s) && Elems(s) == S
  }

  lemma {:induction false} ListsUnique(s: seq<SnapId>, t: seq<SnapId>, S: set<SnapId>)
    requires Lists(s, S) && Lists(t, S)
    ensures s == t
  {
    if s == [] {
      ElemsEmpty(t);
    } else {
      assert s[0] in Elems(s);
      assert t != [] && t[0] in Elems(t);
      assert s[0] == t[0];
      forall x ensures x in Elems(s[1..]) <==> x in S - {s[0]} { TailElems(s, x); }
      forall x ensures x in Elems(t[1..]) <==> x in S - {s[0]} { TailElems(t, x); }
      ListsUnique(s[1..], t[1..], S - {s[0]});
      assert s == [s[0]] + s[1..] && t == [t[0]] + t[1..];
    }
  }

  lemma ElemsEmpty(s: seq<SnapId>)
    ensures Elems(s) == {} <==> s == []
  {
    if s != [] { assert s[0] in Elems(s); }
  }

  lemma TailElems(s: seq<SnapId>, x: SnapId)
    requires s != [] && StrictlyDescending(s)
    ensures x in s[1..] <==> x in s && x != s[0]
  {
    assert s == [s[0]] + s[1..];
  }

  lemma MaxExists(S: set<SnapId>)
    requires S != {}
    ensures exists m :: m in S && forall y | y in S :: y <= m
  {
    var x :| x in S;
    if S == {x} {
      assert forall y | y in S :: y <= x;
    } else {
      var T := S - {x};
      assert S == T + {x};
      MaxExists(T);
      var m :| m in T && forall y | y in T :: y <= m;
      var best := if m < x then x else m;
      assert best in S && forall y | y in S :: y <= best;
    }
  }

  lemma ElemsCons(m: SnapId, s: seq<SnapId>)
    ensures Elems([m] + s) == {m} + Elems(s)
    ensures (forall x | x in Elems(s) :: x < m) && StrictlyDescending(s) ==> StrictlyDescending([m] + s)
  {
    forall x ensures x in [m] + s <==> x == m || x in s {}
    if (forall x | x in Elems(s) :: x < m) && StrictlyDescending(s) {
      var t := [m] + s;
      forall i, j | 0 <= i < j < |t| ensures t[i] > t[j] {
        assert t[j] == s[j - 1] && s[j - 1] in Elems(s);
      }
    }
  }

  ghost function Descending(S: set<SnapId>): (s: seq<SnapId>)
    ensures Lists(s, S)
  {
    if S == {} then [] else
      MaxExists(S);
      var m :| m in S && forall y | y in S :: y <= m;
      var rest := Descending(S - {m});
      ElemsCons(m, rest);
      [m] + rest
  }

  lemma ElemsSnoc(s: seq<SnapId>, m: SnapId)
    ensures Elems(s + [m]) == Elems(s) + {m}
    ensures (forall x | x in Elems(s) :: x > m) && StrictlyDescending(s) ==> StrictlyDescending(s + [m])
  {
    forall x ensures x in s + [m] <==> x == m || x in s {}
    if (forall x | x in Elems(s) :: x > m) && StrictlyDescending(s) {
      var t := s + [m];
      forall i, j | 0 <= i < j < |t| ensures t[i] > t[j] {
        assert t[i] == s[i] && s[i] in Elems(s);
      }
    }
  }

  /** Reads a set of snaps out in descending order, as iterating a `std::set` backwards does. */
  method CollectDescending(S: set<SnapId>) returns (s: seq<SnapId>)
    ensures s == Descending(S)
  {
    s := [];
    var rest := S;
    while rest != {}
      invariant rest !! Elems(s) && rest + Elems(s) == S
      invariant StrictlyDescending(s)
      invariant forall x, y | x in Elems(s) && y in rest :: x > y
      decreases rest
    {
      MaxExists(rest);
      var m :| m in rest && forall y | y in rest :: y <= m;
      ElemsSnoc(s, m);
      s := s + [m];
      rest := rest - {m};
    }
    ListsUnique(s, Descending(S), S);
  }

  // ---------------------------------------------------------------- the realm forest

  /** Realm i agrees with its parent and its children, and `rank` grows from parent to child. */
  ghost predicate NodeOk(realms: Realms, rank: Ino -> nat, i: Ino)
    requires i in realms
  {
    var r := realms[i];
    && (r.pparent.None? ==> r.parent == 0)
    && (r.pparent.Some? ==>
          var p := r.pparent.value;
          p in realms && i in realms[p].pchildren && rank(p) < rank(i) && r.parent == p)
    && (forall c | c in r.pchildren :: c in realms && realms[c].pparent == Some(i))
  }

  ghost predicate Forest(realms: Realms, rank: Ino -> nat) {
    forall i {:trigger NodeOk(realms, rank, i)} | i in realms :: NodeOk(realms, rank, i)
  }

  /** Every reference to realm i is counted once: a child, an inode with caps, or a temporary. */
  ghost predicate CountOk(realms: Realms, temps: multiset<Ino>, i: Ino)
    requires i in realms
  {
    var r := realms[i];
    r.nref == |r.pchildren| + |r.inodes| + temps[i] && r.nref > 0
  }

  ghost predicate Counted(realms: Realms, temps: multiset<Ino>) {
    && (forall i | i in temps :: i in realms)
    && (forall i {:trigger CountOk(realms, temps, i)} | i in realms :: CountOk(realms, temps, i))
  }

  /** The uncached meaning of a realm's snapshot context. */
  ghost function ContextOf(realms: Realms, rank: Ino -> nat, i: Ino): SnapContext
    requires Forest(realms, rank) && i in realms
    decreases rank(i)
  {
    assert NodeOk(realms, rank, i);
    var r := realms[i];
    var own := Elems(r.priorParentSnaps) + Elems(r.mySnaps);
    if r.pparent.None? then
      SnapContext(r.seqno, Descending(own))
    else
      var pc := ContextOf(realms, rank, r.pparent.value);
      SnapContext(if pc.seqno > r.seqno then pc.seqno else r.seqno,
                  Descending(own + set x | x in pc.snaps && x >= r.parentSince))
  }

  /** `i` is `root` or lies below it. */
  ghost predicate Under(realms: Realms, rank: Ino -> nat, i: Ino, root: Ino)
    requires Forest(realms, rank) && i in realms
    decreases rank(i)
  {
    assert NodeOk(realms, rank, i);
    i == root || (realms[i].pparent.Some? && Under(realms, rank, realms[i].pparent.value, root))
  }

  ghost function Subtree(realms: Realms, rank: Ino -> nat, root: Ino): set<Ino>
    requires Forest(realms, rank)
  {
    set i | i in realms && Under(realms, rank, i, root)
  }

  /** The realms from `i` up to its root. */
  ghost function Ancestors(realms: Realms, rank: Ino -> nat, i: Ino): (a: seq<Ino>)
    requires Forest(realms, rank) && i in realms
    ensures a != [] && a[0] == i && forall k | 0 <= k < |a| :: a[k] in realms
    decreases rank(i)
  {
    assert NodeOk(realms, rank, i);
    var r := realms[i];
    if r.pparent.None? then [i] else [i] + Ancestors(realms, rank, r.pparent.value)
  }

  ghost function OwnSnaps(realms: Realms, i: Ino): set<SnapId>
    requires i in realms
  {
    Elems(realms[i].priorParentSnaps) + Elems(realms[i].mySnaps)
  }

  /** Snap `x`, held by the k-th ancestor, is inherited by every realm below it on the way to `a[0]`. */
  ghost predicate Inherited(realms: Realms, a: seq<Ino>, k: nat, x: SnapId)
    requires k < |a| && forall j | 0 <= j < |a| :: a[j] in realms
  {
    x in OwnSnaps(realms, a[k]) && forall j | 0 <= j < k :: x >= realms[a[j]].parentSince
  }

  /** Snap `x` reaches the first realm of the ancestor chain `a`. */
  ghost predicate Reaches(realms: Realms, a: seq<Ino>, x: SnapId)
    requires forall j | 0 <= j < |a| :: a[j] in realms
  {
    exists k :: 0 <= k < |a| && Inherited(realms, a, k, x)
  }

  /** What a snapshot context is, with no recursion: the snaps held by `i` or by an ancestor
      and not filtered on the way down, in strictly descending order, and the largest sequence
      number on the way up. */
  lemma {:induction false} ContextMeaning(realms: Realms, rank: Ino -> nat, i: Ino) returns (top: nat)
    requires Forest(realms, rank) && i in realms
    ensures
      var a, c := Ancestors(realms, rank, i), ContextOf(realms, rank, i);
      && StrictlyDescending(c.snaps)
      && (forall x :: x in c.snaps <==> Reaches(realms, a, x))
      && (forall k | 0 <= k < |a| :: realms[a[k]].seqno <= c.seqno)
      && top < |a| && realms[a[top]].seqno == c.seqno
    decreases rank(i)
  {
    assert NodeOk(realms, rank, i);
    var r := realms[i];
    var a, c := Ancestors(realms, rank, i), ContextOf(realms, rank, i);
    if r.pparent.None? {
      assert a == [i];
      top := 0;
      forall x ensures x in c.snaps <==> Reaches(realms, a, x) {
        assert x in c.snaps <==> x in Elems(c.snaps);
        assert Inherited(realms, a, 0, x) <==> x in OwnSnaps(realms, i);
      }
    } else {
      var p := r.pparent.value;
      top := ContextMeaning(realms, rank, p);
      var b, pc := Ancestors(realms, rank, p), ContextOf(realms, rank, p);
      assert a == [i] + b;
      assert realms[a[0]].seqno <= c.seqno;
      forall k | 0 <= k < |a| ensures realms[a[k]].seqno <= c.seqno {
        if k > 0 { assert a[k] == b[k - 1]; }
      }
      assert a[top + 1] == b[top];
      top := if c.seqno == r.seqno then 0 else top + 1;
      forall x ensures x in c.snaps <==> Reaches(realms, a, x) {
        assert x in c.snaps <==> x in Elems(c.snaps);
        InheritStep(realms, i, b, x);
      }
    }
  }

  lemma InheritStep(realms: Realms, i: Ino, b: seq<Ino>, x: SnapId)
    requires i in realms && forall j | 0 <= j < |b| :: b[j] in realms
    ensures Reaches(realms, [i] + b, x) <==>
            (x in OwnSnaps(realms, i) || (Reaches(realms, b, x) && x >= realms[i].parentSince))
  {
    var a := [i] + b;
    assert Inherited(realms, a, 0, x) <==> x in OwnSnaps(realms, i);
    if Reaches(realms, b, x) && x >= realms[i].parentSince {
      var k :| 0 <= k < |b| && Inherited(realms, b, k, x);
      InheritShift(realms, i, b, k, x);
      assert Inherited(realms, a, k + 1, x);
    }
    if Reaches(realms, a, x) && x !in OwnSnaps(realms, i) {
      var k :| 0 <= k < |a| && Inherited(realms, a, k, x);
      InheritShift(realms, i, b, k - 1, x);
      assert Inherited(realms, b, k - 1, x);
    }
  }

  lemma InheritShift(realms: Realms, i: Ino, b: seq<Ino>, k: nat, x: SnapId)
    requires i in realms && k < |b| && forall j | 0 <= j < |b| :: b[j] in realms
    ensures Inherited(realms, [i] + b, k + 1, x) <==> (Inherited(realms, b, k, x) && x >= realms[i].parentSince)
  {
    var a := [i] + b;
    assert a[k + 1] == b[k];
    if Inherited(realms, a, k + 1, x) {
      assert x >= realms[a[0]].parentSince;
      forall j | 0 <= j < k ensures x >= realms[b[j]].parentSince { assert a[j + 1] == b[j]; }
    }
    if Inherited(realms, b, k, x) && x >= realms[i].parentSince {
      forall j | 0 <= j < k + 1 ensures x >= realms[a[j]].parentSince {
        if j > 0 { assert a[j] == b[j - 1]; }
      }
    }
  }

  // ---------------------------------------------------------------- what keeps a context

  /** The fields a context is computed from. */
  predicate SameCore(a: Realm, b: Realm) {
    && a.seqno == b.seqno && a.parentSince == b.parentSince && a.pparent == b.pparent
    && a.priorParentSnaps == b.priorParentSnaps && a.mySnaps == b.mySnaps
  }

  /** The parent of i, if any, belongs to S. */
  ghost predicate ParentIn(realms: Realms, S: set<Ino>, i: Ino)
    requires i in realms
  {
    realms[i].pparent.Some? ==> realms[i].pparent.value in S
  }

  ghost predicate UpClosed(realms: Realms, S: set<Ino>) {
    && S <= realms.Keys
    && forall i {:trigger ParentIn(realms, S, i)} | i in S :: ParentIn(realms, S, i)
  }

  lemma {:induction false} ContextFrame(realms: Realms, rank: Ino -> nat, realms': Realms, rank': Ino -> nat, S: set<Ino>, i: Ino)
    requires Forest(realms, rank) && Forest(realms', rank')
    requires UpClosed(realms, S) && i in S && S <= realms'.Keys
    requires forall j {:trigger SameCore(realms[j], realms'[j])} | j in S :: SameCore(realms[j], realms'[j])
    ensures ContextOf(realms, rank, i) == ContextOf(realms', rank', i)
    decreases rank(i)
  {
    assert NodeOk(realms, rank, i) && ParentIn(realms, S, i) && SameCore(realms[i], realms'[i]);
    if realms[i].pparent.Some? {
      ContextFrame(realms, rank, realms', rank', S, realms[i].pparent.value);
    }
  }

  ghost predicate CacheOk(realms: Realms, rank: Ino -> nat, i: Ino)
    requires Forest(realms, rank) && i in realms
  {
    realms[i].cached.seqno != 0 ==> realms[i].cached == ContextOf(realms, rank, i)
  }

  /** Outside `stale`, a filled cache slot holds the uncached context; `stale` is closed downwards. */
  ghost predicate CachesOk(realms: Realms, rank: Ino -> nat, stale: set<Ino>)
    requires Forest(realms, rank)
  {
    && UpClosed(realms, realms.Keys - stale)
    && forall i {:trigger CacheOk(realms, rank, i)} | i in realms && i !in stale :: CacheOk(realms, rank, i)
  }

  /** Realm i of realms' has a cache slot that is empty or carried over. */
  ghost predicate Carried(realms: Realms, realms': Realms, stale: set<Ino>, i: Ino)
    requires i in realms'
  {
    && (realms'[i].cached.seqno != 0 ==> i in realms && i !in stale && realms[i].cached == realms'[i].cached)
    && (i in realms ==> SameCore(realms[i], realms'[i]))
    && (i !in realms ==> realms'[i].pparent.None?)
  }

  /** Caches survive any change that keeps the core of every trusted realm still present. */
  lemma CachesFrame(realms: Realms, rank: Ino -> nat, stale: set<Ino>, realms': Realms, rank': Ino -> nat, stale': set<Ino>)
    requires Forest(realms, rank) && CachesOk(realms, rank, stale)
    requires Forest(realms', rank') && UpClosed(realms', realms'.Keys - stale')
    requires forall i {:trigger Carried(realms, realms', stale, i)} | i in realms' && i !in stale' ::
               Carried(realms, realms', stale, i)
    ensures CachesOk(realms', rank', stale')
  {
    var S := realms.Keys * (realms'.Keys - stale');
    forall i | i in S ensures ParentIn(realms, S, i) && SameCore(realms[i], realms'[i]) {
      assert Carried(realms, realms', stale, i) && ParentIn(realms', realms'.Keys - stale', i);
      assert NodeOk(realms, rank, i);
    }
    forall i | i in realms' && i !in stale' ensures CacheOk(realms', rank', i) {
      assert Carried(realms, realms', stale, i);
      if realms'[i].cached.seqno != 0 {
        assert CacheOk(realms, rank, i);
        ContextFrame(realms, rank, realms', rank', S, i);
      }
    }
  }

  lemma {:induction false} UnderTrans(realms: Realms, rank: Ino -> nat, i: Ino, j: Ino, k: Ino)
    requires Forest(realms, rank) && i in realms && j in realms
    requires Under(realms, rank, i, j) && Under(realms, rank, j, k)
    ensures Under(realms, rank, i, k)
    decreases rank(i)
  {
    assert NodeOk(realms, rank, i);
    if i != j { UnderTrans(realms, rank, realms[i].pparent.value, j, k); }
  }

  lemma {:induction false} UnderRank(realms: Realms, rank: Ino -> nat, i: Ino, root: Ino)
    requires Forest(realms, rank) && i in realms && Under(realms, rank, i, root)
    ensures root in realms && (i == root || rank(root) < rank(i))
    decreases rank(i)
  {
    assert NodeOk(realms, rank, i);
    if i != root { UnderRank(realms, rank, realms[i].pparent.value, root); }
  }

  /** Removing a realm's subtree from the trusted realms leaves an upward-closed set. */
  lemma SubtreeComplement(realms: Realms, rank: Ino -> nat, stale: set<Ino>, root: Ino)
    requires Forest(realms, rank) && UpClosed(realms, realms.Keys - stale)
    ensures UpClosed(realms, realms.Keys - (stale + Subtree(realms, rank, root)))
  {
    var S := realms.Keys - (stale + Subtree(realms, rank, root));
    forall i | i in S ensures ParentIn(realms, S, i) {
      assert NodeOk(realms, rank, i) && ParentIn(realms, realms.Keys - stale, i);
    }
  }

  /** Whatever lies below a set closed under children lies in it. */
  lemma {:induction false} UnderClosed(realms: Realms, rank: Ino -> nat, V: set<Ino>, root: Ino, i: Ino)
    requires Forest(realms, rank) && root in V && V <= realms.Keys
    requires forall j | j in V :: realms[j].pchildren <= V
    requires i in realms && Under(realms, rank, i, root)
    ensures i in V
    decreases rank(i)
  {
    assert NodeOk(realms, rank, i);
    if i != root { UnderClosed(realms, rank, V, root, realms[i].pparent.value); }
  }
}
