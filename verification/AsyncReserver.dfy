/**
 * Reservations: a bounded number of items hold a slot, the others wait in one queue per priority.
 * A slot that is free goes to the first item of the highest priority that is high enough.
 */
module AsyncReservers {
  import opened NatSets

  type Item = nat
  type Context = nat

  datatype Request = Request(item: Item, onReserved: Context)

  type Queues = map<nat, seq<Request>>

  function Names(q: seq<Request>): set<Item> { set r | r in q :: r.item }

  ghost predicate NoDup(q: seq<Request>) {
    forall i, j {:trigger q[i], q[j]} | 0 <= i < j < |q| :: q[i].item != q[j].item
  }

  predicate Queued(queues: Queues, p: nat, x: Item) {
    p in queues && x in Names(queues[p])
  }

  /** The index is exactly the queued items with their priorities, and each is queued once. */
  ghost predicate IndexOk(queues: Queues, index: map<Item, nat>) {
    && (forall x {:trigger index[x]} | x in index :: Queued(queues, index[x], x))
    && (forall p, x {:trigger Queued(queues, p, x)} | Queued(queues, p, x) :: x in index && index[x] == p)
    && (forall p {:trigger queues[p]} | p in queues :: NoDup(queues[p]))
  }

  /** What became of the callbacks: those waiting (with their items), those handed to the finisher
      in order, and those deleted. */
  datatype Callbacks = Callbacks(waiting: map<Context, Item>, finished: seq<Context>, deleted: set<Context>)

  ghost predicate CallbackOk(cb: Callbacks, r: Request) {
    r.onReserved in cb.waiting && cb.waiting[r.onReserved] == r.item
  }

  ghost predicate Distinct(s: seq<Context>) {
    forall i, j {:trigger s[i], s[j]} | 0 <= i < j < |s| :: s[i] != s[j]
  }

  /** No callback is handed out twice, and none is both handed out, or waiting, and deleted. */
  ghost predicate Settled(cb: Callbacks) {
    && Distinct(cb.finished)
    && (forall c | c in cb.finished :: c !in cb.waiting && c !in cb.deleted) && cb.waiting.Keys !! cb.deleted
  }

  ghost predicate CallbacksOk(queues: Queues, cb: Callbacks) {
    && (forall p, i {:trigger queues[p][i]} | p in queues && 0 <= i < |queues[p]| :: CallbackOk(cb, queues[p][i]))
    && Settled(cb)
  }

  ghost predicate Inv(queues: Queues, index: map<Item, nat>, inProgress: set<Item>, cb: Callbacks) {
    IndexOk(queues, index) && CallbacksOk(queues, cb) && index.Keys !! inProgress
  }

  // ---------------------------------------------------------------- the order of grants

  /** The requests of the given priorities, highest first, each in order of arrival. */
  ghost function Order(queues: Queues, keys: set<nat>): seq<Request>
    requires keys <= queues.Keys
  {
    if keys == {} then [] else queues[Max(keys)] + Order(queues, keys - {Max(keys)})
  }

  lemma {:induction false} OrderSame(queues: Queues, queues': Queues, keys: set<nat>)
    requires keys <= queues.Keys && keys <= queues'.Keys && forall p | p in keys :: queues'[p] == queues[p]
    ensures Order(queues', keys) == Order(queues, keys)
  {
    if keys != {} { OrderSame(queues, queues', keys - {Max(keys)}); }
  }

  lemma {:induction false} OrderEmpty(queues: Queues, keys: set<nat>)
    requires keys <= queues.Keys && forall p | p in keys :: queues[p] == []
    ensures Order(queues, keys) == []
  {
    if keys != {} { OrderEmpty(queues, keys - {Max(keys)}); }
  }

  /** The next grant goes to the head of the highest non-empty queue. */
  lemma {:induction false} OrderHead(queues: Queues, keys: set<nat>, p: nat)
    requires keys <= queues.Keys && p in keys && queues[p] != [] && forall x | x in keys && x > p :: queues[x] == []
    ensures Order(queues, keys) == [queues[p][0]] + Order(queues[p := queues[p][1..]], keys)
  {
    var m, queues' := Max(keys), queues[p := queues[p][1..]];
    if m == p {
      OrderSame(queues, queues', keys - {p});
      HeadTail(queues[p], Order(queues, keys - {p}));
    } else {
      OrderHead(queues, keys - {m}, p);
      NothingFirst(queues[m], Order(queues, keys - {m}));
      NothingFirst(queues'[m], Order(queues', keys - {m}));
    }
  }

  lemma NothingFirst<X>(a: seq<X>, b: seq<X>)
    requires a == []
    ensures a + b == b
  {
  }

  lemma HeadTail<X>(a: seq<X>, b: seq<X>)
    requires a != []
    ensures a + b == [a[0]] + (a[1..] + b)
  {
  }

  /** Granting the first request of priority p. */
  lemma GrantOk(queues: Queues, index: map<Item, nat>, inProgress: set<Item>, cb: Callbacks, p: nat)
    requires Inv(queues, index, inProgress, cb) && p in queues && queues[p] != []
    ensures var r := queues[p][0];
            Inv(queues[p := queues[p][1..]], index - {r.item}, inProgress + {r.item},
                Callbacks(cb.waiting - {r.onReserved}, cb.finished + [r.onReserved], cb.deleted))
    ensures queues[p][0].item in index && queues[p][0].item !in inProgress && queues[p][0].onReserved in cb.waiting
  {
    var r := queues[p][0];
    assert Queued(queues, p, r.item) && CallbackOk(cb, queues[p][0]);
    RemoveOk(queues, index, cb, p, 0);
    NoneBefore(queues[p]);
    FinishOk(queues[p := queues[p][1..]], cb, r.onReserved);
  }

  /** A callback that no queued request has any more. */
  ghost predicate Unqueued(queues: Queues, cb: Callbacks, c: Context) {
    forall x, j {:trigger queues[x][j]} | x in queues && 0 <= j < |queues[x]| ::
      CallbackOk(cb, queues[x][j]) && queues[x][j].onReserved != c
  }

  lemma FinishOk(queues: Queues, cb: Callbacks, c: Context)
    requires Unqueued(queues, cb, c) && c in cb.waiting && Settled(cb)
    ensures CallbacksOk(queues, Callbacks(cb.waiting - {c}, cb.finished + [c], cb.deleted))
  {
    var cb' := Callbacks(cb.waiting - {c}, cb.finished + [c], cb.deleted);
    forall x, j | x in queues && 0 <= j < |queues[x]| ensures CallbackOk(cb', queues[x][j]) {
      assert CallbackOk(cb, queues[x][j]);
    }
  }

  lemma DeleteOk(queues: Queues, cb: Callbacks, c: Context)
    requires Unqueued(queues, cb, c) && c in cb.waiting && Settled(cb)
    ensures CallbacksOk(queues, Callbacks(cb.waiting - {c}, cb.finished, cb.deleted + {c}))
  {
    var cb' := Callbacks(cb.waiting - {c}, cb.finished, cb.deleted + {c});
    forall x, j | x in queues && 0 <= j < |queues[x]| ensures CallbackOk(cb', queues[x][j]) {
      assert CallbackOk(cb, queues[x][j]);
    }
  }

  lemma NoneBefore<X>(q: seq<X>)
    requires q != []
    ensures q[..0] + q[0 + 1..] == q[1..]
  {
  }

  /** Removing the request at position i of priority p: it is the only one of its item and callback. */
  lemma RemoveOk(queues: Queues, index: map<Item, nat>, cb: Callbacks, p: nat, i: nat)
    requires IndexOk(queues, index) && CallbacksOk(queues, cb) && p in queues && i < |queues[p]|
    ensures var r, queues' := queues[p][i], queues[p := queues[p][..i] + queues[p][i + 1..]];
            IndexOk(queues', index - {r.item}) && Unqueued(queues', cb, r.onReserved)
  {
    var r, queues' := queues[p][i], queues[p := queues[p][..i] + queues[p][i + 1..]];
    var index' := index - {r.item};
    RemovedNames(queues[p], i);
    assert Queued(queues, p, r.item);
    forall x | x in index' ensures Queued(queues', index'[x], x) {
      assert Queued(queues, index[x], x);
    }
    forall q, x | Queued(queues', q, x) ensures x in index' && index'[x] == q {
      assert Queued(queues, q, x);
    }
    forall x, j | x in queues' && 0 <= j < |queues'[x]|
      ensures CallbackOk(cb, queues'[x][j]) && queues'[x][j].onReserved != r.onReserved
    {
      var j0 := if x == p && j >= i then j + 1 else j;
      assert queues'[x][j] == queues[x][j0];
      assert CallbackOk(cb, queues[x][j0]) && CallbackOk(cb, queues[p][i]);
      assert Queued(queues, x, queues[x][j0].item);
    }
  }

  lemma RemovedNames(q: seq<Request>, i: nat)
    requires NoDup(q) && i < |q|
    ensures NoDup(q[..i] + q[i + 1..]) && Names(q[..i] + q[i + 1..]) == Names(q) - {q[i].item}
  {
    var q' := q[..i] + q[i + 1..];
    forall x | x in Names(q) && x != q[i].item ensures x in Names(q') {
      var r :| r in q && r.item == x;
      var j :| 0 <= j < |q| && q[j] == r;
      assert q'[if j < i then j else j - 1] == r;
    }
    forall x | x in Names(q') ensures x in Names(q) && x != q[i].item {
      var r :| r in q' && r.item == x;
      var j :| 0 <= j < |q'| && q'[j] == r;
      assert r == q[if j < i then j else j + 1];
    }
  }

  /** The priorities that may be served. */
  function KeysOf(queues: Queues, min: nat): set<nat> {
    set p | p in queues && p >= min
  }

  lemma KeysSame(queues: Queues, p: nat, q: seq<Request>, min: nat)
    requires p in queues
    ensures KeysOf(queues[p := q], min) == KeysOf(queues, min)
  {
  }

  /** Who is served next, in order. */
  ghost function Line(queues: Queues, min: nat): seq<Request> {
    Order(queues, KeysOf(queues, min))
  }

  /** All priorities from p up, p excluded, have nobody waiting. */
  ghost predicate NoneAbove(queues: Queues, min: nat, p: int) {
    forall x {:trigger queues[x]} | x in queues && x >= min && x > p :: queues[x] == []
  }

  /** The priorities in `rest` are left; those above are empty, unless the slots have run out. */
  ghost predicate Done(queues: Queues, min: nat, rest: set<nat>, full: bool) {
    forall x {:trigger queues[x]} | x in queues && x >= min && x !in rest ::
      (forall y | y in rest :: x > y) && (queues[x] == [] || full)
  }

  lemma DoneAbove(queues: Queues, min: nat, rest: set<nat>, p: nat)
    requires Done(queues, min, rest, false) && p in rest && forall x | x in rest :: x <= p
    ensures NoneAbove(queues, min, p)
  {
  }

  /** The queues with the index into them, the items that hold a slot, and the callbacks. */
  datatype Desk = Desk(queues: Queues, index: map<Item, nat>, inProgress: set<Item>, cb: Callbacks)

  ghost predicate Ok(d: Desk) {
    Inv(d.queues, d.index, d.inProgress, d.cb)
  }

  ghost function Stand(d: Desk, min: nat): Standing {
    Standing(Line(d.queues, min), d.cb, d.inProgress)
  }

  function GrantTo(d: Desk, p: nat): Desk
    requires p in d.queues && d.queues[p] != []
  {
    var r := d.queues[p][0];
    Desk(d.queues[p := d.queues[p][1..]], d.index - {r.item}, d.inProgress + {r.item},
         Callbacks(d.cb.waiting - {r.onReserved}, d.cb.finished + [r.onReserved], d.cb.deleted))
  }

  lemma GrantStep(d: Desk, p: nat, min: nat)
    requires Ok(d) && p in d.queues && p >= min && d.queues[p] != [] && NoneAbove(d.queues, min, p)
    ensures Ok(GrantTo(d, p)) && Granted(Stand(d, min), Stand(GrantTo(d, p), min), 1)
    ensures |GrantTo(d, p).inProgress| == |d.inProgress| + 1 && GrantTo(d, p).inProgress <= d.inProgress + d.index.Keys
  {
    var r := d.queues[p][0];
    GrantOk(d.queues, d.index, d.inProgress, d.cb, p);
    OrderHead(d.queues, KeysOf(d.queues, min), p);
    KeysSame(d.queues, p, d.queues[p][1..], min);
    GrantedOne(Line(d.queues, min), Line(d.queues[p := d.queues[p][1..]], min), r, d.cb, d.inProgress);
  }

  /** Between d0 and d, the first n in line were granted. */
  ghost predicate Served(d0: Desk, d: Desk, min: nat, n: nat) {
    && Ok(d) && Granted(Stand(d0, min), Stand(d, min), n) && |d.inProgress| == |d0.inProgress| + n
    && d.queues.Keys == d0.queues.Keys && d.index.Keys <= d0.index.Keys && d.inProgress <= d0.inProgress + d0.index.Keys
  }

  lemma ServedNone(d: Desk, min: nat)
    requires Ok(d)
    ensures Served(d, d, min, 0)
  {
    GrantedNone(Stand(d, min));
  }

  lemma ServedMore(d0: Desk, d: Desk, min: nat, n: nat, p: nat)
    requires Served(d0, d, min, n) && p in d.queues && p >= min && d.queues[p] != [] && NoneAbove(d.queues, min, p)
    ensures Served(d0, GrantTo(d, p), min, n + 1)
  {
    GrantStep(d, p, min);
    GrantKeys(d, p);
    GrantedMore(Stand(d0, min), Stand(d, min), Stand(GrantTo(d, p), min), n);
  }

  lemma GrantKeys(d: Desk, p: nat)
    requires p in d.queues && d.queues[p] != []
    ensures GrantTo(d, p).queues.Keys == d.queues.Keys && GrantTo(d, p).index.Keys <= d.index.Keys
  {
  }

  /** The queues differ at most at p. */
  ghost predicate OnlyAt(queues: Queues, queues': Queues, p: nat) {
    p in queues && queues'.Keys == queues.Keys && forall x {:trigger queues'[x]} | x in queues && x != p :: queues'[x] == queues[x]
  }

  lemma OnlyAtAbove(queues: Queues, queues': Queues, min: nat, p: nat)
    requires OnlyAt(queues, queues', p) && NoneAbove(queues, min, p)
    ensures NoneAbove(queues', min, p)
  {
  }

  lemma OnlyAtStep(queues: Queues, queues': Queues, p: nat, q: seq<Request>)
    requires OnlyAt(queues, queues', p)
    ensures OnlyAt(queues, queues'[p := q], p)
  {
  }

  /** Grants requests of priority p while there are slots. */
  method GrantAll(ghost d0: Desk, d: Desk, max: nat, ghost min: nat, p: nat, ghost n: nat) returns (d': Desk, ghost n': nat)
    requires Served(d0, d, min, n) && p in d.queues && p >= min && NoneAbove(d.queues, min, p) && |d.inProgress| <= max
    ensures Served(d0, d', min, n') && OnlyAt(d.queues, d'.queues, p) && |d'.inProgress| <= max
    ensures |d'.inProgress| == max || d'.queues[p] == []
  {
    d', n' := d, n;
    while |d'.inProgress| < max && d'.queues[p] != []
      invariant Served(d0, d', min, n') && OnlyAt(d.queues, d'.queues, p) && |d'.inProgress| <= max
      decreases |d'.queues[p]|
    {
      OnlyAtAbove(d.queues, d'.queues, min, p);
      OnlyAtStep(d.queues, d'.queues, p, d'.queues[p][1..]);
      ServedMore(d0, d', min, n', p);
      d', n' := GrantTo(d', p), n' + 1;
    }
  }

  /** Grants as many requests as there are slots, highest priorities first. */
  method DoQueues(d0: Desk, max: nat, min: nat) returns (d: Desk, ghost n: nat)
    requires Ok(d0)
    ensures Served(d0, d, min, n) && (|d.inProgress| >= max || Line(d.queues, min) == [])
    ensures n == 0 || |d.inProgress| <= max
  {
    ServedNone(d0, min);
    d, n := d0, 0;
    var rest := KeysOf(d.queues, min);
    while rest != {} && |d.inProgress| < max
      invariant Served(d0, d, min, n) && rest <= KeysOf(d.queues, min) && Done(d.queues, min, rest, |d.inProgress| >= max)
      invariant n == 0 || |d.inProgress| <= max
    {
      var p := GreatestKey(rest);
      DoneAbove(d.queues, min, rest, p);
      ghost var before := d.queues;
      d, n := GrantAll(d0, d, max, min, p, n);
      DoneNext(before, d.queues, min, rest, p, |d.inProgress| >= max);
      rest := rest - {p};
    }
    if |d.inProgress| < max { OrderEmpty(d.queues, KeysOf(d.queues, min)); }
  }

  lemma DoneNext(queues: Queues, queues': Queues, min: nat, rest: set<nat>, p: nat, full: bool)
    requires Done(queues, min, rest, false) && p in rest && (forall x | x in rest :: x <= p) && rest <= KeysOf(queues, min)
    requires OnlyAt(queues, queues', p) && (full || queues'[p] == [])
    ensures Done(queues', min, rest - {p}, full) && rest - {p} <= KeysOf(queues', min)
  {
  }

  class AsyncReserver {
    var maxAllowed: nat
    var minPriority: nat
    var desk: Desk

    /** Nobody who could have a slot waits for one. */
    ghost predicate Idle()
      reads this
    {
      |desk.inProgress| >= maxAllowed || Line(desk.queues, minPriority) == []
    }

    constructor (max: nat, min: nat)
      ensures Ok(desk) && Idle() && desk == Desk(map[], map[], {}, Callbacks(map[], [], {}))
      ensures maxAllowed == max && minPriority == min
    {
      maxAllowed, minPriority, desk := max, min, Desk(map[], map[], {}, Callbacks(map[], [], {}));
    }

    method SetMax(max: nat) returns (ghost n: nat)
      requires Ok(desk)
      modifies this
      ensures Ok(desk) && Idle() && maxAllowed == max && minPriority == old(minPriority)
      ensures Served(old(desk), desk, minPriority, n) && (n == 0 || |desk.inProgress| <= maxAllowed)
    {
      maxAllowed := max;
      desk, n := DoQueues(desk, maxAllowed, minPriority);
    }

    method SetMinPriority(min: nat) returns (ghost n: nat)
      requires Ok(desk)
      modifies this
      ensures Ok(desk) && Idle() && minPriority == min && maxAllowed == old(maxAllowed)
      ensures Served(old(desk), desk, minPriority, n) && (n == 0 || |desk.inProgress| <= maxAllowed)
    {
      minPriority := min;
      desk, n := DoQueues(desk, maxAllowed, minPriority);
    }

    /** Asks for a slot; the item must not already wait for one or hold one, and the callback is new. */
    method RequestReservation(item: Item, onReserved: Context, prio: nat) returns (ghost n: nat)
      requires Ok(desk) && item !in desk.index && item !in desk.inProgress
      requires onReserved !in desk.cb.waiting && onReserved !in desk.cb.finished && onReserved !in desk.cb.deleted
      modifies this`desk
      ensures Ok(desk) && Idle()
      ensures Served(Joined(old(desk), prio, Request(item, onReserved)), desk, minPriority, n)
      ensures n == 0 || |desk.inProgress| <= maxAllowed
    {
      QueueOk(desk.queues, desk.index, desk.inProgress, desk.cb, prio, Request(item, onReserved));
      desk := Joined(desk, prio, Request(item, onReserved));
      desk, n := DoQueues(desk, maxAllowed, minPriority);
    }

    /** Gives up a slot, or the wait for one, in which case the callback is deleted.  `mid` is how
        things stood before free slots were granted again. */
    method CancelReservation(item: Item) returns (ghost mid: Desk, ghost n: nat)
      requires Ok(desk)
      modifies this`desk
      ensures Ok(desk) && Idle() && item !in desk.index && item !in desk.inProgress
      ensures Cancelled(old(desk), mid, minPriority, item)
      ensures Served(mid, desk, minPriority, n) && (n == 0 || |desk.inProgress| <= maxAllowed)
    {
      var d;
      if item in desk.index {
        d := Dequeue(desk, minPriority, item);
      } else {
        ReleaseOk(desk, minPriority, item);
        d := desk.(inProgress := desk.inProgress - {item});
      }
      mid := d;
      desk, n := DoQueues(d, maxAllowed, minPriority);
    }
  }

  /** The request joins the end of its queue. */
  function Joined(d: Desk, p: nat, r: Request): Desk {
    var q := if p in d.queues then d.queues[p] else [];
    Desk(d.queues[p := q + [r]], d.index[r.item := p], d.inProgress, d.cb.(waiting := d.cb.waiting[r.onReserved := r.item]))
  }

  /** The item waits no more and holds no slot; the others are as before; a callback is deleted
      exactly if the item was waiting, and it is that item's. */
  ghost predicate Cancelled(d: Desk, mid: Desk, min: nat, item: Item) {
    && Ok(mid) && Line(mid.queues, min) == Without(Line(d.queues, min), item)
    && mid.index == d.index - {item} && mid.inProgress == d.inProgress - {item} && mid.cb.finished == d.cb.finished
    && (item !in d.index ==> mid.cb == d.cb)
    && (item in d.index ==> exists c :: c in d.cb.waiting && d.cb.waiting[c] == item &&
                              mid.cb == Callbacks(d.cb.waiting - {c}, d.cb.finished, d.cb.deleted + {c}))
  }

  lemma {:induction false} ReleaseOk(d: Desk, min: nat, item: Item)
    requires Ok(d) && item !in d.index
    ensures Cancelled(d, d.(inProgress := d.inProgress - {item}), min, item)
  {
    NotQueued(d.queues, d.index, KeysOf(d.queues, min), item);
    WithoutNone(Line(d.queues, min), item);
    assert d.index - {item} == d.index;
  }

  /** Takes a waiting item out of its queue and deletes its callback. */
  method Dequeue(d: Desk, ghost min: nat, item: Item) returns (mid: Desk)
    requires Ok(d) && item in d.index
    ensures Cancelled(d, mid, min, item)
  {
    var prio := d.index[item];
    assert Queued(d.queues, prio, item);
    var i := Position(d.queues[prio], item);
    var c := d.queues[prio][i].onReserved;
    var queues := d.queues[prio := d.queues[prio][..i] + d.queues[prio][i + 1..]];
    assert CallbackOk(d.cb, d.queues[prio][i]);
    RemoveOk(d.queues, d.index, d.cb, prio, i);
    DeleteOk(queues, d.cb, c);
    OrderWithout(d.queues, d.index, KeysOf(d.queues, min), prio, i);
    KeysSame(d.queues, prio, queues[prio], min);
    mid := Desk(queues, d.index - {item}, d.inProgress, Callbacks(d.cb.waiting - {c}, d.cb.finished, d.cb.deleted + {c}));
    assert mid.inProgress == d.inProgress - {item};
  }

  /** The requests of all items but x. */
  ghost function Without(rs: seq<Request>, x: Item): seq<Request> {
    if rs == [] then [] else (if rs[0].item == x then [] else [rs[0]]) + Without(rs[1..], x)
  }

  lemma {:induction false} WithoutConcat(a: seq<Request>, b: seq<Request>, x: Item)
    ensures Without(a + b, x) == Without(a, x) + Without(b, x)
  {
    if a == [] {
      assert a + b == b;
    } else {
      assert (a + b)[1..] == a[1..] + b;
      WithoutConcat(a[1..], b, x);
    }
  }

  lemma {:induction false} WithoutNone(rs: seq<Request>, x: Item)
    requires forall i {:trigger rs[i]} | 0 <= i < |rs| :: rs[i].item != x
    ensures Without(rs, x) == rs
  {
    if rs != [] {
      WithoutNone(rs[1..], x);
      assert rs == [rs[0]] + rs[1..];
    }
  }

  lemma {:induction false} WithoutAt(rs: seq<Request>, i: nat)
    requires NoDup(rs) && i < |rs|
    ensures Without(rs, rs[i].item) == rs[..i] + rs[i + 1..]
  {
    var x := rs[i].item;
    CutAround(rs, i);
    WithoutConcat(rs[..i], rs[i..], x);
    WithoutNone(rs[..i], x);
    WithoutNone(rs[i + 1..], x);
    NothingFirst([], Without(rs[i + 1..], x));
    calc {
      Without(rs, x);
      Without(rs[..i], x) + Without(rs[i..], x);
      rs[..i] + ([] + Without(rs[i + 1..], x));
      rs[..i] + rs[i + 1..];
    }
  }

  lemma CutAround<X>(rs: seq<X>, i: nat)
    requires i < |rs|
    ensures rs == rs[..i] + rs[i..] && rs[i..][0] == rs[i] && rs[i..][1..] == rs[i + 1..]
  {
  }

  lemma {:induction false} NotQueued(queues: Queues, index: map<Item, nat>, keys: set<nat>, x: Item)
    requires IndexOk(queues, index) && keys <= queues.Keys && x !in index
    ensures forall i {:trigger Order(queues, keys)[i]} | 0 <= i < |Order(queues, keys)| :: Order(queues, keys)[i].item != x
  {
    if keys != {} {
      var m := Max(keys);
      NotQueued(queues, index, keys - {m}, x);
      forall i | 0 <= i < |queues[m]| ensures queues[m][i].item != x {
        assert queues[m][i] in queues[m];
        assert Queued(queues, m, queues[m][i].item);
      }
    }
  }

  lemma {:induction false} OrderWithout(queues: Queues, index: map<Item, nat>, keys: set<nat>, p: nat, i: nat)
    requires IndexOk(queues, index) && keys <= queues.Keys && p in queues && i < |queues[p]|
    ensures Order(queues[p := queues[p][..i] + queues[p][i + 1..]], keys) == Without(Order(queues, keys), queues[p][i].item)
  {
    var x, queues' := queues[p][i].item, queues[p := queues[p][..i] + queues[p][i + 1..]];
    if keys != {} {
      var m := Max(keys);
      OrderWithout(queues, index, keys - {m}, p, i);
      WithoutConcat(queues[m], Order(queues, keys - {m}), x);
      if m == p {
        WithoutAt(queues[p], i);
      } else {
        assert queues[p][i] in queues[p];
        assert Queued(queues, p, x);
        forall j | 0 <= j < |queues[m]| ensures queues[m][j].item != x {
          assert queues[m][j] in queues[m];
          assert Queued(queues, m, queues[m][j].item);
        }
        WithoutNone(queues[m], x);
      }
    }
  }

  method Position(q: seq<Request>, x: Item) returns (i: nat)
    requires x in Names(q)
    ensures i < |q| && q[i].item == x
  {
    i := 0;
    ghost var r :| r in q && r.item == x;
    ghost var j :| 0 <= j < |q| && q[j] == r;
    while q[i].item != x
      invariant i <= j
      decreases |q| - i
    {
      i := i + 1;
    }
  }

  /** A new request joins the end of its queue. */
  lemma QueueOk(queues: Queues, index: map<Item, nat>, inProgress: set<Item>, cb: Callbacks, p: nat, r: Request)
    requires Inv(queues, index, inProgress, cb) && r.item !in index && r.item !in inProgress
    requires r.onReserved !in cb.waiting && r.onReserved !in cb.finished && r.onReserved !in cb.deleted
    ensures var q := if p in queues then queues[p] else [];
            Inv(queues[p := q + [r]], index[r.item := p], inProgress, cb.(waiting := cb.waiting[r.onReserved := r.item]))
  {
    var q := if p in queues then queues[p] else [];
    var queues', index', cb' := queues[p := q + [r]], index[r.item := p], cb.(waiting := cb.waiting[r.onReserved := r.item]);
    NamesAdd(q, r);
    forall x | x in index' ensures Queued(queues', index'[x], x) {
      if x != r.item { assert Queued(queues, index[x], x); }
    }
    forall b, x | Queued(queues', b, x) ensures x in index' && index'[x] == b {
      assert x != r.item ==> Queued(queues, b, x);
      assert Queued(queues, b, x) ==> x in index;
    }
    assert NoDup(q + [r]) by {
      forall i | 0 <= i < |q| ensures q[i].item != r.item { assert Queued(queues, p, q[i].item); }
    }
    forall x, j | x in queues' && 0 <= j < |queues'[x]| ensures CallbackOk(cb', queues'[x][j]) {
      if !(x == p && j == |q|) { assert CallbackOk(cb, queues[x][j]); }
    }
  }

  lemma NamesAdd(q: seq<Request>, r: Request)
    ensures Names(q + [r]) == Names(q) + {r.item}
  {
    var q' := q + [r];
    forall x | x in Names(q) + {r.item} ensures x in Names(q') {
      if x == r.item { assert r in q'; } else { var e :| e in q && e.item == x; assert e in q'; }
    }
  }

  datatype Standing = Standing(line: seq<Request>, cb: Callbacks, inProgress: set<Item>)

  ghost function CallbacksOf(rs: seq<Request>): seq<Context> { seq(|rs|, i requires 0 <= i < |rs| => rs[i].onReserved) }

  /** The first n in line got a slot each, and their callbacks went to the finisher in that order. */
  ghost predicate Granted(s: Standing, t: Standing, n: int) {
    && 0 <= n <= |s.line| && t.line == s.line[n..]
    && t.cb.finished == s.cb.finished + CallbacksOf(s.line[..n]) && t.cb.deleted == s.cb.deleted
    && t.inProgress == s.inProgress + Names(s.line[..n])
  }

  lemma GrantedNone(s: Standing)
    ensures Granted(s, s, 0)
  {
    assert CallbacksOf(s.line[..0]) == [];
  }

  lemma GrantedOne(line: seq<Request>, line': seq<Request>, r: Request, cb: Callbacks, inProgress: set<Item>)
    requires line == [r] + line'
    ensures Granted(Standing(line, cb, inProgress),
                    Standing(line', Callbacks(cb.waiting - {r.onReserved}, cb.finished + [r.onReserved], cb.deleted), inProgress + {r.item}), 1)
  {
    assert line[..1] == [r];
    assert CallbacksOf([r]) == [r.onReserved];
    assert r in [r];
    assert Names([r]) == {r.item};
  }

  lemma GrantedMore(s: Standing, t: Standing, u: Standing, n: int)
    requires Granted(s, t, n) && Granted(t, u, 1)
    ensures Granted(s, u, n + 1)
  {
    var r := s.line[n];
    assert s.line[..n + 1] == s.line[..n] + [r] && t.line[..1] == [r];
    assert CallbacksOf(s.line[..n + 1]) == CallbacksOf(s.line[..n]) + CallbacksOf([r]);
    NamesAdd(s.line[..n], r);
    NamesAdd([], r);
    assert [] + [r] == [r];
  }
}
