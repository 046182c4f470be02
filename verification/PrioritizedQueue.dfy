/**
 * A queue with strict priorities and, below them, priorities that share by token buckets.
 * `high` and `queue` map each priority that has something waiting to its subqueue.
 */
module PrioritizedQueues {
  import opened NatSets
  import opened SubQueues

  type Buckets = map<nat, Sub>

  // ---------------------------------------------------------------- sums over buckets

  ghost function Sum(s: set<nat>): nat {
    if s == {} then 0 else var x :| x in s; x + Sum(s - {x})
  }

  lemma {:induction false} SumAdd(s: set<nat>, x: nat)
    requires x !in s
    ensures Sum(s + {x}) == Sum(s) + x
    decreases s
  {
    var t := s + {x};
    var y :| y in t && Sum(t) == y + Sum(t - {y});
    if y == x {
      assert t - {x} == s;
    } else {
      assert t - {y} == (s - {y}) + {x} && s == (s - {y}) + {y};
      SumAdd(s - {y}, x);
      SumAdd(s - {y}, y);
    }
  }

  lemma SumOut(s: set<nat>, x: nat)
    requires x in s
    ensures Sum(s) == Sum(s - {x}) + x
  {
    SumAdd(s - {x}, x);
    assert s - {x} + {x} == s;
  }

  lemma {:induction false} SumPositive(s: set<nat>, x: nat)
    requires x in s && x > 0
    ensures Sum(s) > 0
  {
    SumOut(s, x);
  }

  ghost function AllItems(m: Buckets): multiset<Item> {
    if m == map[] then multiset{} else var p :| p in m; Items(m[p].lanes) + AllItems(m - {p})
  }

  lemma {:induction false} ItemsOut(m: Buckets, p: nat)
    requires p in m
    ensures AllItems(m) == Items(m[p].lanes) + AllItems(m - {p})
    decreases m
  {
    var q :| q in m && AllItems(m) == Items(m[q].lanes) + AllItems(m - {q});
    if q != p {
      assert m - {q} - {p} == m - {p} - {q};
      ItemsOut(m - {q}, p);
      ItemsOut(m - {p}, q);
    }
  }

  lemma ItemsPut(m: Buckets, p: nat, s: Sub)
    ensures AllItems(m[p := s]) == Items(s.lanes) + AllItems(m - {p})
  {
    assert m[p := s] - {p} == m - {p};
    ItemsOut(m[p := s], p);
  }

  lemma ItemsAbsent(m: Buckets, p: nat)
    requires p !in m
    ensures AllItems(m - {p}) == AllItems(m)
  {
    assert m - {p} == m;
  }

  // ---------------------------------------------------------------- states

  /** What priority p has waiting of class k. */
  function At(m: Buckets, p: nat, k: nat): seq<Entry> {
    if p in m then Waiting(m[p].lanes, k) else []
  }

  ghost predicate BucketOk(s: Sub, cap: nat) {
    SubOk(s) && s.lanes != [] && s.maxTokens == cap
  }

  /** No subqueue is empty and all are well formed. */
  ghost predicate BucketsOk(m: Buckets, cap: nat) {
    forall p {:trigger BucketOk(m[p], cap)} | p in m :: BucketOk(m[p], cap)
  }

  datatype State = State(high: Buckets, queue: Buckets, total: nat, cap: nat, minCost: nat)

  ghost predicate Ok(q: State) {
    BucketsOk(q.high, 0) && BucketsOk(q.queue, q.cap) && q.total == Sum(q.queue.Keys)
  }

  function Clamp(cost: nat, minCost: nat, cap: nat): (c: nat)
    ensures c <= cap && (minCost <= cost <= cap ==> c == cost)
  {
    var c := if cost < minCost then minCost else cost;
    if c > cap then cap else c
  }

  // ---------------------------------------------------------------- enqueue

  function PushIn(m: Buckets, p: nat, cap: nat, k: nat, e: Entry, front: bool): Buckets {
    m[p := Push(if p in m then m[p] else NewSub(cap), k, e, front)]
  }

  lemma {:induction false} BucketsPut(m: Buckets, p: nat, cap: nat, s: Sub)
    requires BucketsOk(m, cap) && BucketOk(s, cap)
    ensures BucketsOk(m[p := s], cap)
  {
    var m' := m[p := s];
    forall x | x in m' ensures BucketOk(m'[x], cap) {
      if x != p { assert BucketOk(m[x], cap); }
    }
  }

  lemma {:induction false} BucketsOut(m: Buckets, p: nat, cap: nat)
    requires BucketsOk(m, cap)
    ensures BucketsOk(m - {p}, cap)
  {
    forall x | x in m - {p} ensures BucketOk((m - {p})[x], cap) { assert BucketOk(m[x], cap); }
  }

  lemma OneMore(all: multiset<Item>, all': multiset<Item>, part: multiset<Item>, part': multiset<Item>, rest: multiset<Item>, x: Item)
    requires all == part + rest && all' == part' + rest && part' == part + multiset{x}
    ensures all' == all + multiset{x}
  {
  }

  lemma {:induction false} PushInOk(m: Buckets, p: nat, cap: nat, k: nat, e: Entry, front: bool)
    requires BucketsOk(m, cap)
    ensures BucketsOk(PushIn(m, p, cap, k, e, front), cap)
    ensures AllItems(PushIn(m, p, cap, k, e, front)) == AllItems(m) + multiset{e.item}
  {
    var s := if p in m then m[p] else NewSub(cap);
    if p in m { assert BucketOk(m[p], cap); }
    PushLanes(s, k, e, front);
    BucketsPut(m, p, cap, Push(s, k, e, front));
    ItemsGrow(m, p, s, Push(s, k, e, front), e.item);
  }

  /** Subqueue p gains one item. */
  lemma {:induction false} ItemsGrow(m: Buckets, p: nat, s: Sub, t: Sub, x: Item)
    requires if p in m then s == m[p] else s.lanes == []
    requires Items(t.lanes) == Items(s.lanes) + multiset{x}
    ensures AllItems(m[p := t]) == AllItems(m) + multiset{x}
  {
    if p in m { ItemsOut(m, p); } else { ItemsAbsent(m, p); }
    ItemsPut(m, p, t);
    OneMore(AllItems(m), AllItems(m[p := t]), Items(s.lanes), Items(t.lanes), AllItems(m - {p}), x);
  }

  lemma PushInAt(m: Buckets, p: nat, cap: nat, k: nat, e: Entry, front: bool, p': nat, k': nat)
    requires BucketsOk(m, cap)
    ensures At(PushIn(m, p, cap, k, e, front), p', k') ==
            (var was := At(m, p', k');
             if p' != p || k' != k then was else if front then [e] + was else was + [e])
  {
    if p' == p {
      if p in m { assert BucketOk(m[p], cap); }
      PushWaiting(if p in m then m[p] else NewSub(cap), k, e, front, k');
    }
  }

  function Enqueued(q: State, strict: bool, k: nat, p: nat, cost: nat, item: Item, front: bool): State {
    if strict then q.(high := PushIn(q.high, p, 0, k, Entry(0, item), front))
    else q.(queue := PushIn(q.queue, p, q.cap, k, Entry(Clamp(cost, q.minCost, q.cap), item), front),
            total := if p in q.queue then q.total else q.total + p)
  }

  lemma EnqueueOk(q: State, strict: bool, k: nat, p: nat, cost: nat, item: Item, front: bool)
    requires Ok(q)
    ensures Ok(Enqueued(q, strict, k, p, cost, item, front))
  {
    if strict {
      PushInOk(q.high, p, 0, k, Entry(0, item), front);
    } else {
      var e := Entry(Clamp(cost, q.minCost, q.cap), item);
      PushInOk(q.queue, p, q.cap, k, e, front);
      assert PushIn(q.queue, p, q.cap, k, e, front).Keys == q.queue.Keys + {p};
      if p in q.queue { assert q.queue.Keys + {p} == q.queue.Keys; } else { SumAdd(q.queue.Keys, p); }
    }
  }

  // ---------------------------------------------------------------- dequeue

  predicate Eligible(s: Sub)
    requires SubOk(s) && s.lanes != []
  {
    Front(s).cost < s.tokens
  }

  ghost predicate Highest(m: Buckets, p: nat) {
    p in m && forall x | x in m :: x <= p
  }

  ghost predicate EligibleIn(m: Buckets, cap: nat, p: nat)
    requires BucketsOk(m, cap)
  {
    p in m && assert BucketOk(m[p], cap); Eligible(m[p])
  }

  /** The subqueue that is served: the lowest one with enough tokens, or else the highest. */
  ghost predicate Chosen(m: Buckets, cap: nat, p: nat)
    requires BucketsOk(m, cap)
  {
    if EligibleIn(m, cap, p) then forall x {:trigger EligibleIn(m, cap, x)} | EligibleIn(m, cap, x) :: p <= x
    else Highest(m, p) && forall x {:trigger EligibleIn(m, cap, x)} | x in m :: !EligibleIn(m, cap, x)
  }

  /** Without the front entry of subqueue p. */
  function PopIn(m: Buckets, p: nat, cap: nat): Buckets
    requires BucketsOk(m, cap) && p in m
  {
    assert BucketOk(m[p], cap);
    var s := Pop(m[p]);
    if s.lanes == [] then m - {p} else m[p := s]
  }

  lemma {:induction false} PopInOk(m: Buckets, p: nat, cap: nat)
    requires BucketsOk(m, cap) && p in m && BucketOk(m[p], cap)
    ensures BucketsOk(PopIn(m, p, cap), cap)
    ensures AllItems(m) == AllItems(PopIn(m, p, cap)) + multiset{Front(m[p]).item}
    ensures PopIn(m, p, cap).Keys == if Pop(m[p]).lanes == [] then m.Keys - {p} else m.Keys
  {
    var s := Pop(m[p]);
    PopLanes(m[p]);
    ItemsOut(m, p);
    if s.lanes == [] {
      BucketsOut(m, p, cap);
    } else {
      ItemsPut(m, p, s);
      BucketsPut(m, p, cap, s);
    }
  }

  lemma PopInAt(m: Buckets, p: nat, cap: nat, p': nat, k: nat)
    requires BucketsOk(m, cap) && p in m && BucketOk(m[p], cap)
    ensures At(m, p', k) ==
            if p' == p && Serves(m[p], k) then [Front(m[p])] + At(PopIn(m, p, cap), p', k) else At(PopIn(m, p, cap), p', k)
  {
    if p' == p { PopWaiting(m[p], k); }
  }

  function Paid(m: Buckets, p: nat, cost: nat): Buckets
    requires p in m
  {
    m[p := TakeTokens(m[p], cost)]
  }

  function Share(p: nat, cost: nat, total: nat): (n: nat)
    requires total > 0
    ensures n >= 1
  {
    p * cost / total + 1
  }

  /** Every subqueue receives its share of the tokens that were spent, and at least one. */
  function Distribute(m: Buckets, total: nat, cost: nat): Buckets {
    if total == 0 then m else map p | p in m :: PutTokens(m[p], Share(p, cost, total))
  }

  lemma DistributeOk(m: Buckets, total: nat, cost: nat, cap: nat)
    requires BucketsOk(m, cap)
    ensures BucketsOk(Distribute(m, total, cost), cap) && Distribute(m, total, cost).Keys == m.Keys
    ensures forall p | p in m :: Distribute(m, total, cost)[p].lanes == m[p].lanes && Distribute(m, total, cost)[p].cur == m[p].cur
  {
    var d := Distribute(m, total, cost);
    forall p | p in d ensures BucketOk(d[p], cap) {
      assert BucketOk(m[p], cap);
    }
  }

  /** Each subqueue keeps its lanes and gains a token unless it is full. */
  lemma DistributeAt(m: Buckets, total: nat, cost: nat, l: nat)
    requires l in m && m[l].tokens <= m[l].maxTokens
    ensures l in Distribute(m, total, cost)
    ensures var s := Distribute(m, total, cost)[l];
            && s.lanes == m[l].lanes && s.cur == m[l].cur
            && (total > 0 ==> s.tokens >= if m[l].tokens < m[l].maxTokens then m[l].tokens + 1 else m[l].maxTokens)
            && (total == 0 ==> s.tokens == m[l].tokens) && (l == 0 ==> s.tokens <= m[l].tokens + 1)
  {
    if total > 0 {
      assert Distribute(m, total, cost)[l] == PutTokens(m[l], Share(l, cost, total));
    }
  }

  lemma {:induction false} DistributeItems(m: Buckets, d: Buckets)
    requires d.Keys == m.Keys && forall p | p in m :: d[p].lanes == m[p].lanes
    ensures AllItems(d) == AllItems(m)
    decreases m
  {
    if m == map[] {
      assert d == map[];
    } else {
      var p :| p in m;
      ItemsOut(m, p);
      ItemsOut(d, p);
      DistributeItems(m - {p}, d - {p});
    }
  }

  /** The cost, the entry and the class that serving p concerns. */
  function Next(m: Buckets, p: nat, cap: nat): Entry
    requires BucketsOk(m, cap) && p in m
  {
    assert BucketOk(m[p], cap);
    Front(m[p])
  }

  /** What is left of the subqueues when p has paid, if it can, and lost its front entry. */
  function Popped(q: State, p: nat): Buckets
    requires Ok(q) && p in q.queue
  {
    assert BucketOk(q.queue[p], q.cap);
    var cost := Front(q.queue[p]).cost;
    var paid := if Eligible(q.queue[p]) then Paid(q.queue, p, cost) else q.queue;
    PaidOk(q.queue, p, cost, q.cap);
    PopIn(paid, p, q.cap)
  }

  /** Serving subqueue p of the shared priorities. */
  function Serve(q: State, p: nat): State
    requires Ok(q) && p in q.queue
  {
    var popped := Popped(q, p);
    var total := if p in popped then q.total else (SumOut(q.queue.Keys, p); q.total - p);
    q.(queue := Distribute(popped, total, Next(q.queue, p, q.cap).cost), total := total)
  }

  lemma PaidOk(m: Buckets, p: nat, cost: nat, cap: nat)
    requires BucketsOk(m, cap) && p in m
    ensures BucketsOk(Paid(m, p, cost), cap) && Paid(m, p, cost)[p].lanes == m[p].lanes && Paid(m, p, cost)[p].cur == m[p].cur
    ensures Paid(m, p, cost).Keys == m.Keys
  {
    var m' := Paid(m, p, cost);
    forall x | x in m' ensures BucketOk(m'[x], cap) {
      assert BucketOk(m[x], cap);
    }
  }

  lemma {:induction false} PoppedOk(q: State, p: nat)
    requires Ok(q) && p in q.queue
    ensures BucketsOk(Popped(q, p), q.cap) && q.queue.Keys - {p} <= Popped(q, p).Keys <= q.queue.Keys
    ensures AllItems(q.queue) == AllItems(Popped(q, p)) + multiset{Next(q.queue, p, q.cap).item}
  {
    assert BucketOk(q.queue[p], q.cap);
    var cost := Front(q.queue[p]).cost;
    PaidOk(q.queue, p, cost, q.cap);
    var paid := if Eligible(q.queue[p]) then Paid(q.queue, p, cost) else q.queue;
    DistributeItems(q.queue, paid);
    assert BucketOk(paid[p], q.cap);
    PopInOk(paid, p, q.cap);
  }

  lemma {:induction false} ServeOk(q: State, p: nat)
    requires Ok(q) && p in q.queue
    ensures Ok(Serve(q, p)) && AllItems(q.queue) == AllItems(Serve(q, p).queue) + multiset{Next(q.queue, p, q.cap).item}
    ensures q.queue.Keys - {p} <= Serve(q, p).queue.Keys <= q.queue.Keys
  {
    var popped, cost := Popped(q, p), Next(q.queue, p, q.cap).cost;
    PoppedOk(q, p);
    DistributeOk(popped, Serve(q, p).total, cost, q.cap);
    DistributeItems(popped, Serve(q, p).queue);
    SumOut(q.queue.Keys, p);
    assert p !in popped ==> popped.Keys == q.queue.Keys - {p};
    assert p in popped ==> popped.Keys == q.queue.Keys;
  }

  /** Serving a subqueue takes the front entry of one class and leaves every other order alone. */
  lemma ServeAt(q: State, p: nat, p': nat, k: nat)
    requires Ok(q) && p in q.queue
    ensures At(q.queue, p', k) ==
            if p' == p && Serves(q.queue[p], k) then [Next(q.queue, p, q.cap)] + At(Serve(q, p).queue, p', k)
            else At(Serve(q, p).queue, p', k)
  {
    assert BucketOk(q.queue[p], q.cap);
    var cost := Front(q.queue[p]).cost;
    PaidOk(q.queue, p, cost, q.cap);
    var paid := if Eligible(q.queue[p]) then Paid(q.queue, p, cost) else q.queue;
    assert BucketOk(paid[p], q.cap);
    PopInOk(paid, p, q.cap);
    PopInAt(paid, p, q.cap, p', k);
    DistributeOk(PopIn(paid, p, q.cap), Serve(q, p).total, cost, q.cap);
  }

  /** Another subqueue keeps its entries and gains tokens: none if no shared priority is left above zero,
      and at least one, for priority zero exactly one, otherwise. */
  lemma {:induction false} ServeOther(q: State, p: nat, l: nat)
    requires Ok(q) && p in q.queue && l in q.queue && l != p
    ensures l in Serve(q, p).queue && Serve(q, p).queue[l].lanes == q.queue[l].lanes && Serve(q, p).queue[l].cur == q.queue[l].cur
    ensures Serve(q, p).total > 0 ==>
              Serve(q, p).queue[l].tokens >= if q.queue[l].tokens < q.cap then q.queue[l].tokens + 1 else q.cap
    ensures Serve(q, p).total == 0 ==> Serve(q, p).queue[l].tokens == q.queue[l].tokens
    ensures l == 0 ==> Serve(q, p).queue[l].tokens <= q.queue[l].tokens + 1
    ensures l > 0 ==> Serve(q, p).total > 0
  {
    ServeOk(q, p);
    assert BucketOk(q.queue[p], q.cap) && BucketOk(q.queue[l], q.cap);
    var cost := Front(q.queue[p]).cost;
    PaidOk(q.queue, p, cost, q.cap);
    var paid := if Eligible(q.queue[p]) then Paid(q.queue, p, cost) else q.queue;
    var popped := PopIn(paid, p, q.cap);
    assert popped[l] == q.queue[l];
    DistributeAt(popped, Serve(q, p).total, cost, l);
    if l > 0 { SumPositive(Serve(q, p).queue.Keys, l); }
  }

  // ---------------------------------------------------------------- bounded waiting

  ghost predicate Lowest(m: Buckets, l: nat) {
    l in m && forall x | x in m :: l <= x
  }

  datatype Op = Put(k: nat, p: nat, cost: nat, item: Item) | Get(p: nat)

  /** Operations among the shared priorities, none of them below l. */
  ghost predicate CanDo(q: State, op: Op, l: nat) {
    Ok(q) && if op.Put? then l <= op.p else Chosen(q.queue, q.cap, op.p)
  }

  function Do(q: State, op: Op, ghost l: nat): State
    requires CanDo(q, op, l)
  {
    match op
    case Put(k, p, cost, item) => Enqueued(q, false, k, p, cost, item, false)
    case Get(p) => Serve(q, p)
  }

  ghost predicate Run(q: State, ops: seq<Op>, l: nat)
    decreases |ops|
  {
    ops == [] || (CanDo(q, ops[0], l) && Run(Do(q, ops[0], l), ops[1..], l))
  }

  ghost function After(q: State, ops: seq<Op>, l: nat, n: nat): State
    requires Run(q, ops, l) && n <= |ops|
    decreases n
  {
    if n == 0 then q else After(Do(q, ops[0], l), ops[1..], l, n - 1)
  }

  function Gets(ops: seq<Op>): nat {
    if ops == [] then 0 else (if ops[0].Get? then 1 else 0) + Gets(ops[1..])
  }

  /** The front entry of l, which costs less than the bucket can hold, waits in the lowest subqueue. */
  ghost predicate Waits(q: State, l: nat, e: Entry) {
    Ok(q) && Lowest(q.queue, l) && Next(q.queue, l, q.cap) == e && e.cost < q.cap
  }

  /** How many dequeues it can take until that entry is served. */
  function Bound(tokens: nat, cost: nat): nat {
    if tokens > cost then 1 else cost - tokens + 2
  }

  /** The entries that wait at other priorities than l. */
  ghost function Others(q: State, l: nat): nat { |AllItems(q.queue - {l})| }

  /** The tokens that priority zero is sure to get while the others are served: the last one of them to go
      brings none. */
  ghost function Spare(q: State, l: nat): nat { if Others(q, l) > 0 then Others(q, l) - 1 else 0 }

  /** Priority l gets tokens enough for cost: always if it is above zero, from the others otherwise. */
  ghost predicate Fed(q: State, l: nat, cost: nat)
    requires l in q.queue
  {
    l > 0 || cost < q.queue[l].tokens + Spare(q, l)
  }

  lemma SomeItems(m: Buckets, cap: nat, x: nat)
    requires BucketsOk(m, cap) && x in m
    ensures |AllItems(m)| > 0
  {
    assert BucketOk(m[x], cap);
    ItemsOut(m, x);
    var l := m[x].lanes;
    assert l[0].entries != [];
    assert ItemsOf(l[0].entries)[l[0].entries[0].item] > 0;
    assert l[0].entries[0].item in AllItems(m);
  }

  lemma OthersSome(q: State, l: nat, x: nat)
    requires Ok(q) && x in q.queue && x != l
    ensures Others(q, l) > 0
  {
    BucketsOut(q.queue, l, q.cap);
    SomeItems(q.queue - {l}, q.cap, x);
  }

  /** Nothing waits at other priorities if and only if there are none, and then nothing is shared out
      to priority zero. */
  lemma OthersNone(q: State, l: nat)
    requires Ok(q) && l in q.queue
    ensures Others(q, l) == 0 <==> q.queue.Keys == {l}
    ensures l == 0 ==> (Others(q, l) == 0 <==> q.total == 0)
  {
    if x :| x in q.queue && x != l {
      OthersSome(q, l, x);
      if l == 0 { SumPositive(q.queue.Keys, x); }
    } else {
      assert q.queue.Keys == {l} && q.queue - {l} == map[];
      SumAdd({}, l);
      assert {} + {l} == {l};
    }
  }

  lemma PutRest(m: Buckets, p: nat, s: Sub, l: nat)
    ensures m[p := s] - {l} == if p == l then m - {l} else (m - {l})[p := s]
  {
  }

  lemma {:induction false} OthersPut(q: State, l: nat, op: Op)
    requires Ok(q) && op.Put? && CanDo(q, op, l) && l in q.queue
    ensures Others(Do(q, op, l), l) >= Others(q, l)
  {
    var e := Entry(Clamp(op.cost, q.minCost, q.cap), op.item);
    var sub := Push(if op.p in q.queue then q.queue[op.p] else NewSub(q.cap), op.k, e, false);
    PutRest(q.queue, op.p, sub, l);
    if op.p != l {
      BucketsOut(q.queue, l, q.cap);
      PushInOk(q.queue - {l}, op.p, q.cap, op.k, e, false);
    }
  }

  lemma OthersGet(q: State, l: nat, p: nat)
    requires Ok(q) && p in q.queue && l in q.queue && p != l
    ensures l in Serve(q, p).queue && Others(Serve(q, p), l) == Others(q, l) - 1
  {
    ServeOk(q, p);
    ServeOther(q, p, l);
    ItemsOut(q.queue, l);
    ItemsOut(Serve(q, p).queue, l);
  }

  lemma PutWaits(q: State, l: nat, e: Entry, op: Op)
    requires Waits(q, l, e) && op.Put? && CanDo(q, op, l)
    ensures Waits(Do(q, op, l), l, e) && Do(q, op, l).queue[l].tokens == q.queue[l].tokens
    ensures Fed(q, l, e.cost) ==> Fed(Do(q, op, l), l, e.cost)
  {
    EnqueueOk(q, false, op.k, op.p, op.cost, op.item, false);
    assert BucketOk(q.queue[l], q.cap);
    PushBehind(q.queue[l], op.k, Entry(Clamp(op.cost, q.minCost, q.cap), op.item));
    OthersPut(q, l, op);
  }

  lemma GetWaits(q: State, l: nat, e: Entry, op: Op)
    requires Waits(q, l, e) && op.Get? && CanDo(q, op, l) && op.p != l && Fed(q, l, e.cost)
    ensures Waits(Do(q, op, l), l, e) && q.queue[l].tokens <= e.cost && Do(q, op, l).queue[l].tokens > q.queue[l].tokens
    ensures Fed(Do(q, op, l), l, e.cost)
  {
    ServeOk(q, op.p);
    ServeOther(q, op.p, l);
    OthersGet(q, l, op.p);
    OthersNone(Do(q, op, l), l);
    assert BucketOk(q.queue[l], q.cap) && BucketOk(Do(q, op, l).queue[l], q.cap);
    assert EligibleIn(q.queue, q.cap, l) ==> op.p <= l;
  }

  /** The front entry of the lowest shared priority is dequeued within cost - tokens + 2 dequeues,
      whatever else arrives at its own or higher priorities; at priority zero, if enough others wait. */
  lemma {:induction false} BoundedWait(q: State, l: nat, e: Entry, ops: seq<Op>) returns (n: nat)
    requires Waits(q, l, e) && Fed(q, l, e.cost) && Run(q, ops, l) && Gets(ops) >= Bound(q.queue[l].tokens, e.cost)
    ensures n < |ops| && ops[n] == Get(l) && Gets(ops[..n]) < Bound(q.queue[l].tokens, e.cost)
    ensures Waits(After(q, ops, l, n), l, e)
    decreases |ops|
  {
    if ops[0] == Get(l) {
      n := 0;
    } else {
      if ops[0].Put? { PutWaits(q, l, e, ops[0]); } else { GetWaits(q, l, e, ops[0]); }
      var m := BoundedWait(Do(q, ops[0], l), l, e, ops[1..]);
      n := m + 1;
      assert ops[..n][1..] == ops[1..][..m];
    }
  }

  /** At priority zero there is no bound: while its front entry finds too few tokens, an item of
      priority 5 can arrive and leave again, and the queue is as it was. */
  lemma StarvedAtZero(q: State, item: Item)
    requires Ok(q) && q.queue.Keys == {0} && BucketOk(q.queue[0], q.cap) && !Eligible(q.queue[0])
    ensures CanDo(q, Put(0, 5, 0, item), 0)
    ensures CanDo(Do(q, Put(0, 5, 0, item), 0), Get(5), 0)
    ensures Do(Do(q, Put(0, 5, 0, item), 0), Get(5), 0) == q
  {
    var q1 := Do(q, Put(0, 5, 0, item), 0);
    EnqueueOk(q, false, 0, 5, 0, item, false);
    assert q1.queue.Keys == {0, 5};
    assert BucketOk(q.queue[0], q.cap) && BucketOk(q1.queue[0], q.cap) && BucketOk(q1.queue[5], q.cap);
    assert !EligibleIn(q1.queue, q1.cap, 5) && !EligibleIn(q1.queue, q1.cap, 0);
    assert Chosen(q1.queue, q1.cap, 5);
    SumAdd({}, 0);
    assert {} + {0} == {0};
    assert Pop(q1.queue[5]).lanes == [];
    assert q1.queue - {5} == q.queue;
  }

  /** A get of priority l is never in a run that goes on like this. */
  lemma StarveMore(q: State, op: Op, l: nat, rest: seq<Op>)
    requires CanDo(q, op, l) && op != Get(l) && Run(Do(q, op, l), rest, l) && Get(l) !in rest
    ensures Run(q, [op] + rest, l) && Get(l) !in [op] + rest
    ensures Gets([op] + rest) == Gets(rest) + if op.Get? then 1 else 0
  {
    assert ([op] + rest)[1..] == rest;
  }

  /** However many dequeues there are, none need serve priority zero while it is alone. */
  lemma {:induction false} ZeroAloneStarves(q: State, item: Item, n: nat) returns (ops: seq<Op>)
    requires Ok(q) && q.queue.Keys == {0} && BucketOk(q.queue[0], q.cap) && !Eligible(q.queue[0])
    ensures Run(q, ops, 0) && Gets(ops) == n && Get(0) !in ops
    decreases n
  {
    if n == 0 {
      ops := [];
    } else {
      StarvedAtZero(q, item);
      ops := ZeroAloneStarves(q, item, n - 1);
      var put := Put(0, 5, 0, item);
      var q1 := Do(q, put, 0);
      StarveMore(q1, Get(5), 0, ops);
      StarveMore(q, put, 0, [Get(5)] + ops);
      ops := [put] + ([Get(5)] + ops);
    }
  }

  /** Priority zero waits for tokens, and those waiting above it do not bring enough. */
  ghost predicate Unfed(q: State) {
    Ok(q) && 0 in q.queue && !Fed(q, 0, Next(q.queue, 0, q.cap).cost)
  }

  lemma UnfedGet(q: State, p: nat)
    requires Unfed(q) && p in q.queue && p != 0
    ensures Unfed(Serve(q, p))
  {
    ServeOk(q, p);
    ServeOther(q, p, 0);
    OthersGet(q, 0, p);
    OthersNone(Serve(q, p), 0);
  }

  /** However many dequeues there are, none need serve priority zero if it is not fed. */
  lemma {:induction false} ZeroStarves(q: State, item: Item, n: nat) returns (ops: seq<Op>)
    requires Unfed(q)
    ensures Run(q, ops, 0) && Gets(ops) == n && Get(0) !in ops
    decreases n
  {
    assert BucketOk(q.queue[0], q.cap);
    if n == 0 {
      ops := [];
    } else if x :| x in q.queue && x != 0 {
      var p := ChooseOther(q, 0, x);
      UnfedGet(q, p);
      ops := ZeroStarves(Serve(q, p), item, n - 1);
      StarveMore(q, Get(p), 0, ops);
      ops := [Get(p)] + ops;
    } else {
      ops := ZeroAloneStarves(q, item, n);
    }
  }

  /** The front entry of l, which costs as much as the bucket can hold, waits in the lowest subqueue. */
  ghost predicate FullCost(q: State, l: nat) {
    Ok(q) && Lowest(q.queue, l) && Next(q.queue, l, q.cap).cost >= q.cap
  }

  lemma PutFull(q: State, l: nat, item: Item)
    requires FullCost(q, l)
    ensures var op := Put(0, l + 5, 0, item);
            CanDo(q, op, l) && FullCost(Do(q, op, l), l) && l + 5 in Do(q, op, l).queue
  {
    EnqueueOk(q, false, 0, l + 5, 0, item, false);
  }

  lemma GetFull(q: State, l: nat, p: nat)
    requires FullCost(q, l) && CanDo(q, Get(p), l) && p != l
    ensures FullCost(Do(q, Get(p), l), l)
  {
    ServeOk(q, p);
    ServeOther(q, p, l);
  }

  /** With another priority waiting, one that can be chosen is not l. */
  lemma ChooseOther(q: State, l: nat, x: nat) returns (p: nat)
    requires Ok(q) && Lowest(q.queue, l) && x in q.queue && x != l
    requires Next(q.queue, l, q.cap).cost >= q.queue[l].tokens
    ensures CanDo(q, Get(p), l) && p != l
  {
    var rich := set y | y in q.queue && EligibleIn(q.queue, q.cap, y);
    assert !EligibleIn(q.queue, q.cap, l) by { assert BucketOk(q.queue[l], q.cap); }
    if rich != {} {
      p := Least(rich);
      assert forall y {:trigger EligibleIn(q.queue, q.cap, y)} | EligibleIn(q.queue, q.cap, y) :: y in rich;
    } else {
      p := Max(q.queue.Keys);
      assert forall y {:trigger EligibleIn(q.queue, q.cap, y)} | y in q.queue :: !EligibleIn(q.queue, q.cap, y) by {
        assert forall y | y in q.queue :: y !in rich;
      }
    }
  }

  /** However many dequeues there are, none need serve an entry that costs as much as the bucket can hold. */
  lemma {:induction false} FullCostStarves(q: State, l: nat, item: Item, n: nat) returns (ops: seq<Op>)
    requires FullCost(q, l)
    ensures Run(q, ops, l) && Gets(ops) == n && Get(l) !in ops
    decreases n
  {
    if n == 0 {
      ops := [];
    } else {
      var put := Put(0, l + 5, 0, item);
      PutFull(q, l, item);
      var q1 := Do(q, put, l);
      assert BucketOk(q1.queue[l], q.cap);
      var p := ChooseOther(q1, l, l + 5);
      GetFull(q1, l, p);
      ops := FullCostStarves(Do(q1, Get(p), l), l, item, n - 1);
      StarveMore(q1, Get(p), l, ops);
      StarveMore(q, put, l, [Get(p)] + ops);
      ops := [put] + ([Get(p)] + ops);
    }
  }

  /** Whatever arrives at l or above, l is served within n dequeues. */
  ghost predicate ServedWithin(q: State, l: nat, n: nat) {
    forall ops {:trigger Run(q, ops, l)} | Run(q, ops, l) && Gets(ops) >= n :: Get(l) in ops
  }

  /** The lowest shared priority is certain to be served if and only if its front entry costs less than a
      bucket can hold and, at priority zero, less than its tokens and those it gets from the others. */
  lemma ServedIff(q: State, l: nat)
    requires Ok(q) && Lowest(q.queue, l)
    ensures var cost := Next(q.queue, l, q.cap).cost;
            (exists n :: ServedWithin(q, l, n)) <==> cost < q.cap && Fed(q, l, cost)
  {
    var e := Next(q.queue, l, q.cap);
    if e.cost < q.cap && Fed(q, l, e.cost) {
      var n := Bound(q.queue[l].tokens, e.cost);
      forall ops {:trigger Run(q, ops, l)} | Run(q, ops, l) && Gets(ops) >= n ensures Get(l) in ops {
        var i := BoundedWait(q, l, e, ops);
      }
      assert ServedWithin(q, l, n);
    } else {
      forall n: nat ensures !ServedWithin(q, l, n) {
        var ops;
        if e.cost >= q.cap { ops := FullCostStarves(q, l, 0, n); } else { ops := ZeroStarves(q, 0, n); }
        assert Run(q, ops, l);
      }
    }
  }

  // ---------------------------------------------------------------- order and conservation

  /** All operations: arrivals, and departures from the strict or the shared priorities. */
  datatype Event = Arrive(strict: bool, k: nat, p: nat, cost: nat, item: Item) | Leave(strict: bool, p: nat)

  /** Strict items leave first, highest priority first. */
  ghost predicate CanHappen(q: State, ev: Event) {
    Ok(q) && match ev
             case Arrive(_, _, _, _, _) => true
             case Leave(strict, p) =>
               if strict then Highest(q.high, p) else q.high == map[] && Chosen(q.queue, q.cap, p)
  }

  function Happen(q: State, ev: Event): State
    requires CanHappen(q, ev)
  {
    match ev
    case Arrive(strict, k, p, cost, item) => Enqueued(q, strict, k, p, cost, item, false)
    case Leave(strict, p) => if strict then q.(high := PopIn(q.high, p, 0)) else Serve(q, p)
  }

  function Side(q: State, strict: bool): Buckets { if strict then q.high else q.queue }

  /** The entry that an arrival brings to (strict, p, k), or a departure takes from it. */
  function Brought(q: State, ev: Event, strict: bool, p: nat, k: nat): seq<Entry> {
    if ev.Arrive? && ev.strict == strict && ev.p == p && ev.k == k
    then [Entry(if strict then 0 else Clamp(ev.cost, q.minCost, q.cap), ev.item)] else []
  }

  ghost function Left(q: State, ev: Event, strict: bool, p: nat, k: nat): seq<Entry>
    requires CanHappen(q, ev)
  {
    if ev.Leave? && ev.strict == strict && ev.p == p && Serves(Side(q, strict)[p], k)
    then [Next(Side(q, strict), p, if strict then 0 else q.cap)] else []
  }

  lemma HappenOk(q: State, ev: Event)
    requires CanHappen(q, ev)
    ensures Ok(Happen(q, ev)) && Happen(q, ev).minCost == q.minCost && Happen(q, ev).cap == q.cap
  {
    match ev
    case Arrive(strict, k, p, cost, item) => EnqueueOk(q, strict, k, p, cost, item, false);
    case Leave(strict, p) =>
      if strict { assert BucketOk(q.high[p], 0); PopInOk(q.high, p, 0); } else { ServeOk(q, p); }
  }

  /** One event adds at the back or takes from the front of one class's line. */
  lemma HappenAt(q: State, ev: Event, strict: bool, p: nat, k: nat)
    requires CanHappen(q, ev)
    ensures At(Side(q, strict), p, k) + Brought(q, ev, strict, p, k) == Left(q, ev, strict, p, k) + At(Side(Happen(q, ev), strict), p, k)
  {
    match ev
    case Arrive(st, k', p', cost, item) =>
      if st { PushInAt(q.high, p', 0, k', Entry(0, item), false, p, k); }
      else { PushInAt(q.queue, p', q.cap, k', Entry(Clamp(cost, q.minCost, q.cap), item), false, p, k); }
    case Leave(st, p') =>
      if st { assert BucketOk(q.high[p'], 0); PopInAt(q.high, p', 0, p, k); } else { ServeAt(q, p', p, k); }
  }

  ghost predicate History(q: State, evs: seq<Event>)
    decreases |evs|
  {
    evs == [] || (CanHappen(q, evs[0]) && History(Happen(q, evs[0]), evs[1..]))
  }

  ghost function Final(q: State, evs: seq<Event>): State
    requires History(q, evs)
    decreases |evs|
  {
    if evs == [] then q else Final(Happen(q, evs[0]), evs[1..])
  }

  ghost function AllBrought(q: State, evs: seq<Event>, strict: bool, p: nat, k: nat): seq<Entry>
    requires History(q, evs)
    decreases |evs|
  {
    if evs == [] then [] else Brought(q, evs[0], strict, p, k) + AllBrought(Happen(q, evs[0]), evs[1..], strict, p, k)
  }

  ghost function AllLeft(q: State, evs: seq<Event>, strict: bool, p: nat, k: nat): seq<Entry>
    requires History(q, evs)
    decreases |evs|
  {
    if evs == [] then [] else Left(q, evs[0], strict, p, k) + AllLeft(Happen(q, evs[0]), evs[1..], strict, p, k)
  }

  /** Over any history, what left a class's line is the beginning of what was there and came in:
      first in, first out. */
  lemma {:induction false} Fifo(q: State, evs: seq<Event>, strict: bool, p: nat, k: nat)
    requires Ok(q) && History(q, evs)
    ensures At(Side(q, strict), p, k) + AllBrought(q, evs, strict, p, k) ==
            AllLeft(q, evs, strict, p, k) + At(Side(Final(q, evs), strict), p, k)
    decreases |evs|
  {
    if evs != [] {
      var q1 := Happen(q, evs[0]);
      HappenAt(q, evs[0], strict, p, k);
      HappenOk(q, evs[0]);
      Fifo(q1, evs[1..], strict, p, k);
      Shuffle(At(Side(q, strict), p, k), Brought(q, evs[0], strict, p, k), AllBrought(q1, evs[1..], strict, p, k),
              Left(q, evs[0], strict, p, k), At(Side(q1, strict), p, k), AllLeft(q1, evs[1..], strict, p, k),
              At(Side(Final(q, evs), strict), p, k));
    }
  }

  lemma Shuffle<X>(a: seq<X>, b: seq<X>, bs: seq<X>, l: seq<X>, m: seq<X>, ls: seq<X>, z: seq<X>)
    requires a + b == l + m && m + bs == ls + z
    ensures a + (b + bs) == (l + ls) + z
  {
    Assoc(a, b, bs);
    Assoc(l, m, bs);
    Assoc(l, ls, z);
  }

  ghost function Holds(q: State): multiset<Item> { AllItems(q.high) + AllItems(q.queue) }

  lemma Arrives(q: State, strict: bool, k: nat, p: nat, cost: nat, item: Item, front: bool)
    requires Ok(q)
    ensures Holds(Enqueued(q, strict, k, p, cost, item, front)) == Holds(q) + multiset{item}
  {
    if strict {
      PushInOk(q.high, p, 0, k, Entry(0, item), front);
      OneMore(Holds(q), Holds(Enqueued(q, strict, k, p, cost, item, front)), AllItems(q.high),
              AllItems(PushIn(q.high, p, 0, k, Entry(0, item), front)), AllItems(q.queue), item);
    } else {
      var e := Entry(Clamp(cost, q.minCost, q.cap), item);
      PushInOk(q.queue, p, q.cap, k, e, front);
      assert AllItems(q.high) + AllItems(q.queue) == AllItems(q.queue) + AllItems(q.high);
    }
  }

  lemma Departs(q: State, strict: bool, p: nat)
    requires CanHappen(q, Leave(strict, p))
    ensures Holds(q) == Holds(Happen(q, Leave(strict, p))) + multiset{Next(Side(q, strict), p, if strict then 0 else q.cap).item}
  {
    if strict {
      assert BucketOk(q.high[p], 0);
      PopInOk(q.high, p, 0);
    } else {
      ServeOk(q, p);
    }
  }

  /** One event adds or takes exactly its own item. */
  lemma Conserved(q: State, ev: Event)
    requires CanHappen(q, ev)
    ensures match ev
            case Arrive(_, _, _, _, item) => Holds(Happen(q, ev)) == Holds(q) + multiset{item}
            case Leave(strict, p) =>
              Holds(q) == Holds(Happen(q, ev)) + multiset{Next(Side(q, strict), p, if strict then 0 else q.cap).item}
  {
    match ev
    case Arrive(strict, k, p, cost, item) => Arrives(q, strict, k, p, cost, item, false);
    case Leave(strict, p) => Departs(q, strict, p);
  }

  // ---------------------------------------------------------------- the queue in place

  /** Gives every subqueue its tokens, one after the other. */
  method DistributeTokens(m: Buckets, total: nat, cost: nat) returns (d: Buckets)
    ensures d == Distribute(m, total, cost)
  {
    d := m;
    if total == 0 { return; }
    var rest := m.Keys;
    while rest != {}
      invariant rest <= m.Keys == d.Keys
      invariant forall p | p in m :: d[p] == if p in rest then m[p] else PutTokens(m[p], Share(p, cost, total))
    {
      var p :| p in rest;
      d := d[p := PutTokens(m[p], Share(p, cost, total))];
      rest := rest - {p};
    }
  }

  /** The subqueue to serve: the first in ascending order that can pay for its front entry, or else the last. */
  method Choose(m: Buckets, ghost cap: nat) returns (p: nat)
    requires BucketsOk(m, cap) && m != map[]
    ensures Chosen(m, cap, p)
  {
    var rest := m.Keys;
    assert m.Keys == {} ==> m == map[];
    while rest != {}
      invariant rest <= m.Keys
      invariant forall x {:trigger EligibleIn(m, cap, x)} | x in m && x !in rest :: !EligibleIn(m, cap, x)
    {
      p := LeastKey(rest);
      assert BucketOk(m[p], cap);
      if Front(m[p]).cost < m[p].tokens {
        assert EligibleIn(m, cap, p);
        return;
      }
      assert !EligibleIn(m, cap, p);
      rest := rest - {p};
    }
    p := GreatestKey(m.Keys);
    assert !EligibleIn(m, cap, p);
  }

  class PrioritizedQueue {
    var high: Buckets
    var queue: Buckets
    var totalPriority: nat
    const maxTokens: nat
    const minCost: nat

    ghost function St(): State
      reads this
    {
      State(high, queue, totalPriority, maxTokens, minCost)
    }

    constructor (maxPer: nat, minC: nat)
      ensures Ok(St()) && Holds(St()) == multiset{} && maxTokens == maxPer && minCost == minC
    {
      high, queue, totalPriority, maxTokens, minCost := map[], map[], 0, maxPer, minC;
    }

    /** Queues an item of class k at priority p, strictly or for a share, behind or in front of its class. */
    method Enqueue(strict: bool, k: nat, p: nat, cost: nat, item: Item, front: bool)
      requires Ok(St())
      modifies this`high, this`queue, this`totalPriority
      ensures Ok(St()) && St() == Enqueued(old(St()), strict, k, p, cost, item, front)
    {
      EnqueueOk(St(), strict, k, p, cost, item, front);
      if strict {
        var s := if p in high then high[p] else NewSub(0);
        high := high[p := Push(s, k, Entry(0, item), front)];
      } else {
        var c := cost;
        if c < minCost { c := minCost; }
        if c > maxTokens { c := maxTokens; }
        if p !in queue {
          totalPriority := totalPriority + p;
          queue := queue[p := NewSub(maxTokens)];
        }
        queue := queue[p := Push(queue[p], k, Entry(c, item), front)];
        assert queue == PushIn(old(queue), p, maxTokens, k, Entry(c, item), front);
      }
    }

    /** Dequeues the next item; `ev` says from where it came. */
    method Dequeue() returns (item: Item, ghost ev: Event)
      requires Ok(St()) && (high != map[] || queue != map[])
      modifies this`high, this`queue, this`totalPriority
      ensures ev.Leave? && CanHappen(old(St()), ev) && Ok(St()) && St() == Happen(old(St()), ev)
      ensures item == Next(Side(old(St()), ev.strict), ev.p, if ev.strict then 0 else maxTokens).item
    {
      if high != map[] {
        assert high.Keys == {} ==> high == map[];
        var p := GreatestKey(high.Keys);
        ev := Leave(true, p);
        HappenOk(St(), ev);
        assert BucketOk(high[p], 0);
        item := Front(high[p]).item;
        var s := Pop(high[p]);
        high := if s.lanes == [] then high - {p} else high[p := s];
      } else {
        var p := Choose(queue, maxTokens);
        ev := Leave(false, p);
        HappenOk(St(), ev);
        item := ServeFrom(p);
      }
    }

    /** Takes the front entry of subqueue p and hands out the tokens that it costs. */
    method ServeFrom(p: nat) returns (item: Item)
      requires Ok(St()) && p in queue
      modifies this`queue, this`totalPriority
      ensures St() == Serve(old(St()), p) && item == Next(old(queue), p, maxTokens).item
    {
      assert BucketOk(queue[p], maxTokens);
      var cost := Front(queue[p]).cost;
      item := Front(queue[p]).item;
      PaidOk(queue, p, cost, maxTokens);
      SumOut(queue.Keys, p);
      if cost < queue[p].tokens { queue := queue[p := TakeTokens(queue[p], cost)]; }
      assert BucketOk(queue[p], maxTokens);
      var s := Pop(queue[p]);
      if s.lanes == [] {
        queue, totalPriority := queue - {p}, totalPriority - p;
      } else {
        queue := queue[p := s];
      }
      queue := DistributeTokens(queue, totalPriority, cost);
    }

    /** The number of items waiting. */
    method Length() returns (n: nat)
      requires Ok(St())
      ensures n == |Holds(St())|
    {
      var a := LengthOf(high, 0);
      var b := LengthOf(queue, maxTokens);
      n := a + b;
    }

    /** Removes the matching items, collecting them. */
    method RemoveByFilter(f: Item -> bool, out: seq<Item>) returns (out': seq<Item>)
      requires Ok(St())
      modifies this`high, this`queue, this`totalPriority
      ensures Ok(St()) && Holds(St()) + multiset(out') == old(Holds(St())) + multiset(out)
      ensures forall p, k {:trigger At(queue, p, k)} :: At(queue, p, k) == Keep(At(old(queue), p, k), f)
      ensures forall p, k {:trigger At(high, p, k)} :: At(high, p, k) == Keep(At(old(high), p, k), f)
    {
      var q, mid, gone := FilterBuckets(queue, maxTokens, f, out);
      var h, end, _ := FilterBuckets(high, 0, f, mid);
      BothSides(AllItems(queue), AllItems(high), AllItems(q), AllItems(h), multiset(out), multiset(mid), multiset(end));
      queue, totalPriority, high, out' := q, totalPriority - gone, h, end;
    }

    /** Removes all items of one class, collecting them. */
    method RemoveByClass(c: nat, out: seq<Item>) returns (out': seq<Item>)
      requires Ok(St())
      modifies this`high, this`queue, this`totalPriority
      ensures Ok(St()) && Holds(St()) + multiset(out') == old(Holds(St())) + multiset(out)
      ensures forall p, k {:trigger At(queue, p, k)} :: At(queue, p, k) == if k == c then [] else At(old(queue), p, k)
      ensures forall p, k {:trigger At(high, p, k)} :: At(high, p, k) == if k == c then [] else At(old(high), p, k)
    {
      var q, mid, gone := ClassBuckets(queue, maxTokens, c, out);
      var h, end, _ := ClassBuckets(high, 0, c, mid);
      BothSides(AllItems(queue), AllItems(high), AllItems(q), AllItems(h), multiset(out), multiset(mid), multiset(end));
      queue, totalPriority, high, out' := q, totalPriority - gone, h, end;
    }
  }

  // ---------------------------------------------------------------- removal and length

  lemma BothSides(q: multiset<Item>, h: multiset<Item>, q': multiset<Item>, h': multiset<Item>, out: multiset<Item>, mid: multiset<Item>, end: multiset<Item>)
    requires q' + mid == q + out && h' + end == h + mid
    ensures (h' + q') + end == (h + q) + out
  {
    calc {
      (h' + q') + end;
      q' + (h' + end);
      h + (q' + mid);
      (h + q) + out;
    }
  }

  function LanesOf(m: Buckets, p: nat): seq<Lane> { if p in m then m[p].lanes else [] }

  /** Subqueue p replaced, or removed when nothing is left of it. */
  function Replaced(m: Buckets, p: nat, t: Sub): Buckets {
    if t.lanes == [] then m - {p} else m[p := t]
  }

  lemma LanesReplaced(m: Buckets, p: nat, t: Sub)
    ensures forall x {:trigger LanesOf(Replaced(m, p, t), x)} ::
              LanesOf(Replaced(m, p, t), x) == if x == p then t.lanes else LanesOf(m, x)
  {
  }

  lemma {:induction false} ReplacedOk(m: Buckets, p: nat, t: Sub, cap: nat, removed: multiset<Item>)
    requires BucketsOk(m, cap) && p in m && SubOk(t) && t.maxTokens == cap && Items(m[p].lanes) == Items(t.lanes) + removed
    ensures BucketsOk(Replaced(m, p, t), cap) && AllItems(m) == AllItems(Replaced(m, p, t)) + removed
    ensures Sum(m.Keys) == Sum(Replaced(m, p, t).Keys) + if t.lanes == [] then p else 0
  {
    ItemsOut(m, p);
    if t.lanes == [] {
      BucketsOut(m, p, cap);
      SumOut(m.Keys, p);
      assert (m - {p}).Keys == m.Keys - {p};
    } else {
      BucketsPut(m, p, cap, t);
      ItemsPut(m, p, t);
      assert m[p := t].Keys == m.Keys;
    }
  }

  /** The part of a removal that has been done: all priorities but `rest`. */
  ghost predicate Removing(m: Buckets, m': Buckets, cap: nat, rest: set<nat>, out: seq<Item>, out': seq<Item>, gone: nat) {
    && BucketsOk(m', cap) && rest <= m.Keys && rest <= m'.Keys && (forall p | p in rest :: m'[p] == m[p])
    && Sum(m'.Keys) + gone == Sum(m.Keys) && AllItems(m') + multiset(out') == AllItems(m) + multiset(out)
  }

  lemma {:induction false} RemovingStep(m: Buckets, m': Buckets, cap: nat, rest: set<nat>, out: seq<Item>, out': seq<Item>, gone: nat,
                                           p: nat, t: Sub, removed: seq<Item>)
    requires Removing(m, m', cap, rest, out, out', gone) && p in rest && SubOk(t) && t.maxTokens == cap
    requires Items(m[p].lanes) == Items(t.lanes) + multiset(removed)
    ensures Removing(m, Replaced(m', p, t), cap, rest - {p}, out, removed + out', gone + if t.lanes == [] then p else 0)
  {
    ReplacedOk(m', p, t, cap, multiset(removed));
    assert multiset(removed + out') == multiset(removed) + multiset(out');
  }

  method FilterBuckets(m: Buckets, ghost cap: nat, f: Item -> bool, out: seq<Item>)
    returns (m': Buckets, out': seq<Item>, gone: nat)
    requires BucketsOk(m, cap)
    ensures BucketsOk(m', cap) && Sum(m'.Keys) + gone == Sum(m.Keys) && AllItems(m') + multiset(out') == AllItems(m) + multiset(out)
    ensures forall p, k {:trigger At(m', p, k)} :: At(m', p, k) == Keep(At(m, p, k), f)
  {
    m', out', gone := m, out, 0;
    var rest := m.Keys;
    while rest != {}
      invariant Removing(m, m', cap, rest, out, out', gone) && Filtering(m, m', rest, f)
    {
      var p := LeastKey(rest);
      assert BucketOk(m[p], cap);
      var t, o := SubQueues.RemoveByFilter(m[p], f, out');
      FilterOne(m, m', cap, rest, out, out', gone, f, p, t);
      m', out', gone := Replaced(m', p, t), o, gone + if t.lanes == [] then p else 0;
      rest := rest - {p};
    }
    forall p, k ensures At(m', p, k) == Keep(At(m, p, k), f) { FilteredAt(m, m', cap, f, p, k); }
  }

  /** The matching entries are gone from all priorities but those in `rest`. */
  ghost predicate Filtering(m: Buckets, m': Buckets, rest: set<nat>, f: Item -> bool) {
    && m'.Keys <= m.Keys
    && forall p {:trigger LanesOf(m', p)} | p in m && p !in rest :: LanesOf(m', p) == KeepLanes(m[p].lanes, f)
  }

  lemma {:induction false} FilterOne(m: Buckets, m': Buckets, cap: nat, rest: set<nat>, out: seq<Item>, out': seq<Item>, gone: nat,
                                        f: Item -> bool, p: nat, t: Sub)
    requires BucketsOk(m, cap) && Removing(m, m', cap, rest, out, out', gone) && Filtering(m, m', rest, f) && p in rest
    requires SubOk(t) && t.maxTokens == cap && t.lanes == KeepLanes(m[p].lanes, f)
    ensures Removing(m, Replaced(m', p, t), cap, rest - {p}, out, DropLanes(m[p].lanes, f) + out', gone + if t.lanes == [] then p else 0)
    ensures Filtering(m, Replaced(m', p, t), rest - {p}, f)
  {
    KeepItems(m[p].lanes, f);
    RemovingStep(m, m', cap, rest, out, out', gone, p, t, DropLanes(m[p].lanes, f));
    LanesReplaced(m', p, t);
  }

  lemma {:induction false} FilteredAt(m: Buckets, m': Buckets, cap: nat, f: Item -> bool, p: nat, k: nat)
    requires BucketsOk(m, cap) && Filtering(m, m', {}, f)
    ensures At(m', p, k) == Keep(At(m, p, k), f)
  {
    if p in m {
      assert BucketOk(m[p], cap) && LanesOf(m', p) == KeepLanes(m[p].lanes, f);
      KeepWaiting(m[p].lanes, f, k);
    }
  }

  method ClassBuckets(m: Buckets, ghost cap: nat, c: nat, out: seq<Item>)
    returns (m': Buckets, out': seq<Item>, gone: nat)
    requires BucketsOk(m, cap)
    ensures BucketsOk(m', cap) && Sum(m'.Keys) + gone == Sum(m.Keys) && AllItems(m') + multiset(out') == AllItems(m) + multiset(out)
    ensures forall p, k {:trigger At(m', p, k)} :: At(m', p, k) == if k == c then [] else At(m, p, k)
  {
    m', out', gone := m, out, 0;
    var rest := m.Keys;
    while rest != {}
      invariant Removing(m, m', cap, rest, out, out', gone) && Cleared(m, m', rest, c)
    {
      var p := LeastKey(rest);
      ClearStep(m, m', cap, rest, out, out', gone, c, p);
      var t := WithoutClass(m[p], c);
      m', out', gone := Replaced(m', p, t), JustItems(Waiting(m[p].lanes, c)) + out', gone + if t.lanes == [] then p else 0;
      rest := rest - {p};
    }
    forall p, k ensures At(m', p, k) == if k == c then [] else At(m, p, k) { ClearedAt(m, m', cap, c, p, k); }
  }

  /** Class c is gone from all priorities but those in `rest`. */
  ghost predicate Cleared(m: Buckets, m': Buckets, rest: set<nat>, c: nat) {
    && m'.Keys <= m.Keys
    && forall p {:trigger LanesOf(m', p)} | p in m && p !in rest :: LanesOf(m', p) == WithoutClass(m[p], c).lanes
  }

  lemma {:induction false} ClearStep(m: Buckets, m': Buckets, cap: nat, rest: set<nat>, out: seq<Item>, out': seq<Item>, gone: nat,
                                        c: nat, p: nat)
    requires BucketsOk(m, cap) && Removing(m, m', cap, rest, out, out', gone) && Cleared(m, m', rest, c) && p in rest
    ensures var t := WithoutClass(m[p], c);
            && Removing(m, Replaced(m', p, t), cap, rest - {p}, out, JustItems(Waiting(m[p].lanes, c)) + out',
                        gone + if t.lanes == [] then p else 0)
            && Cleared(m, Replaced(m', p, t), rest - {p}, c)
  {
    assert BucketOk(m[p], cap);
    WithoutClassOk(m[p], c);
    RemovingStep(m, m', cap, rest, out, out', gone, p, WithoutClass(m[p], c), JustItems(Waiting(m[p].lanes, c)));
    LanesReplaced(m', p, WithoutClass(m[p], c));
  }

  lemma {:induction false} ClearedAt(m: Buckets, m': Buckets, cap: nat, c: nat, p: nat, k: nat)
    requires BucketsOk(m, cap) && Cleared(m, m', {}, c)
    ensures At(m', p, k) == if k == c then [] else At(m, p, k)
  {
    if p in m {
      assert BucketOk(m[p], cap) && LanesOf(m', p) == WithoutClass(m[p], c).lanes;
      WithoutClassWaiting(m[p], c, k);
    }
  }

  lemma {:induction false} CountIsItems(lanes: seq<Lane>)
    ensures Count(lanes) == |Items(lanes)|
  {
    if lanes != [] {
      CountIsItems(lanes[1..]);
      JustItemsOf(lanes[0].entries);
    }
  }

  method LengthOf(m: Buckets, ghost cap: nat) returns (n: nat)
    requires BucketsOk(m, cap)
    ensures n == |AllItems(m)|
  {
    n := 0;
    var rest := m;
    while rest != map[]
      invariant rest.Keys <= m.Keys && (forall p | p in rest :: rest[p] == m[p]) && n + |AllItems(rest)| == |AllItems(m)|
      decreases |rest.Keys|
    {
      assert rest.Keys == {} ==> rest == map[];
      var p := LeastKey(rest.Keys);
      assert BucketOk(m[p], cap);
      ItemsOut(rest, p);
      CountIsItems(m[p].lanes);
      n := n + m[p].size;
      assert (rest - {p}).Keys == rest.Keys - {p};
      rest := rest - {p};
    }
  }
}
