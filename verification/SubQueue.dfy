/**
 * One priority level of a prioritized queue: a token bucket over lanes, one lane per class of
 * client, which are served round robin in the order of their classes.
 */
module SubQueues {

  type Item = nat

  datatype Entry = Entry(cost: nat, item: Item)

  datatype Lane = Lane(cl: nat, entries: seq<Entry>)

  /** The lanes in ascending order of their classes; `cur` is the lane to serve next. */
  datatype Sub = Sub(lanes: seq<Lane>, tokens: nat, maxTokens: nat, size: nat, cur: nat)

  function NewSub(maxTokens: nat): Sub {
    Sub([], 0, maxTokens, 0, 0)
  }

  ghost predicate Ascending(lanes: seq<Lane>) {
    forall i, j {:trigger lanes[i], lanes[j]} | 0 <= i < j < |lanes| :: lanes[i].cl < lanes[j].cl
  }

  ghost predicate NoEmptyLane(lanes: seq<Lane>) {
    forall i {:trigger lanes[i]} | 0 <= i < |lanes| :: lanes[i].entries != []
  }

  function Count(lanes: seq<Lane>): nat {
    if lanes == [] then 0 else |lanes[0].entries| + Count(lanes[1..])
  }

  ghost predicate SubOk(s: Sub) {
    && Ascending(s.lanes) && NoEmptyLane(s.lanes) && s.size == Count(s.lanes)
    && s.tokens <= s.maxTokens && (if s.lanes == [] then s.cur == 0 else s.cur < |s.lanes|)
  }

  /** What class k has waiting, in order. */
  function Waiting(lanes: seq<Lane>, k: nat): seq<Entry> {
    if lanes == [] then [] else if lanes[0].cl == k then lanes[0].entries else Waiting(lanes[1..], k)
  }

  ghost function ItemsOf(es: seq<Entry>): multiset<Item> {
    if es == [] then multiset{} else multiset{es[0].item} + ItemsOf(es[1..])
  }

  /** All items. */
  ghost function Items(lanes: seq<Lane>): multiset<Item> {
    if lanes == [] then multiset{} else ItemsOf(lanes[0].entries) + Items(lanes[1..])
  }

  lemma {:induction false} ItemsConcat(a: seq<Entry>, b: seq<Entry>)
    ensures ItemsOf(a + b) == ItemsOf(a) + ItemsOf(b)
  {
    if a == [] {
      assert a + b == b;
    } else {
      TailConcat(a, b);
      ItemsConcat(a[1..], b);
    }
  }

  // ---------------------------------------------------------------- lanes

  lemma SplitAt(lanes: seq<Lane>, i: nat)
    requires i < |lanes|
    ensures lanes == lanes[..i] + [lanes[i]] + lanes[i + 1..]
  {
  }

  lemma SplitGap(lanes: seq<Lane>, i: nat)
    requires i <= |lanes|
    ensures lanes == lanes[..i] + [] + lanes[i..]
  {
  }

  lemma {:induction false} CountConcat(a: seq<Lane>, b: seq<Lane>)
    ensures Count(a + b) == Count(a) + Count(b) && Items(a + b) == Items(a) + Items(b)
  {
    if a == [] {
      assert a + b == b;
    } else {
      TailConcat(a, b);
      CountConcat(a[1..], b);
    }
  }

  lemma {:induction false} WaitingAt(lanes: seq<Lane>, i: nat)
    requires Ascending(lanes) && i < |lanes|
    ensures Waiting(lanes, lanes[i].cl) == lanes[i].entries
  {
    if i > 0 { WaitingAt(lanes[1..], i - 1); }
  }

  lemma {:induction false} WaitingNone(lanes: seq<Lane>, k: nat)
    requires forall i {:trigger lanes[i]} | 0 <= i < |lanes| :: lanes[i].cl != k
    ensures Waiting(lanes, k) == []
  {
    if lanes != [] { WaitingNone(lanes[1..], k); }
  }

  /** Replacing, inserting or removing a lane only matters to its class. */
  lemma {:induction false} WaitingMiddle(a: seq<Lane>, x: seq<Lane>, y: seq<Lane>, b: seq<Lane>, c: nat, k: nat)
    requires k != c && (forall l | l in x :: l.cl == c) && forall l | l in y :: l.cl == c
    ensures Waiting(a + x + b, k) == Waiting(a + y + b, k)
    decreases |a|
  {
    if a == [] {
      assert a + x + b == x + b && a + y + b == y + b;
      WaitingSkip(x, b, c, k);
      WaitingSkip(y, b, c, k);
    } else {
      assert (a + x + b)[1..] == a[1..] + x + b && (a + y + b)[1..] == a[1..] + y + b;
      WaitingMiddle(a[1..], x, y, b, c, k);
    }
  }

  lemma {:induction false} WaitingSkip(x: seq<Lane>, b: seq<Lane>, c: nat, k: nat)
    requires k != c && forall l | l in x :: l.cl == c
    ensures Waiting(x + b, k) == Waiting(b, k)
  {
    if x == [] {
      assert x + b == b;
    } else {
      assert (x + b)[1..] == x[1..] + b;
      WaitingSkip(x[1..], b, c, k);
    }
  }

  /** The first lane whose class is not before k. */
  function Slot(lanes: seq<Lane>, k: nat): (i: nat)
    ensures i <= |lanes| && (i < |lanes| ==> k <= lanes[i].cl)
    ensures forall j {:trigger lanes[j]} | 0 <= j < i :: lanes[j].cl < k
  {
    if lanes == [] || k <= lanes[0].cl then 0 else 1 + Slot(lanes[1..], k)
  }

  predicate Present(lanes: seq<Lane>, k: nat) {
    var i := Slot(lanes, k);
    i < |lanes| && lanes[i].cl == k
  }

  lemma WaitingSlot(lanes: seq<Lane>, k: nat)
    requires Ascending(lanes)
    ensures Waiting(lanes, k) == if Present(lanes, k) then lanes[Slot(lanes, k)].entries else []
  {
    if Present(lanes, k) { WaitingAt(lanes, Slot(lanes, k)); } else { WaitingNone(lanes, k); }
  }

  // ---------------------------------------------------------------- enqueue

  /** Adds an entry at the back, or the front, of its class's lane. */
  function Push(s: Sub, k: nat, e: Entry, front: bool): Sub {
    var i := Slot(s.lanes, k);
    if Present(s.lanes, k) then
      var was := s.lanes[i].entries;
      s.(lanes := s.lanes[..i] + [Lane(k, if front then [e] + was else was + [e])] + s.lanes[i + 1..], size := s.size + 1)
    else
      s.(lanes := s.lanes[..i] + [Lane(k, [e])] + s.lanes[i..], size := s.size + 1,
         cur := if s.lanes != [] && i <= s.cur then s.cur + 1 else s.cur)
  }

  /** The lanes before and after class c, in order and not empty. */
  ghost predicate Around(a: seq<Lane>, b: seq<Lane>, c: nat) {
    && Ascending(a) && Ascending(b) && NoEmptyLane(a) && NoEmptyLane(b)
    && (forall i {:trigger a[i]} | 0 <= i < |a| :: a[i].cl < c) && forall i {:trigger b[i]} | 0 <= i < |b| :: c < b[i].cl
  }

  lemma {:induction false} Middle(a: seq<Lane>, x: seq<Lane>, b: seq<Lane>, c: nat)
    requires Around(a, b, c) && (x == [] || (|x| == 1 && x[0].cl == c && x[0].entries != []))
    ensures Ascending(a + x + b) && NoEmptyLane(a + x + b)
  {
  }

  lemma {:induction false} AroundSlot(lanes: seq<Lane>, k: nat)
    requires Ascending(lanes) && NoEmptyLane(lanes)
    ensures var i := Slot(lanes, k); Around(lanes[..i], lanes[if Present(lanes, k) then i + 1 else i..], k)
  {
  }

  lemma {:induction false} AroundLane(lanes: seq<Lane>, i: nat)
    requires Ascending(lanes) && NoEmptyLane(lanes) && i < |lanes|
    ensures Around(lanes[..i], lanes[i + 1..], lanes[i].cl)
  {
  }

  /** Replacing the lane, or no lane, between a and b by another. */
  lemma {:induction false} CountSwap(a: seq<Lane>, x: seq<Lane>, y: seq<Lane>, b: seq<Lane>, e: Entry)
    requires Count(y) == Count(x) + 1 && Items(y) == Items(x) + multiset{e.item}
    ensures Count(a + y + b) == Count(a + x + b) + 1 && Items(a + y + b) == Items(a + x + b) + multiset{e.item}
  {
    CountMiddle(a, x, b);
    CountMiddle(a, y, b);
  }

  lemma {:induction false} PushLanes(s: Sub, k: nat, e: Entry, front: bool)
    requires SubOk(s)
    ensures SubOk(Push(s, k, e, front)) && Items(Push(s, k, e, front).lanes) == Items(s.lanes) + multiset{e.item}
  {
    var i := Slot(s.lanes, k);
    AroundSlot(s.lanes, k);
    if Present(s.lanes, k) {
      PushPresent(s.lanes, i, e, front);
    } else {
      SplitGap(s.lanes, i);
      CountOne(Lane(k, [e]));
      CountSwap(s.lanes[..i], [], [Lane(k, [e])], s.lanes[i..], e);
      Middle(s.lanes[..i], [Lane(k, [e])], s.lanes[i..], k);
    }
  }

  lemma {:induction false} PushPresent(lanes: seq<Lane>, i: nat, e: Entry, front: bool)
    requires i < |lanes| && Around(lanes[..i], lanes[i + 1..], lanes[i].cl)
    ensures var was := lanes[i].entries;
            var x := lanes[..i] + [Lane(lanes[i].cl, if front then [e] + was else was + [e])] + lanes[i + 1..];
            Ascending(x) && NoEmptyLane(x) && Count(x) == Count(lanes) + 1 && Items(x) == Items(lanes) + multiset{e.item}
  {
    var k, was := lanes[i].cl, lanes[i].entries;
    var now := if front then [e] + was else was + [e];
    SplitAt(lanes, i);
    LaneGrows(k, was, e, front);
    CountSwap(lanes[..i], [Lane(k, was)], [Lane(k, now)], lanes[i + 1..], e);
    Middle(lanes[..i], [Lane(k, now)], lanes[i + 1..], k);
  }

  lemma {:induction false} LaneGrows(k: nat, was: seq<Entry>, e: Entry, front: bool)
    ensures var now := if front then [e] + was else was + [e];
            Count([Lane(k, now)]) == Count([Lane(k, was)]) + 1 && Items([Lane(k, now)]) == Items([Lane(k, was)]) + multiset{e.item}
  {
    CountOne(Lane(k, was));
    CountOne(Lane(k, if front then [e] + was else was + [e]));
    if !front { ItemsConcat(was, [e]); } else { assert ([e] + was)[1..] == was; }
  }

  lemma CountOne(l: Lane)
    ensures Count([l]) == |l.entries| && Items([l]) == ItemsOf(l.entries)
  {
    assert [l][1..] == [];
  }

  lemma CountMiddle(a: seq<Lane>, x: seq<Lane>, b: seq<Lane>)
    ensures Count(a + x + b) == Count(a) + Count(x) + Count(b)
    ensures Items(a + x + b) == Items(a) + Items(x) + Items(b)
  {
    CountConcat(a + x, b);
    CountConcat(a, x);
  }

  /** An entry joins its own class's lane and no other. */
  lemma {:induction false} PushWaiting(s: Sub, k: nat, e: Entry, front: bool, k': nat)
    requires SubOk(s)
    ensures Waiting(Push(s, k, e, front).lanes, k') ==
            (var was := Waiting(s.lanes, k');
             if k' != k then was else if front then [e] + was else was + [e])
  {
    var i := Slot(s.lanes, k);
    WaitingSlot(s.lanes, k);
    if Present(s.lanes, k) {
      var was := s.lanes[i].entries;
      var x := [Lane(k, if front then [e] + was else was + [e])];
      SplitAt(s.lanes, i);
      PutBetween(s.lanes, s.lanes[..i], [s.lanes[i]], x, s.lanes[i + 1..], k, k');
    } else {
      SplitGap(s.lanes, i);
      PutBetween(s.lanes, s.lanes[..i], [], [Lane(k, [e])], s.lanes[i..], k, k');
    }
  }

  lemma {:induction false} PutBetween(lanes: seq<Lane>, a: seq<Lane>, x: seq<Lane>, y: seq<Lane>, b: seq<Lane>,
                                         k: nat, k': nat)
    requires Ascending(lanes) && NoEmptyLane(lanes) && lanes == a + x + b && |y| == 1 && y[0].cl == k && y[0].entries != []
    requires |a| == Slot(lanes, k) && |x| == (if Present(lanes, k) then 1 else 0)
    ensures Waiting(a + y + b, k') == if k' == k then y[0].entries else Waiting(lanes, k')
  {
    if k' == k {
      AroundSlot(lanes, k);
      assert lanes[..|a|] == a && lanes[|a| + |x|..] == b;
      PopOwn(a, y, b, k);
    } else {
      assert forall l | l in x :: l.cl == k;
      WaitingMiddle(a, x, y, b, k, k');
    }
  }

  // ---------------------------------------------------------------- dequeue

  function Front(s: Sub): Entry
    requires SubOk(s) && s.lanes != []
  {
    s.lanes[s.cur].entries[0]
  }

  /** An entry added at the back is not served before the front one. */
  lemma {:induction false} PushBehind(s: Sub, k: nat, e: Entry)
    requires SubOk(s) && s.lanes != []
    ensures SubOk(Push(s, k, e, false)) && Push(s, k, e, false).lanes != [] && Front(Push(s, k, e, false)) == Front(s)
  {
    PushLanes(s, k, e, false);
    PushKeepsCur(s, k, e);
  }

  /** The lane to be served next starts with the same entry as before. */
  lemma {:induction false} PushKeepsCur(s: Sub, k: nat, e: Entry)
    requires SubOk(s) && s.lanes != []
    ensures var t := Push(s, k, e, false);
            t.cur < |t.lanes| && t.lanes[t.cur].entries != [] && t.lanes[t.cur].entries[0] == s.lanes[s.cur].entries[0]
  {
    var i := Slot(s.lanes, k);
    if Present(s.lanes, k) {
      ReplaceIndex(s.lanes, i, Lane(k, s.lanes[i].entries + [e]), s.cur);
    } else {
      InsertIndex(s.lanes, i, Lane(k, [e]), s.cur);
    }
  }

  lemma ReplaceIndex<X>(xs: seq<X>, i: nat, x: X, j: nat)
    requires i < |xs| && j < |xs|
    ensures (xs[..i] + [x] + xs[i + 1..])[j] == if j == i then x else xs[j]
  {
  }

  lemma InsertIndex<X>(xs: seq<X>, i: nat, x: X, j: nat)
    requires i <= |xs| && j < |xs|
    ensures (xs[..i] + [x] + xs[i..])[if i <= j then j + 1 else j] == xs[j]
  {
  }

  /** Removes the front entry of the current lane, and the lane with it when it was the last one;
      then moves on to the next lane. */
  function Pop(s: Sub): Sub
    requires SubOk(s) && s.lanes != []
  {
    var l := s.lanes[s.cur];
    var gone := |l.entries| == 1;
    var lanes := s.lanes[..s.cur] + (if gone then [] else [Lane(l.cl, l.entries[1..])]) + s.lanes[s.cur + 1..];
    var next := if gone then s.cur else s.cur + 1;
    s.(lanes := lanes, size := if s.size > 0 then s.size - 1 else 0, cur := if next == |lanes| then 0 else next)
  }

  lemma {:induction false} PopLanes(s: Sub)
    requires SubOk(s) && s.lanes != []
    ensures SubOk(Pop(s)) && Items(s.lanes) == Items(Pop(s).lanes) + multiset{Front(s).item}
  {
    var l, a, b := s.lanes[s.cur], s.lanes[..s.cur], s.lanes[s.cur + 1..];
    SplitAt(s.lanes, s.cur);
    AroundLane(s.lanes, s.cur);
    assert l.entries == [l.entries[0]] + l.entries[1..];
    if |l.entries| == 1 {
      CountOne(l);
      CountSwap(a, [], [l], b, l.entries[0]);
      Middle(a, [], b, l.cl);
    } else {
      LaneGrows(l.cl, l.entries[1..], l.entries[0], true);
      CountSwap(a, [Lane(l.cl, l.entries[1..])], [l], b, l.entries[0]);
      Middle(a, [Lane(l.cl, l.entries[1..])], b, l.cl);
    }
  }

  /** The front entry leaves its class's lane; the other lanes are as before. */
  lemma {:induction false} PopWaiting(s: Sub, k: nat)
    requires SubOk(s) && s.lanes != []
    ensures Waiting(s.lanes, k) == if k == s.lanes[s.cur].cl then [Front(s)] + Waiting(Pop(s).lanes, k) else Waiting(Pop(s).lanes, k)
  {
    var l, a, b, t := s.lanes[s.cur], s.lanes[..s.cur], s.lanes[s.cur + 1..], Pop(s);
    var x := if |l.entries| == 1 then [] else [Lane(l.cl, l.entries[1..])];
    SplitAt(s.lanes, s.cur);
    if k != l.cl {
      WaitingMiddle(a, [l], x, b, l.cl, k);
    } else {
      WaitingAt(s.lanes, s.cur);
      assert l.entries == [l.entries[0]] + l.entries[1..];
      AroundLane(s.lanes, s.cur);
      PopOwn(a, x, b, k);
    }
  }

  lemma {:induction false} PopOwn(a: seq<Lane>, x: seq<Lane>, b: seq<Lane>, k: nat)
    requires Around(a, b, k) && (x == [] || (|x| == 1 && x[0].cl == k && x[0].entries != []))
    ensures Waiting(a + x + b, k) == if x == [] then [] else x[0].entries
  {
    if x == [] {
      WaitingNone(a + x + b, k);
    } else {
      Middle(a, x, b, k);
      assert (a + x + b)[|a|] == x[0];
      WaitingAt(a + x + b, |a|);
    }
  }

  // ---------------------------------------------------------------- round robin

  /** How many lanes are served before lane i. */
  function Turns(s: Sub, i: nat): nat
    requires i < |s.lanes| && s.cur < |s.lanes|
  {
    if s.cur <= i then i - s.cur else i + |s.lanes| - s.cur
  }

  /** How many pops are made before class k is served. */
  function TurnsOf(s: Sub, k: nat): (n: nat)
    requires SubOk(s) && Present(s.lanes, k)
    ensures n < |s.lanes|
  {
    Turns(s, Slot(s.lanes, k))
  }

  lemma {:induction false} SlotAt(lanes: seq<Lane>, i: nat)
    requires Ascending(lanes) && i < |lanes|
    ensures Slot(lanes, lanes[i].cl) == i
  {
    if i > 0 { SlotAt(lanes[1..], i - 1); }
  }

  /** Each pop of another class brings class k one turn closer. */
  lemma {:induction false} PopTurns(s: Sub, k: nat)
    requires SubOk(s) && Present(s.lanes, k)
    ensures TurnsOf(s, k) == 0 <==> s.lanes[s.cur].cl == k
    ensures s.lanes[s.cur].cl != k ==> SubOk(Pop(s)) && Present(Pop(s).lanes, k) && TurnsOf(Pop(s), k) == TurnsOf(s, k) - 1
  {
    var i := Slot(s.lanes, k);
    if s.lanes[s.cur].cl == k {
      SlotAt(s.lanes, s.cur);
    } else {
      PopLanes(s);
      var i' := if |s.lanes[s.cur].entries| == 1 && s.cur < i then i - 1 else i;
      PopMoves(s, i, i');
      SlotAt(Pop(s).lanes, i');
    }
  }

  lemma {:induction false} PopMoves(s: Sub, i: nat, i': nat)
    requires SubOk(s) && i < |s.lanes| && i != s.cur
    requires i' == if |s.lanes[s.cur].entries| == 1 && s.cur < i then i - 1 else i
    ensures i' < |Pop(s).lanes| && Pop(s).lanes[i'] == s.lanes[i]
  {
  }

  /** A new entry of a class that already waits changes nobody's turn. */
  lemma PushTurns(s: Sub, c: nat, e: Entry, front: bool, k: nat)
    requires SubOk(s) && Present(s.lanes, c) && Present(s.lanes, k)
    ensures SubOk(Push(s, c, e, front)) && Present(Push(s, c, e, front).lanes, k)
    ensures TurnsOf(Push(s, c, e, front), k) == TurnsOf(s, k)
  {
    var i, t := Slot(s.lanes, k), Push(s, c, e, front);
    PushLanes(s, c, e, front);
    assert t.lanes[i].cl == k;
    SlotAt(t.lanes, i);
  }

  datatype Op = Add(cl: nat, entry: Entry, front: bool) | Take

  ghost predicate Enabled(s: Sub, op: Op) {
    SubOk(s) && if op.Take? then s.lanes != [] else Present(s.lanes, op.cl)
  }

  function Apply(s: Sub, op: Op): Sub
    requires Enabled(s, op)
  {
    match op
    case Add(c, e, front) => Push(s, c, e, front)
    case Take => Pop(s)
  }

  /** The operations can be done one after the other, and none brings a new class. */
  ghost predicate Run(s: Sub, ops: seq<Op>)
    decreases |ops|
  {
    ops == [] || (Enabled(s, ops[0]) && Run(Apply(s, ops[0]), ops[1..]))
  }

  ghost function After(s: Sub, ops: seq<Op>, n: nat): Sub
    requires Run(s, ops) && n <= |ops|
    decreases n
  {
    if n == 0 then s else After(Apply(s, ops[0]), ops[1..], n - 1)
  }

  lemma {:induction false} StepTurns(s: Sub, op: Op, k: nat)
    requires Enabled(s, op) && Present(s.lanes, k) && !(op.Take? && TurnsOf(s, k) == 0)
    ensures SubOk(Apply(s, op)) && Present(Apply(s, op).lanes, k)
    ensures TurnsOf(Apply(s, op), k) == if op.Take? then TurnsOf(s, k) - 1 else TurnsOf(s, k)
  {
    if op.Take? { PopTurns(s, k); } else { PushTurns(s, op.cl, op.entry, op.front, k); }
  }

  /** The next to be served is class k. */
  ghost predicate Serves(s: Sub, k: nat) {
    s.cur < |s.lanes| && s.lanes[s.cur].cl == k
  }

  /** In a run without new classes, class k is served by one of the next |lanes| pops. */
  lemma {:induction false} ServedInTurn(s: Sub, k: nat, ops: seq<Op>) returns (n: nat)
    requires Run(s, ops) && SubOk(s) && Present(s.lanes, k) && Takes(ops) > TurnsOf(s, k)
    ensures n < |ops| && ops[n].Take? && Takes(ops[..n]) == TurnsOf(s, k) < |s.lanes| && Serves(After(s, ops, n), k)
    decreases |ops|
  {
    if ops[0].Take? && TurnsOf(s, k) == 0 {
      PopTurns(s, k);
      n := 0;
    } else {
      StepTurns(s, ops[0], k);
      var m := ServedInTurn(Apply(s, ops[0]), k, ops[1..]);
      n := m + 1;
      assert ops[..n][1..] == ops[1..][..m];
    }
  }

  function Takes(ops: seq<Op>): nat {
    if ops == [] then 0 else (if ops[0].Take? then 1 else 0) + Takes(ops[1..])
  }

  // ---------------------------------------------------------------- removal

  function Keep(es: seq<Entry>, f: Item -> bool): seq<Entry> {
    if es == [] then [] else (if f(es[0].item) then [] else [es[0]]) + Keep(es[1..], f)
  }

  function Drop(es: seq<Entry>, f: Item -> bool): seq<Item> {
    if es == [] then [] else (if f(es[0].item) then [es[0].item] else []) + Drop(es[1..], f)
  }

  lemma {:induction false} KeepDrop(es: seq<Entry>, f: Item -> bool)
    ensures |Keep(es, f)| + |Drop(es, f)| == |es|
    ensures ItemsOf(es) == ItemsOf(Keep(es, f)) + multiset(Drop(es, f))
  {
    if es != [] {
      var kept, gone := Keep(es[1..], f), Drop(es[1..], f);
      KeepDrop(es[1..], f);
      if f(es[0].item) {
        assert Keep(es, f) == kept && Drop(es, f) == [es[0].item] + gone;
        ConsMultiset(es[0].item, gone);
      } else {
        assert Drop(es, f) == gone && Keep(es, f) == [es[0]] + kept;
        ItemsCons(es[0], kept);
      }
    }
  }

  lemma {:induction false} ItemsCons(e: Entry, es: seq<Entry>)
    ensures ItemsOf([e] + es) == multiset{e.item} + ItemsOf(es)
  {
    assert ([e] + es)[1..] == es;
  }

  lemma ConcatMultiset(xs: seq<Item>, ys: seq<Item>)
    ensures multiset(xs + ys) == multiset(xs) + multiset(ys)
  {
  }

  lemma ConsMultiset(x: Item, xs: seq<Item>)
    ensures multiset([x] + xs) == multiset{x} + multiset(xs)
  {
  }

  /** The lanes without the entries that match; lanes left empty disappear. */
  function KeepLanes(lanes: seq<Lane>, f: Item -> bool): seq<Lane> {
    if lanes == [] then []
    else
      var kept := Keep(lanes[0].entries, f);
      (if kept == [] then [] else [Lane(lanes[0].cl, kept)]) + KeepLanes(lanes[1..], f)
  }

  /** The matching items, those of later lanes first. */
  function DropLanes(lanes: seq<Lane>, f: Item -> bool): seq<Item> {
    if lanes == [] then [] else DropLanes(lanes[1..], f) + Drop(lanes[0].entries, f)
  }

  lemma {:induction false} KeepConcat(a: seq<Lane>, b: seq<Lane>, f: Item -> bool)
    ensures KeepLanes(a + b, f) == KeepLanes(a, f) + KeepLanes(b, f)
    ensures DropLanes(a + b, f) == DropLanes(b, f) + DropLanes(a, f)
  {
    if a == [] {
      assert a + b == b;
    } else {
      TailConcat(a, b);
      KeepConcat(a[1..], b, f);
      Assoc(KeepLanes([a[0]], f), KeepLanes(a[1..], f), KeepLanes(b, f));
      KeepOne(a[0], f);
      Assoc(DropLanes(b, f), DropLanes(a[1..], f), Drop(a[0].entries, f));
    }
  }

  lemma TailConcat<X>(a: seq<X>, b: seq<X>)
    requires a != []
    ensures (a + b)[0] == a[0] && (a + b)[1..] == a[1..] + b
  {
  }

  lemma Assoc<X>(a: seq<X>, b: seq<X>, c: seq<X>)
    ensures (a + b) + c == a + (b + c)
  {
  }

  lemma {:induction false} KeepOne(l: Lane, f: Item -> bool)
    ensures KeepLanes([l], f) == if Keep(l.entries, f) == [] then [] else [Lane(l.cl, Keep(l.entries, f))]
    ensures DropLanes([l], f) == Drop(l.entries, f)
  {
    assert [l][1..] == [];
  }

  ghost predicate AllAfter(lanes: seq<Lane>, c: int) {
    forall i {:trigger lanes[i]} | 0 <= i < |lanes| :: c < lanes[i].cl
  }

  lemma {:induction false} KeepOrder(lanes: seq<Lane>, f: Item -> bool, c: int)
    requires Ascending(lanes) && AllAfter(lanes, c)
    ensures Ascending(KeepLanes(lanes, f)) && NoEmptyLane(KeepLanes(lanes, f)) && AllAfter(KeepLanes(lanes, f), c)
    decreases |lanes|
  {
    if lanes != [] {
      var l, kept, rest := lanes[0], Keep(lanes[0].entries, f), KeepLanes(lanes[1..], f);
      KeepOrder(lanes[1..], f, l.cl);
      if kept == [] {
        assert KeepLanes(lanes, f) == rest;
      } else {
        PutFirst(Lane(l.cl, kept), rest, c);
      }
    }
  }

  lemma {:induction false} PutFirst(l: Lane, rest: seq<Lane>, c: int)
    requires Ascending(rest) && NoEmptyLane(rest) && AllAfter(rest, l.cl) && l.entries != [] && c < l.cl
    ensures Ascending([l] + rest) && NoEmptyLane([l] + rest) && AllAfter([l] + rest, c)
  {
  }

  /** Removal splits the items. */
  lemma {:induction false} KeepItems(lanes: seq<Lane>, f: Item -> bool)
    ensures Count(KeepLanes(lanes, f)) + |DropLanes(lanes, f)| == Count(lanes)
    ensures Items(lanes) == Items(KeepLanes(lanes, f)) + multiset(DropLanes(lanes, f))
  {
    if lanes != [] {
      var kept, rest := Keep(lanes[0].entries, f), KeepLanes(lanes[1..], f);
      KeepItems(lanes[1..], f);
      KeepDrop(lanes[0].entries, f);
      ConcatMultiset(DropLanes(lanes[1..], f), Drop(lanes[0].entries, f));
      if kept == [] {
        assert KeepLanes(lanes, f) == rest;
      } else {
        assert KeepLanes(lanes, f) == [Lane(lanes[0].cl, kept)] + rest;
        CountConcat([Lane(lanes[0].cl, kept)], rest);
        CountOne(Lane(lanes[0].cl, kept));
      }
    }
  }

  /** Each class keeps the entries that do not match, in their order. */
  lemma {:induction false} KeepWaiting(lanes: seq<Lane>, f: Item -> bool, k: nat)
    requires Ascending(lanes)
    ensures Waiting(KeepLanes(lanes, f), k) == Keep(Waiting(lanes, k), f)
  {
    if lanes != [] {
      KeepWaiting(lanes[1..], f, k);
      var kept, rest := Keep(lanes[0].entries, f), KeepLanes(lanes[1..], f);
      if kept != [] {
        assert ([Lane(lanes[0].cl, kept)] + rest)[1..] == rest;
      } else {
        assert KeepLanes(lanes, f) == rest;
        if lanes[0].cl == k { WaitingNone(lanes[1..], k); }
      }
    }
  }

  /** Removes matching entries lane by lane, handing their items out in front of `out`. */
  method RemoveByFilter(s: Sub, f: Item -> bool, out: seq<Item>) returns (t: Sub, out': seq<Item>)
    requires SubOk(s)
    ensures SubOk(t) && t.lanes == KeepLanes(s.lanes, f) && out' == DropLanes(s.lanes, f) + out
    ensures t.tokens == s.tokens && t.maxTokens == s.maxTokens
    ensures t.cur == (var before := |KeepLanes(s.lanes[..s.cur], f)|; if before == |t.lanes| then 0 else before)
  {
    var lanes: seq<Lane>, size: nat, cur: nat := [], s.size, 0;
    out' := out;
    var i := 0;
    while i < |s.lanes|
      invariant 0 <= i <= |s.lanes| && cur <= |lanes| && Filtered(s.lanes[..i], f, out, lanes, out')
      invariant size == s.size - |DropLanes(s.lanes[..i], f)|
      invariant if i < s.cur then cur == 0 else cur == |KeepLanes(s.lanes[..s.cur], f)|
    {
      var l := s.lanes[i];
      FilterStep(s.lanes, i, f, out, lanes, out');
      size := size - |Drop(l.entries, f)|;
      out' := Drop(l.entries, f) + out';
      if Keep(l.entries, f) != [] { lanes := lanes + [Lane(l.cl, Keep(l.entries, f))]; }
      i := i + 1;
      if i == s.cur { cur := |lanes|; }
    }
    assert s.lanes[..i] == s.lanes;
    KeepOrder(s.lanes, f, -1);
    KeepItems(s.lanes, f);
    t := Sub(lanes, s.tokens, s.maxTokens, size, if cur == |lanes| then 0 else cur);
  }

  ghost predicate Filtered(lanes: seq<Lane>, f: Item -> bool, out: seq<Item>, kept: seq<Lane>, out': seq<Item>) {
    kept == KeepLanes(lanes, f) && out' == DropLanes(lanes, f) + out
  }

  lemma {:induction false} FilterStep(lanes: seq<Lane>, i: nat, f: Item -> bool, out: seq<Item>, kept: seq<Lane>, out': seq<Item>)
    requires i < |lanes| && Filtered(lanes[..i], f, out, kept, out')
    ensures var l := lanes[i];
            Filtered(lanes[..i + 1], f, out, kept + (if Keep(l.entries, f) == [] then [] else [Lane(l.cl, Keep(l.entries, f))]),
                     Drop(l.entries, f) + out')
    ensures |DropLanes(lanes[..i + 1], f)| == |DropLanes(lanes[..i], f)| + |Drop(lanes[i].entries, f)| <= Count(lanes)
  {
    PrefixNext(lanes, i);
    KeepConcat(lanes[..i], [lanes[i]], f);
    KeepOne(lanes[i], f);
    Assoc(Drop(lanes[i].entries, f), DropLanes(lanes[..i], f), out);
    DropFits(lanes, i + 1, f);
  }

  lemma PrefixNext<X>(xs: seq<X>, i: nat)
    requires i < |xs|
    ensures xs[..i + 1] == xs[..i] + [xs[i]]
  {
  }

  lemma {:induction false} DropFits(lanes: seq<Lane>, i: nat, f: Item -> bool)
    requires i <= |lanes|
    ensures |DropLanes(lanes[..i], f)| <= Count(lanes)
  {
    assert lanes == lanes[..i] + lanes[i..];
    CountConcat(lanes[..i], lanes[i..]);
    KeepItems(lanes[..i], f);
  }

  /** Removes the lane of one class. */
  function WithoutClass(s: Sub, k: nat): Sub {
    if !Present(s.lanes, k) then s
    else
      var i := Slot(s.lanes, k);
      var lanes := s.lanes[..i] + [] + s.lanes[i + 1..];
      var cur := if i < s.cur then s.cur - 1 else s.cur;
      var n := |s.lanes[i].entries|;
      s.(lanes := lanes, size := if s.size >= n then s.size - n else 0, cur := if cur == |lanes| then 0 else cur)
  }

  function JustItems(es: seq<Entry>): (items: seq<Item>)
    ensures |items| == |es|
  {
    seq(|es|, i requires 0 <= i < |es| => es[i].item)
  }

  lemma {:induction false} JustItemsOf(es: seq<Entry>)
    ensures multiset(JustItems(es)) == ItemsOf(es)
  {
    if es == [] {
    } else {
      assert JustItems(es) == [es[0].item] + JustItems(es[1..]);
      JustItemsOf(es[1..]);
    }
  }

  lemma {:induction false} WithoutClassOk(s: Sub, k: nat)
    requires SubOk(s)
    ensures SubOk(WithoutClass(s, k))
    ensures Items(s.lanes) == Items(WithoutClass(s, k).lanes) + multiset(JustItems(Waiting(s.lanes, k)))
  {
    WaitingSlot(s.lanes, k);
    JustItemsOf(Waiting(s.lanes, k));
    if Present(s.lanes, k) {
      var i := Slot(s.lanes, k);
      var a, b := s.lanes[..i], s.lanes[i + 1..];
      SplitAt(s.lanes, i);
      AroundSlot(s.lanes, k);
      CountMiddle(a, [s.lanes[i]], b);
      CountMiddle(a, [], b);
      CountOne(s.lanes[i]);
      Middle(a, [], b, k);
    }
  }

  lemma {:induction false} WithoutClassWaiting(s: Sub, k: nat, k': nat)
    requires SubOk(s)
    ensures Waiting(WithoutClass(s, k).lanes, k') == if k' == k then [] else Waiting(s.lanes, k')
  {
    WaitingSlot(s.lanes, k);
    if Present(s.lanes, k) {
      var i := Slot(s.lanes, k);
      var a, b := s.lanes[..i], s.lanes[i + 1..];
      SplitAt(s.lanes, i);
      if k' == k {
        AroundSlot(s.lanes, k);
        WaitingNone(a + [] + b, k);
      } else {
        WaitingMiddle(a, [s.lanes[i]], [], b, k, k');
      }
    }
  }

  // ---------------------------------------------------------------- tokens

  function PutTokens(s: Sub, n: nat): Sub {
    s.(tokens := if s.tokens + n > s.maxTokens then s.maxTokens else s.tokens + n)
  }

  function TakeTokens(s: Sub, n: nat): Sub {
    s.(tokens := if s.tokens > n then s.tokens - n else 0)
  }
}
