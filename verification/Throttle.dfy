/**
 * A throttle: callers wait in line for units, each on a condition variable of its own.  A step is
 * what one thread does while it holds the lock; a waiter that wakes takes the lock, looks at the
 * state, and goes on or waits again.
 */
module Throttles {

  /** A thread in line: how much it asks for, and whether it takes that or only waits for it. */
  datatype Waiter = Waiter(id: nat, c: nat, takes: bool)

  /** `signalled` are the waiters that have been signalled and have not run since. */
  datatype State = State(count: nat, max: nat, line: seq<Waiter>, signalled: set<nat>)

  predicate ShouldWait(s: State, c: nat) {
    && s.max != 0
    && ((c <= s.max && s.count + c > s.max) || (c >= s.max && s.count > s.max))
  }

  function Signal(s: State): State {
    if s.line == [] then s else s.(signalled := s.signalled + {s.line[0].id})
  }

  /** Changing the limit signals the first in line. */
  function ResetMax(s: State, m: nat): State {
    Signal(s).(max := m)
  }

  function Admit(s: State, w: Waiter): State {
    if w.takes then s.(count := s.count + w.c) else s
  }

  /** A caller arrives: it goes on at once, or joins the end of the line. */
  function Arrive(s: State, w: Waiter, m: nat): State {
    if s.max == 0 then s
    else
      var t := if m > 0 then ResetMax(s, m) else s;
      if ShouldWait(t, w.c) || t.line != [] then t.(line := t.line + [w]) else Admit(t, w)
  }

  predicate GoesOn(s: State, w: Waiter, m: nat) {
    s.max != 0 &&
    var t := if m > 0 then ResetMax(s, m) else s;
    !(ShouldWait(t, w.c) || t.line != [])
  }

  /** A waiter runs again, signalled or not.  Only the first in line leaves it, when what it asks
      for fits; it then signals the next. */
  function Wake(s: State, i: nat): State
    requires i < |s.line|
  {
    var w := s.line[i];
    var t := s.(signalled := s.signalled - {w.id});
    if i != 0 || ShouldWait(t, w.c) then t else Signal(Admit(t.(line := t.line[1..]), w))
  }

  function GetOrFail(s: State, c: nat): (State, bool) {
    if s.max == 0 then (s, true)
    else if ShouldWait(s, c) || s.line != [] then (s, false)
    else (s.(count := s.count + c), true)
  }

  function Take(s: State, c: nat): State {
    if s.max == 0 then s else s.(count := s.count + c)
  }

  function Put(s: State, c: nat): State
    requires s.max != 0 ==> c <= s.count
  {
    if s.max == 0 || c == 0 then s else Signal(s).(count := s.count - c)
  }

  // ---------------------------------------------------------------- every state

  ghost predicate Distinct(line: seq<Waiter>) {
    forall i, j {:trigger line[i], line[j]} | 0 <= i < j < |line| :: line[i].id != line[j].id
  }

  /** No signal is lost: whenever what the first in line asks for fits, it has been signalled. */
  ghost predicate Ok(s: State) {
    && Distinct(s.line) && (s.max == 0 ==> s.line == [])
    && (s.line != [] && !ShouldWait(s, s.line[0].c) ==> s.line[0].id in s.signalled)
  }

  datatype Step = Arriving(w: Waiter, m: nat) | Waking(i: nat) | Trying(c: nat) | Taking(c: nat) | Putting(c: nat)

  predicate Enabled(s: State, st: Step) {
    match st
    case Arriving(w, _) => forall i | 0 <= i < |s.line| :: s.line[i].id != w.id
    case Waking(i) => i < |s.line|
    case Trying(_) => true
    case Taking(_) => true
    case Putting(c) => s.max != 0 ==> c <= s.count
  }

  function Do(s: State, st: Step): State
    requires Enabled(s, st)
  {
    match st
    case Arriving(w, m) => Arrive(s, w, m)
    case Waking(i) => Wake(s, i)
    case Trying(c) => GetOrFail(s, c).0
    case Taking(c) => Take(s, c)
    case Putting(c) => Put(s, c)
  }

  lemma StepOk(s: State, st: Step)
    requires Ok(s) && Enabled(s, st)
    ensures Ok(Do(s, st))
  {
    match st
    case Waking(i) =>
      var w := s.line[i];
      if i == 0 && !ShouldWait(s, w.c) {
        assert Distinct(s.line[1..]);
      } else if i != 0 {
        assert s.line[0].id != w.id;
      }
    case Arriving(w, m) => ArriveOk(s, w, m);
    case Trying(_) =>
    case Taking(_) =>
    case Putting(_) =>
  }

  lemma ArriveOk(s: State, w: Waiter, m: nat)
    requires Ok(s) && forall i | 0 <= i < |s.line| :: s.line[i].id != w.id
    ensures Ok(Arrive(s, w, m))
  {
  }

  /** While the line is not empty nobody is admitted but the first in line; get and get_or_fail
      overtake no one. */
  lemma NoOvertaking(s: State, st: Step)
    requires Ok(s) && Enabled(s, st) && s.line != []
    ensures st.Arriving? ==> Do(s, st).line == s.line + [st.w] && Do(s, st).count == s.count
    ensures st.Trying? ==> Do(s, st) == s && !GetOrFail(s, st.c).1
    ensures st.Waking? ==> Do(s, st).line == s.line || (st.i == 0 && Do(s, st).line == s.line[1..])
    ensures st.Taking? || st.Putting? ==> Do(s, st).line == s.line
  {
  }

  /** A first in line for whom there is room leaves when it runs. */
  lemma HeadLeaves(s: State)
    requires Ok(s) && s.line != [] && !ShouldWait(s, s.line[0].c)
    ensures s.line[0].id in s.signalled && Wake(s, 0).line == s.line[1..]
    ensures Wake(s, 0).count == s.count + if s.line[0].takes then s.line[0].c else 0
  {
  }

  // ---------------------------------------------------------------- every run

  ghost predicate Run(s: State, steps: seq<Step>)
    decreases |steps|
  {
    steps == [] || (Enabled(s, steps[0]) && Run(Do(s, steps[0]), steps[1..]))
  }

  ghost function Final(s: State, steps: seq<Step>): State
    requires Run(s, steps)
    decreases |steps|
  {
    if steps == [] then s else Final(Do(s, steps[0]), steps[1..])
  }

  /** Who joins the line in a step, and who leaves it admitted. */
  function Joins(s: State, st: Step): seq<Waiter> {
    if st.Arriving? && s.max != 0 && !GoesOn(s, st.w, st.m) then [st.w] else []
  }

  function Leaves(s: State, st: Step): seq<Waiter>
    requires Enabled(s, st)
  {
    if st.Waking? && st.i == 0 && !ShouldWait(s, s.line[0].c) then [s.line[0]] else []
  }

  ghost function AllJoin(s: State, steps: seq<Step>): seq<Waiter>
    requires Run(s, steps)
    decreases |steps|
  {
    if steps == [] then [] else Joins(s, steps[0]) + AllJoin(Do(s, steps[0]), steps[1..])
  }

  ghost function AllLeave(s: State, steps: seq<Step>): seq<Waiter>
    requires Run(s, steps)
    decreases |steps|
  {
    if steps == [] then [] else Leaves(s, steps[0]) + AllLeave(Do(s, steps[0]), steps[1..])
  }

  lemma StepLine(s: State, st: Step)
    requires Ok(s) && Enabled(s, st)
    ensures s.line + Joins(s, st) == Leaves(s, st) + Do(s, st).line
  {
    if st.Waking? && Leaves(s, st) != [] { assert s.line == [s.line[0]] + s.line[1..]; }
  }

  /** In every run waiters are admitted in the order in which they joined the line, and no signal
      is lost in any state. */
  lemma {:induction false} InOrder(s: State, steps: seq<Step>)
    requires Ok(s) && Run(s, steps)
    ensures Ok(Final(s, steps)) && s.line + AllJoin(s, steps) == AllLeave(s, steps) + Final(s, steps).line
    decreases |steps|
  {
    if steps != [] {
      StepOk(s, steps[0]);
      StepLine(s, steps[0]);
      var t := Do(s, steps[0]);
      InOrder(t, steps[1..]);
      Shuffle(s.line, Joins(s, steps[0]), AllJoin(t, steps[1..]), Leaves(s, steps[0]), t.line, AllLeave(t, steps[1..]),
              Final(s, steps).line);
    }
  }

  lemma Shuffle<X>(a: seq<X>, b: seq<X>, bs: seq<X>, l: seq<X>, m: seq<X>, ls: seq<X>, z: seq<X>)
    requires a + b == l + m && m + bs == ls + z
    ensures a + (b + bs) == (l + ls) + z
  {
    assert a + (b + bs) == (a + b) + bs;
    assert (l + m) + bs == l + (m + bs);
    assert l + (ls + z) == (l + ls) + z;
  }

  // ---------------------------------------------------------------- the limit

  /** Every waiter that takes what it asks for asks for no more than m. */
  ghost predicate LineFits(line: seq<Waiter>, m: nat) {
    forall i {:trigger line[i]} | 0 <= i < |line| :: line[i].takes ==> line[i].c <= m
  }

  /** The limit is kept now and will be when those in line are admitted. */
  ghost predicate WithinMax(s: State) {
    s.max > 0 && s.count <= s.max && LineFits(s.line, s.max)
  }

  /** The limit that is in force after a caller asked for limit m. */
  function Limit(s: State, m: nat): nat { if m > 0 then m else s.max }

  /** What a step may do that is not to break the limit: a request above the limit in force is not made,
      except where it fails at once; what is taken unasked fits; and a new limit is not below what is
      out or asked for. */
  ghost predicate Allowed(s: State, st: Step) {
    match st
    case Arriving(w, m) => (w.takes ==> w.c <= Limit(s, m)) && s.count <= Limit(s, m) && LineFits(s.line, Limit(s, m))
    case Trying(c) => c <= s.max || s.line != []
    case Taking(c) => s.count + c <= s.max
    case Waking(_) => true
    case Putting(_) => true
  }

  lemma FitsSnoc(line: seq<Waiter>, w: Waiter, m: nat)
    ensures LineFits(line + [w], m) <==> LineFits(line, m) && (w.takes ==> w.c <= m)
  {
    if LineFits(line + [w], m) {
      assert (line + [w])[|line|] == w;
      forall i | 0 <= i < |line| ensures line[i].takes ==> line[i].c <= m { assert (line + [w])[i] == line[i]; }
    }
  }

  /** A step keeps within the limit if and only if it is allowed. */
  lemma StepWithinIff(s: State, st: Step)
    requires WithinMax(s) && Enabled(s, st)
    ensures WithinMax(Do(s, st)) <==> Allowed(s, st)
  {
    if st.Arriving? { FitsSnoc(s.line, st.w, Limit(s, st.m)); }
  }

  ghost predicate AllAllowed(s: State, steps: seq<Step>)
    requires Run(s, steps)
    decreases |steps|
  {
    steps == [] || (Allowed(s, steps[0]) && AllAllowed(Do(s, steps[0]), steps[1..]))
  }

  /** Every state of the run is within the limit. */
  ghost predicate AlwaysWithin(s: State, steps: seq<Step>)
    requires Run(s, steps)
    decreases |steps|
  {
    WithinMax(s) && (steps != [] ==> AlwaysWithin(Do(s, steps[0]), steps[1..]))
  }

  /** A run keeps within the limit in every state if and only if every step of it is allowed. */
  lemma {:induction false} NeverOverMax(s: State, steps: seq<Step>)
    requires WithinMax(s) && Run(s, steps)
    ensures AlwaysWithin(s, steps) <==> AllAllowed(s, steps)
    decreases |steps|
  {
    if steps != [] {
      StepWithinIff(s, steps[0]);
      if Allowed(s, steps[0]) { NeverOverMax(Do(s, steps[0]), steps[1..]); }
    }
  }

  /** Steps that ask for nothing. */
  predicate Quiet(steps: seq<Step>) { forall st | st in steps :: st.Waking? || st.Putting? }

  lemma {:induction false} QuietWithin(s: State, steps: seq<Step>)
    requires WithinMax(s) && Run(s, steps) && Quiet(steps)
    ensures WithinMax(Final(s, steps))
    decreases |steps|
  {
    if steps != [] {
      StepWithinIff(s, steps[0]);
      QuietWithin(Do(s, steps[0]), steps[1..]);
    }
  }

  lemma RunTwo(s: State, a: Step, b: Step, rest: seq<Step>)
    requires Enabled(s, a) && Enabled(Do(s, a), b) && Run(Do(Do(s, a), b), rest)
    ensures Run(s, [a, b] + rest) && Final(s, [a, b] + rest) == Final(Do(Do(s, a), b), rest)
  {
    assert ([a, b] + rest)[1..] == [b] + rest && ([b] + rest)[1..] == rest;
    assert Run(Do(s, a), [b] + rest) && Final(Do(s, a), [b] + rest) == Final(Do(Do(s, a), b), rest);
  }

  /** If the i-th in line takes more than the limit, giving everything back and letting the line move on
      leads over it. */
  lemma {:induction false} GreedyLeads(s: State, i: nat) returns (steps: seq<Step>)
    requires s.max > 0 && i < |s.line| && s.line[i].takes && s.line[i].c > s.max
    ensures Run(s, steps) && Quiet(steps) && Final(s, steps).count > Final(s, steps).max
    decreases i
  {
    var put := Putting(s.count);
    var t := Do(s, put);
    assert t.count == 0 && t.line == s.line && t.max == s.max;
    assert !ShouldWait(t, t.line[0].c);
    var u := Do(t, Waking(0));
    assert u.line == s.line[1..] && u.max == s.max;
    var rest: seq<Step> := [];
    if i > 0 { rest := GreedyLeads(u, i - 1); }
    RunTwo(s, put, Waking(0), rest);
    steps := [put, Waking(0)] + rest;
  }

  /** A run in which nobody asks for anything ends with no more out than the limit. */
  ghost predicate EndsWithin(s: State, steps: seq<Step>) {
    Run(s, steps) && Quiet(steps) ==> Final(s, steps).count <= Final(s, steps).max
  }

  /** Being within the limit is exactly what it takes for the count to stay there if nobody asks for more. */
  lemma WithinMaxExact(s: State)
    requires s.max > 0
    ensures WithinMax(s) <==> forall steps :: EndsWithin(s, steps)
  {
    if WithinMax(s) {
      forall steps ensures EndsWithin(s, steps) {
        if Run(s, steps) && Quiet(steps) { QuietWithin(s, steps); }
      }
    } else if s.count > s.max {
      assert !EndsWithin(s, []);
    } else {
      var i :| 0 <= i < |s.line| && !(s.line[i].takes ==> s.line[i].c <= s.max);
      var steps := GreedyLeads(s, i);
      assert !EndsWithin(s, steps);
    }
  }

  /** Each part of the condition is needed: a request above the limit, waited for or tried, an unasked
      take and a lowered limit each lead above it. */
  lemma OverMax()
    ensures var s := State(5, 10, [], {});
            && WithinMax(s)
            && !WithinMax(Do(s, Arriving(Waiter(0, 20, true), 0)))
            && !WithinMax(Do(s, Trying(20)))
            && !WithinMax(Do(s, Taking(6)))
            && !WithinMax(Do(s, Arriving(Waiter(0, 0, true), 4)))
  {
  }

  // ---------------------------------------------------------------- the throttle in place

  class Throttle {
    var count: nat
    var max: nat
    var cond: seq<Waiter>
    ghost var signalled: set<nat>

    ghost function St(): State
      reads this
    {
      State(count, max, cond, signalled)
    }

    constructor (m: nat)
      ensures St() == State(0, m, [], {}) && Ok(St())
    {
      count, max, cond, signalled := 0, m, [], {};
    }

    method SignalFront()
      modifies this`signalled
      ensures St() == Signal(old(St()))
    {
      if cond != [] { signalled := signalled + {cond[0].id}; }
    }

    /** get and wait up to the point where the caller goes on or starts to wait. */
    method Get(w: Waiter, m: nat) returns (waits: bool)
      requires Ok(St()) && Enabled(St(), Arriving(w, m))
      modifies this
      ensures St() == Arrive(old(St()), w, m) && Ok(St())
      ensures waits <==> old(max) != 0 && !GoesOn(old(St()), w, m)
    {
      StepOk(St(), Arriving(w, m));
      if max == 0 { return false; }
      if m > 0 {
        SignalFront();
        max := m;
      }
      waits := MustWait(w.c);
      waits := waits || cond != [];
      if waits {
        cond := cond + [w];
      } else if w.takes {
        count := count + w.c;
      }
    }

    method MustWait(c: nat) returns (b: bool)
      ensures b == ShouldWait(St(), c)
    {
      b := max != 0 && ((c <= max && count + c > max) || (c >= max && count > max));
    }

    /** One turn of the wait loop of the i-th in line. */
    method WakeUp(i: nat) returns (done: bool)
      requires Ok(St()) && i < |cond|
      modifies this
      ensures St() == Wake(old(St()), i) && Ok(St())
      ensures done <==> i == 0 && !ShouldWait(old(St()), old(cond)[0].c)
    {
      StepOk(St(), Waking(i));
      var w := cond[i];
      signalled := signalled - {w.id};
      var more := MustWait(w.c);
      done := !(more || i != 0);
      if done {
        cond := cond[1..];
        if w.takes { count := count + w.c; }
        SignalFront();
      }
    }

    method TryGet(c: nat) returns (ok: bool)
      requires Ok(St())
      modifies this
      ensures (St(), ok) == GetOrFail(old(St()), c) && Ok(St())
    {
      StepOk(St(), Trying(c));
      if max == 0 { return true; }
      var wait := MustWait(c);
      if wait || cond != [] { return false; }
      count := count + c;
      return true;
    }

    method TakeNow(c: nat)
      requires Ok(St())
      modifies this
      ensures St() == Take(old(St()), c) && Ok(St())
    {
      StepOk(St(), Taking(c));
      if max != 0 { count := count + c; }
    }

    method PutBack(c: nat)
      requires Ok(St()) && (max != 0 ==> c <= count)
      modifies this
      ensures St() == Put(old(St()), c) && Ok(St())
    {
      StepOk(St(), Putting(c));
      if max != 0 && c > 0 {
        SignalFront();
        count := count - c;
      }
    }
  }
}
