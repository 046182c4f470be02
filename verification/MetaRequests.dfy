/**
 * Requests to the metadata servers: a caller waits for the reply, the dispatcher hands it
 * over and waits for the caller to take it.  Each step is what one thread does between two
 * points at which it gives up the client lock.
 */
module MetaRequests {
  import opened Options

  type Tid = nat
  type Mds = nat

  /** Where the caller of a request is: in the wait loop, past it with the reply, or returned. */
  datatype Caller = Waiting | Took | Gone

  datatype Request = Request(
    ref: int,
    caller: Caller,
    mds: Option<Mds>,            // who is being asked
    onSession: Option<Mds>,      // session whose request list it is on
    onUnsafe: Option<Mds>,       // session whose unsafe list it is on
    reply: bool,                 // a reply is attached
    gotUnsafe: bool,
    kick: bool,
    resend: bool,                // someone wants it sent elsewhere
    dispatching: bool,           // the dispatcher waits for the caller
    handed: nat)                 // replies handed to the caller so far

  /** The request the dispatcher is waiting for, and whether its reply was safe. */
  datatype Pending = Pending(tid: Tid, isSafe: bool)

  datatype State = State(
    reqs: map<Tid, Request>, mapped: set<Tid>, dispatcher: Option<Pending>, lastTid: Tid, freed: set<Tid>)

  // ---------------------------------------------------------------- steps

  /** Drops a reference; the last one frees the request. */
  function Put(s: State, t: Tid): State
    requires t in s.reqs
  {
    var q := s.reqs[t].(ref := s.reqs[t].ref - 1);
    if q.ref == 0 then s.(reqs := s.reqs - {t}, freed := s.freed + {t}) else s.(reqs := s.reqs[t := q])
  }

  /** A caller starts a request: one reference is its own, one that of the table. */
  function Start(s: State): State {
    var t := s.lastTid + 1;
    s.(reqs := s.reqs[t := Request(2, Waiting, None, None, None, false, false, false, false, false, 0)],
       mapped := s.mapped + {t}, lastTid := t)
  }

  /** The request is sent, or sent again, to MDS m. */
  function Send(s: State, t: Tid, m: Mds): State
    requires t in s.reqs
  {
    s.(reqs := s.reqs[t := s.reqs[t].(mds := Some(m), onSession := Some(m), kick := false, resend := false)])
  }

  /** MDS says the request must go elsewhere. */
  function Forward(s: State, t: Tid): State {
    if t !in s.mapped || t !in s.reqs then s else s.(reqs := s.reqs[t := s.reqs[t].(mds := None, resend := true)])
  }

  /** A request leaves the table. */
  function Unmap(s: State, t: Tid): State
    requires t in s.reqs
  {
    Put(s.(reqs := s.reqs[t := s.reqs[t].(onSession := None, onUnsafe := None)], mapped := s.mapped - {t}), t)
  }

  /** A reply from MDS m.  The first reply is handed to the caller; a safe one after an unsafe one
      ends the request at once; anything else is dropped. */
  function Reply(s: State, t: Tid, m: Mds, isSafe: bool): State {
    if t !in s.mapped || t !in s.reqs || (s.reqs[t].gotUnsafe && !isSafe) then s
    else if s.reqs[t].gotUnsafe then Unmap(s.(reqs := s.reqs[t := s.reqs[t].(reply := true)]), t)
    else
      var q := s.reqs[t].(reply := true, dispatching := true, gotUnsafe := !isSafe,
                          onUnsafe := if isSafe then s.reqs[t].onUnsafe else Some(m));
      s.(reqs := s.reqs[t := q], dispatcher := Some(Pending(t, isSafe)))
  }

  /** The reply was "stale": the request is to be tried at another MDS. */
  function Stale(s: State, t: Tid): State {
    if t !in s.mapped || t !in s.reqs then s else s.(reqs := s.reqs[t := s.reqs[t].(resend := true)])
  }

  /** The caller takes the reply and wakes the dispatcher. */
  function TakeReply(s: State, t: Tid): State
    requires t in s.reqs
  {
    s.(reqs := s.reqs[t := s.reqs[t].(reply := false, dispatching := false, caller := Took, handed := s.reqs[t].handed + 1)])
  }

  /** The dispatcher goes on after the caller took the reply. */
  function Resume(s: State): State
    requires s.dispatcher.Some? && s.dispatcher.value.tid in s.reqs
  {
    var p, s' := s.dispatcher.value, s.(dispatcher := None);
    if p.isSafe then Unmap(s', p.tid) else s'
  }

  /** The caller returns. */
  function Return(s: State, t: Tid): State
    requires t in s.reqs
  {
    Put(s.(reqs := s.reqs[t := s.reqs[t].(caller := Gone)]), t)
  }

  /** The session with MDS m closes, for request t. */
  function Kick(s: State, t: Tid, m: Mds): State {
    if t !in s.mapped || t !in s.reqs || s.reqs[t].mds != Some(m) then s else
      var q := s.reqs[t].(onSession := None, kick := s.reqs[t].kick || s.reqs[t].caller == Waiting);
      var s' := s.(reqs := s.reqs[t := q]);
      if q.gotUnsafe then Unmap(s', t) else s'
  }

  // ---------------------------------------------------------------- the invariant

  /** The dispatcher waits for the caller of request t. */
  predicate PendsOn(s: State, t: Tid) { s.dispatcher.Some? && s.dispatcher.value.tid == t }

  ghost predicate ReqOk(s: State, t: Tid)
    requires t in s.reqs
  {
    var q, mapped, here := s.reqs[t], t in s.mapped, PendsOn(s, t);
    && q.ref == One(q.caller != Gone) + One(mapped) && q.ref > 0
    && q.handed == One(q.caller != Waiting)
    && (q.onUnsafe.Some? <==> q.gotUnsafe && mapped)
    && (q.onSession.Some? ==> (mapped || q.gotUnsafe) && (q.mds == q.onSession || q.mds.None?))
    && (mapped && !here ==> !q.reply && (q.gotUnsafe <==> q.caller != Waiting))
    && (q.caller == Waiting ==> (mapped || (here && q.gotUnsafe)) && q.dispatching == q.reply == here)
    && (here ==> (mapped || q.gotUnsafe) && q.gotUnsafe != s.dispatcher.value.isSafe
                 && (q.dispatching <==> q.caller == Waiting) && q.reply == q.dispatching)
    && t <= s.lastTid
  }

  /** What holds in every state.  The dispatcher may wait for a request that has left the table, and even
      for one that has been freed, if the reply it handed over was unsafe. */
  ghost predicate Inv(s: State) {
    && (forall t {:trigger ReqOk(s, t)} | t in s.reqs :: ReqOk(s, t))
    && s.mapped <= s.reqs.Keys
    && (s.dispatcher.Some? ==> s.dispatcher.value.tid <= s.lastTid
                               && (s.dispatcher.value.tid in s.mapped || !s.dispatcher.value.isSafe))
    && s.freed !! s.reqs.Keys && (forall t | t in s.freed :: t <= s.lastTid)
  }

  datatype Step =
    | DoStart
    | DoSend(t: Tid, m: Mds)
    | DoReply(t: Tid, m: Mds, isSafe: bool)
    | DoStale(t: Tid)
    | DoForward(t: Tid)
    | DoTake(t: Tid)
    | DoResume
    | DoReturn(t: Tid)
    | DoKick(t: Tid, m: Mds)

  /** The caller in its loop sends a request that was never sent, or that it was told to send again;
      it may do so while a reply is already attached, after a wait for a map or a session, and then
      even if the request has left the table.  The dispatcher sends again to the MDS that was asked last. */
  predicate MaySend(s: State, t: Tid, m: Mds) {
    t in s.reqs &&
    var q := s.reqs[t];
    || (q.caller == Waiting && (q.mds.None? || q.kick || q.resend))
    || (t in s.mapped && s.dispatcher.None? && q.mds == Some(m))
  }

  /** Messages are handled one at a time.  A session may be closed at any time, since the admin socket
      can do so while the dispatcher waits. */
  predicate Enabled(s: State, a: Step) {
    match a
    case DoStart => true
    case DoSend(t, m) => MaySend(s, t, m)
    case DoReply(_, _, _) => s.dispatcher.None?
    case DoStale(_) => s.dispatcher.None?
    case DoForward(_) => s.dispatcher.None?
    case DoTake(t) => t in s.reqs && s.reqs[t].caller == Waiting && s.reqs[t].reply
    case DoResume => s.dispatcher.Some? && s.dispatcher.value.tid in s.reqs && !s.reqs[s.dispatcher.value.tid].dispatching
    case DoReturn(t) => t in s.reqs && s.reqs[t].caller == Took
    case DoKick(_, _) => true
  }

  function Apply(s: State, a: Step): State
    requires Enabled(s, a)
  {
    match a
    case DoStart => Start(s)
    case DoSend(t, m) => Send(s, t, m)
    case DoReply(t, m, isSafe) => Reply(s, t, m, isSafe)
    case DoStale(t) => Stale(s, t)
    case DoForward(t) => Forward(s, t)
    case DoTake(t) => TakeReply(s, t)
    case DoResume => Resume(s)
    case DoReturn(t) => Return(s, t)
    case DoKick(t, m) => Kick(s, t, m)
  }

  /** Only request t and what concerns it differ. */
  ghost predicate Local(s: State, s': State, t: Tid) {
    && (forall u | u != t :: (u in s.reqs <==> u in s'.reqs) && (u in s.mapped <==> u in s'.mapped))
    && (forall u | u in s.reqs && u != t :: s'.reqs[u] == s.reqs[u])
    && s.lastTid <= s'.lastTid
    && (s'.dispatcher == s.dispatcher || (s.dispatcher.None? && s'.dispatcher.Some? && s'.dispatcher.value.tid == t)
        || (s'.dispatcher.None? && s.dispatcher.Some? && s.dispatcher.value.tid == t))
  }

  lemma LocalOk(s: State, s': State, t: Tid)
    requires Inv(s) && Local(s, s', t)
    requires t in s'.reqs ==> ReqOk(s', t)
    requires t in s'.mapped ==> t in s'.reqs
    requires PendsOn(s', t) ==> (t in s'.mapped || !s'.dispatcher.value.isSafe) && t <= s'.lastTid
    requires s'.freed == s.freed || (s'.freed == s.freed + {t} && t in s.reqs && t !in s'.reqs)
    requires t in s'.reqs ==> t in s.reqs || t > s.lastTid
    ensures Inv(s')
  {
    forall u | u in s'.reqs ensures ReqOk(s', u) {
      if u != t { assert ReqOk(s, u); }
    }
    if t in s.reqs { assert ReqOk(s, t); }
  }

  lemma StartOk(s: State)
    requires Inv(s)
    ensures Inv(Start(s))
  {
    var t := s.lastTid + 1;
    assert t in s.reqs ==> ReqOk(s, t);
    LocalOk(s, Start(s), t);
  }

  lemma ReplyOk(s: State, t: Tid, m: Mds, isSafe: bool)
    requires Inv(s) && Enabled(s, DoReply(t, m, isSafe))
    ensures Inv(Reply(s, t, m, isSafe))
  {
    if t in s.reqs { assert ReqOk(s, t); LocalOk(s, Reply(s, t, m, isSafe), t); }
  }

  lemma ResumeOk(s: State)
    requires Inv(s) && Enabled(s, DoResume)
    ensures Inv(Resume(s))
  {
    var t := s.dispatcher.value.tid;
    assert ReqOk(s, t);
    LocalOk(s, Resume(s), t);
  }

  lemma KickOk(s: State, t: Tid, m: Mds)
    requires Inv(s)
    ensures Inv(Kick(s, t, m))
  {
    if t in s.reqs { assert ReqOk(s, t); LocalOk(s, Kick(s, t, m), t); }
  }

  lemma ReturnOk(s: State, t: Tid)
    requires Inv(s) && Enabled(s, DoReturn(t))
    ensures Inv(Return(s, t))
  {
    assert ReqOk(s, t);
    LocalOk(s, Return(s, t), t);
  }

  lemma StepOk(s: State, a: Step)
    requires Inv(s) && Enabled(s, a)
    ensures Inv(Apply(s, a))
  {
    match a
    case DoStart => StartOk(s);
    case DoSend(t, m) => assert ReqOk(s, t); LocalOk(s, Send(s, t, m), t);
    case DoReply(t, m, isSafe) => ReplyOk(s, t, m, isSafe);
    case DoStale(t) => if t in s.reqs { assert ReqOk(s, t); LocalOk(s, Stale(s, t), t); }
    case DoForward(t) => if t in s.reqs { assert ReqOk(s, t); LocalOk(s, Forward(s, t), t); }
    case DoTake(t) => assert ReqOk(s, t); LocalOk(s, TakeReply(s, t), t);
    case DoResume => ResumeOk(s);
    case DoReturn(t) => ReturnOk(s, t);
    case DoKick(t, m) => KickOk(s, t, m);
  }

  // ---------------------------------------------------------------- runs

  ghost predicate Run(s: State, steps: seq<Step>, s': State)
    decreases |steps|
  {
    if steps == [] then s' == s else Enabled(s, steps[0]) && Run(Apply(s, steps[0]), steps[1..], s')
  }

  lemma {:induction false} RunOk(s: State, steps: seq<Step>, s': State)
    requires Inv(s) && Run(s, steps, s')
    ensures Inv(s')
    decreases |steps|
  {
    if steps != [] {
      StepOk(s, steps[0]);
      RunOk(Apply(s, steps[0]), steps[1..], s');
    }
  }

  const INITIAL := State(map[], {}, None, 0, {})

  /** In every state of every run: a request's count is one for a caller that has not returned plus
      one if it is in the table; the caller has been handed at most one reply and is past its wait
      only with one; it is on an unsafe list exactly when it got an unsafe reply and is in the table;
      no reply is attached where the code asserts that there is none; and the caller that a message
      about the request is to wake is waiting if and only if the request got no unsafe reply. */
  lemma EveryRun(steps: seq<Step>, s: State, t: Tid)
    requires Run(INITIAL, steps, s) && t in s.reqs
    ensures
      var q := s.reqs[t];
      && q.ref == One(q.caller != Gone) + One(t in s.mapped)
      && q.handed <= 1 && (q.caller != Waiting <==> q.handed == 1)
      && (q.onUnsafe.Some? <==> q.gotUnsafe && t in s.mapped)
      && (t in s.mapped && s.dispatcher.None? ==> !q.reply && (q.caller == Waiting <==> !q.gotUnsafe))
      && (q.caller == Waiting && q.reply ==> q.dispatching)
      && t !in s.freed
  {
    RunOk(INITIAL, steps, s);
    assert ReqOk(s, t);
  }

  /** A request is freed by the step that takes away its last holder, and by no other; once freed it is
      in no table, and no dispatcher comes to wait for it that did not wait for it before. */
  lemma FreedExactlyOnce(s: State, a: Step, t: Tid)
    requires Inv(s) && Enabled(s, a)
    ensures t in s.freed ==> t in Apply(s, a).freed && t !in Apply(s, a).reqs && t !in Apply(s, a).mapped
    ensures t in s.freed && PendsOn(Apply(s, a), t) ==> PendsOn(s, t)
    ensures t in s.reqs ==> (t in Apply(s, a).freed <==> t !in Apply(s, a).reqs)
    ensures t in Apply(s, a).freed && t !in s.freed ==>
              && t in s.reqs && t !in Apply(s, a).mapped
              && (s.reqs[t].caller == Gone || a == DoReturn(t))
  {
    StepOk(s, a);
    if t in s.reqs { assert ReqOk(s, t); }
    if a.DoReply? && a.t in s.reqs { assert ReqOk(s, a.t); }
    if a.DoResume? { assert ReqOk(s, s.dispatcher.value.tid); }
    if a.DoReturn? { assert ReqOk(s, a.t); }
  }

  // ---------------------------------------------------------------- closing a session under the dispatcher

  /** The step gives up a request that got an unsafe reply, because its session closes. */
  predicate KicksOut(s: State, a: Step, t: Tid) {
    a.DoKick? && a.t == t && t in s.mapped && t in s.reqs && s.reqs[t].mds == Some(a.m) && s.reqs[t].gotUnsafe
  }

  ghost predicate KickedOut(s: State, steps: seq<Step>, t: Tid)
    decreases |steps|
  {
    steps != [] && Enabled(s, steps[0]) &&
    (KicksOut(s, steps[0], t) || KickedOut(Apply(s, steps[0]), steps[1..], t))
  }

  predicate Sends(a: Step, t: Tid) { a.DoSend? && a.t == t }

  ghost predicate SentIn(steps: seq<Step>, t: Tid)
    decreases |steps|
  {
    steps != [] && (Sends(steps[0], t) || SentIn(steps[1..], t))
  }

  /** The request is given up and its caller sends it after that. */
  ghost predicate KickedThenSent(s: State, steps: seq<Step>, t: Tid)
    decreases |steps|
  {
    steps != [] && Enabled(s, steps[0]) &&
    ((KicksOut(s, steps[0], t) && SentIn(steps[1..], t)) || KickedThenSent(Apply(s, steps[0]), steps[1..], t))
  }

  /** Request t has been in the table and has left it. */
  predicate Out(s: State, t: Tid) { t <= s.lastTid && t !in s.mapped }

  lemma StepOut(s: State, a: Step, t: Tid)
    requires Inv(s) && Enabled(s, a) && Out(s, t)
    ensures Out(Apply(s, a), t) && (PendsOn(Apply(s, a), t) ==> PendsOn(s, t)) && !KicksOut(s, a, t)
    ensures t in Apply(s, a).reqs ==> t in s.reqs
    ensures t in Apply(s, a).reqs ==>
              (Apply(s, a).reqs[t].onSession.Some? <==> s.reqs[t].onSession.Some? || Sends(a, t))
    ensures t in s.reqs && s.reqs[t].caller != Waiting ==>
              !Sends(a, t) && (t in Apply(s, a).reqs ==> Apply(s, a).reqs[t].caller != Waiting)
  {
    if t in s.reqs { assert ReqOk(s, t); }
    if a.DoResume? { assert ReqOk(s, s.dispatcher.value.tid); }
  }

  /** A request that has left the table stays out, and no dispatcher comes to wait for it. */
  lemma {:induction false} StaysOut(s: State, steps: seq<Step>, s': State, t: Tid)
    requires Inv(s) && Run(s, steps, s') && Out(s, t)
    ensures Out(s', t) && (PendsOn(s', t) ==> PendsOn(s, t))
    ensures !KickedOut(s, steps, t) && !KickedThenSent(s, steps, t)
    ensures t in s'.reqs ==> t in s.reqs && (s'.reqs[t].onSession.Some? <==> s.reqs[t].onSession.Some? || SentIn(steps, t))
    ensures t in s'.reqs && s.reqs[t].caller != Waiting ==> !SentIn(steps, t)
    decreases |steps|
  {
    if steps != [] {
      StepOk(s, steps[0]);
      StepOut(s, steps[0], t);
      StaysOut(Apply(s, steps[0]), steps[1..], s', t);
    }
  }

  /** How a request leaves the table: by being kicked out, or for good. */
  lemma LeavesTable(s: State, a: Step, t: Tid)
    requires Inv(s) && Enabled(s, a) && t in s.mapped && t !in Apply(s, a).mapped
    ensures Out(Apply(s, a), t)
    ensures t in Apply(s, a).reqs ==> Apply(s, a).reqs[t].onSession.None?
    ensures !KicksOut(s, a, t) ==>
              !PendsOn(Apply(s, a), t) && (t in Apply(s, a).reqs ==> Apply(s, a).reqs[t].caller != Waiting)
  {
    assert ReqOk(s, t);
    if a.DoResume? { assert ReqOk(s, s.dispatcher.value.tid); }
  }

  lemma StaysIn(s: State, a: Step, t: Tid)
    requires Inv(s) && Enabled(s, a) && (t in s.mapped || t > s.lastTid) && !Out(Apply(s, a), t)
    ensures !KicksOut(s, a, t)
  {
    if t in s.mapped { assert ReqOk(s, t); }
  }

  /** A dispatcher that waits for an unsafe reply to be taken waits for a request out of the table if and
      only if the request was kicked out; and a request out of the table is on a session's list if and
      only if it was sent after being kicked out. */
  lemma {:induction false} OutOfTable(s: State, steps: seq<Step>, s': State, t: Tid)
    requires Inv(s) && Run(s, steps, s') && (t in s.mapped || t > s.lastTid)
    ensures PendsOn(s', t) ==> (t !in s'.mapped <==> KickedOut(s, steps, t))
    ensures t in s'.reqs && t !in s'.mapped ==> (s'.reqs[t].onSession.Some? <==> KickedThenSent(s, steps, t))
    decreases |steps|
  {
    if steps == [] {
      if t in s.reqs { assert ReqOk(s, t); }
    } else {
      var a, s1, rest := steps[0], Apply(s, steps[0]), steps[1..];
      StepOk(s, a);
      if Out(s1, t) {
        LeavesTable(s, a, t);
        StaysOut(s1, rest, s', t);
      } else {
        StaysIn(s, a, t);
        OutOfTable(s1, rest, s', t);
      }
    }
  }

  ghost predicate Returned(s: State, t: Tid) { t in s.freed || (t in s.reqs && s.reqs[t].caller == Gone) }

  lemma StepReturned(s: State, a: Step, t: Tid)
    requires Inv(s) && Enabled(s, a)
    ensures Returned(Apply(s, a), t) <==> Returned(s, t) || a == DoReturn(t)
  {
    FreedExactlyOnce(s, a, t);
    if t in s.reqs { assert ReqOk(s, t); }
    if a.DoReply? && a.t in s.reqs { assert ReqOk(s, a.t); }
    if a.DoResume? { assert ReqOk(s, s.dispatcher.value.tid); }
  }

  lemma {:induction false} ReturnedIff(s: State, steps: seq<Step>, s': State, t: Tid)
    requires Inv(s) && Run(s, steps, s')
    ensures Returned(s', t) <==> Returned(s, t) || DoReturn(t) in steps
    decreases |steps|
  {
    if steps != [] {
      StepOk(s, steps[0]);
      StepReturned(s, steps[0], t);
      ReturnedIff(Apply(s, steps[0]), steps[1..], s', t);
      assert DoReturn(t) in steps <==> steps[0] == DoReturn(t) || DoReturn(t) in steps[1..];
    }
  }

  /** Exactly when the dispatcher, in its wait, looks at a request that has been freed: the reply it handed
      over was unsafe, the session was closed since, and the caller has returned. */
  lemma DispatcherOnFreed(steps: seq<Step>, s: State, t: Tid, isSafe: bool)
    requires Run(INITIAL, steps, s) && s.dispatcher == Some(Pending(t, isSafe))
    ensures t in s.freed <==> !isSafe && KickedOut(INITIAL, steps, t) && DoReturn(t) in steps
  {
    RunOk(INITIAL, steps, s);
    if t == 0 { StaysOut(INITIAL, steps, s, t); } else { OutOfTable(INITIAL, steps, s, t); }
    ReturnedIff(INITIAL, steps, s, t);
    if t in s.reqs { assert ReqOk(s, t); }
  }

  /** Exactly when the return that frees a request finds it still on a session's list, which the code
      asserts it is not: it was kicked out while its caller was about to ask another MDS, and sent then. */
  lemma FreedOnList(steps: seq<Step>, s: State, t: Tid)
    requires Run(INITIAL, steps, s) && Enabled(s, DoReturn(t)) && t in Apply(s, DoReturn(t)).freed
    ensures s.reqs[t].onUnsafe.None?
    ensures s.reqs[t].onSession.Some? <==> KickedThenSent(INITIAL, steps, t)
  {
    RunOk(INITIAL, steps, s);
    assert ReqOk(s, t);
    if t == 0 { StaysOut(INITIAL, steps, s, t); } else { OutOfTable(INITIAL, steps, s, t); }
  }

  // ---------------------------------------------------------------- closing a session

  /** Request t is the same in both states. */
  ghost predicate SameRequest(s: State, s': State, t: Tid) {
    && (t in s.reqs <==> t in s'.reqs) && (t in s.mapped <==> t in s'.mapped)
    && (t in s.reqs && t in s'.reqs ==> s.reqs[t] == s'.reqs[t])
  }

  /** Request t has been kicked if it is among T, and left alone otherwise. */
  ghost predicate Kicked(s: State, s': State, T: set<Tid>, m: Mds, t: Tid) {
    SameRequest(if t in T then Kick(s, t, m) else s, s', t)
  }

  ghost predicate AllKicked(s: State, s': State, T: set<Tid>, m: Mds) {
    forall t {:trigger Kicked(s, s', T, m, t)} :: Kicked(s, s', T, m, t)
  }

  lemma KickLocal(s: State, t: Tid, m: Mds, u: Tid)
    requires u != t
    ensures SameRequest(s, Kick(s, t, m), u)
  {
  }

  lemma KickNext(s: State, s': State, T: set<Tid>, m: Mds, t: Tid)
    requires AllKicked(s, s', T, m) && t !in T
    ensures AllKicked(s, Kick(s', t, m), T + {t}, m)
  {
    forall u ensures Kicked(s, Kick(s', t, m), T + {t}, m, u) {
      assert Kicked(s, s', T, m, u);
      if u != t { KickLocal(s', t, m, u); }
    }
  }

  /** Some request is on the request list of MDS m although another MDS is to be asked, or although it
      has left the table. */
  ghost predicate ForwardedOn(s: State, m: Mds) {
    exists t :: t in s.reqs && s.reqs[t].onSession == Some(m) && (s.reqs[t].mds.None? || t !in s.mapped)
  }

  ghost predicate RequestListEmpty(s: State, m: Mds) {
    forall t | t in s.reqs :: s.reqs[t].onSession != Some(m)
  }

  ghost predicate UnsafeListEmpty(s: State, m: Mds) {
    forall t | t in s.reqs :: s.reqs[t].onUnsafe != Some(m)
  }

  /** Some request is on the unsafe list of MDS m although another MDS was asked since. */
  ghost predicate StrayedOn(s: State, m: Mds) {
    exists t :: t in s.reqs && s.reqs[t].onUnsafe == Some(m) && s.reqs[t].mds != Some(m)
  }

  /** Once every request has been kicked, the session's unsafe list is empty exactly when no request
      on it had been sent elsewhere since, and its request list exactly when no request had been
      forwarded away without having been sent again, or sent after leaving the table. */
  lemma SessionListsAfterKick(s: State, s': State, m: Mds)
    requires Inv(s) && Inv(s') && AllKicked(s, s', s.mapped, m)
    ensures UnsafeListEmpty(s', m) <==> !StrayedOn(s, m)
    ensures RequestListEmpty(s', m) <==> !ForwardedOn(s, m)
  {
    if StrayedOn(s, m) {
      var t :| t in s.reqs && s.reqs[t].onUnsafe == Some(m) && s.reqs[t].mds != Some(m);
      assert ReqOk(s, t) && Kicked(s, s', s.mapped, m, t);
      assert t in s'.reqs && s'.reqs[t].onUnsafe == Some(m);
    } else {
      forall t | t in s'.reqs ensures s'.reqs[t].onUnsafe != Some(m) {
        assert Kicked(s, s', s.mapped, m, t) && ReqOk(s, t);
      }
    }
    if ForwardedOn(s, m) {
      var t :| t in s.reqs && s.reqs[t].onSession == Some(m) && (s.reqs[t].mds.None? || t !in s.mapped);
      assert ReqOk(s, t) && Kicked(s, s', s.mapped, m, t);
      assert t in s'.reqs && s'.reqs[t].onSession == Some(m);
    } else {
      forall t | t in s'.reqs ensures s'.reqs[t].onSession != Some(m) {
        assert Kicked(s, s', s.mapped, m, t) && ReqOk(s, t);
      }
    }
  }

  ghost function After(s: State, steps: seq<Step>): State
    decreases |steps|
  {
    if steps == [] || !Enabled(s, steps[0]) then s else After(Apply(s, steps[0]), steps[1..])
  }

  /** A request that was forwarded stays on the list of the session that closes. */
  lemma ForwardedStays(m: Mds)
    ensures var steps := [DoStart, DoSend(1, m), DoForward(1)];
            var s := After(INITIAL, steps);
            Run(INITIAL, steps, s) && s.dispatcher.None? && ForwardedOn(s, m) && !RequestListEmpty(Kick(s, 1, m), m)
  {
    var s1 := Apply(INITIAL, DoStart);
    var s2 := Apply(s1, DoSend(1, m));
    var s3 := Apply(s2, DoForward(1));
    Unrolls(INITIAL, [DoStart, DoSend(1, m), DoForward(1)], [DoSend(1, m), DoForward(1)], s1);
    Unrolls(s1, [DoSend(1, m), DoForward(1)], [DoForward(1)], s2);
    Unrolls(s2, [DoForward(1)], [], s3);
    assert s3.reqs[1].onSession == Some(m) && s3.reqs[1].mds.None?;
    assert Kick(s3, 1, m).reqs[1].onSession == Some(m);
  }

  lemma Unrolls(s: State, steps: seq<Step>, rest: seq<Step>, s1: State)
    requires steps != [] && rest == steps[1..] && Enabled(s, steps[0]) && s1 == Apply(s, steps[0])
    ensures After(s, steps) == After(s1, rest)
    ensures forall s' {:trigger Run(s, steps, s')} :: Run(s, steps, s') == Run(s1, rest, s')
  {
  }

  /** Request 1 has been sent to m, and sent again, and its caller is about to ask another MDS. */
  ghost predicate AboutToAsk(s: State, m: Mds) {
    && s.dispatcher.None? && s.mapped == {1} && s.reqs.Keys == {1}
    && var q := s.reqs[1];
       q.ref == 2 && q.caller == Waiting && q.mds == Some(m) && q.resend && !q.gotUnsafe && !q.reply && q.onUnsafe.None?
  }

  lemma StrayedHead(m: Mds, rest: seq<Step>) returns (s4: State)
    ensures AboutToAsk(s4, m)
    ensures var steps := [DoStart, DoSend(1, m), DoSend(1, m), DoStale(1)] + rest;
            After(INITIAL, steps) == After(s4, rest) && forall s' :: Run(INITIAL, steps, s') == Run(s4, rest, s')
  {
    var s1 := Apply(INITIAL, DoStart);
    var s2 := Apply(s1, DoSend(1, m));
    var s3 := Apply(s2, DoSend(1, m));
    s4 := Apply(s3, DoStale(1));
    var r3 := [DoStale(1)] + rest;
    var r2 := [DoSend(1, m)] + r3;
    var r1 := [DoSend(1, m)] + r2;
    Unrolls(INITIAL, [DoStart] + r1, r1, s1);
    Unrolls(s1, r1, r2, s2);
    Unrolls(s2, r2, r3, s3);
    Unrolls(s3, r3, rest, s4);
    assert [DoStart] + r1 == [DoStart, DoSend(1, m), DoSend(1, m), DoStale(1)] + rest;
  }

  lemma StrayedTail(s4: State, m: Mds, n: Mds)
    requires n != m && AboutToAsk(s4, m)
    ensures var steps := [DoReply(1, m, false), DoSend(1, n), DoTake(1), DoResume];
            var s := After(s4, steps);
            && Run(s4, steps, s) && s.dispatcher.None? && StrayedOn(s, m) && !UnsafeListEmpty(Kick(s, 1, m), m)
            && 1 in s.mapped && 1 in s.reqs && s.reqs[1].caller != Waiting
  {
    var s5 := Apply(s4, DoReply(1, m, false));
    var s6 := Apply(s5, DoSend(1, n));
    var s7 := Apply(s6, DoTake(1));
    var s8 := Apply(s7, DoResume);
    Unrolls(s4, [DoReply(1, m, false), DoSend(1, n), DoTake(1), DoResume], [DoSend(1, n), DoTake(1), DoResume], s5);
    Unrolls(s5, [DoSend(1, n), DoTake(1), DoResume], [DoTake(1), DoResume], s6);
    Unrolls(s6, [DoTake(1), DoResume], [DoResume], s7);
    Unrolls(s7, [DoResume], [], s8);
    assert s8.reqs[1].onUnsafe == Some(m) && s8.reqs[1].mds == Some(n);
    assert Kick(s8, 1, m).reqs[1].onUnsafe == Some(m);
  }

  /** A request answered unsafely by m while its caller was about to ask n stays on the unsafe list
      of the session with m when that closes. */
  lemma StrayedStays(m: Mds, n: Mds)
    requires n != m
    ensures var steps := [DoStart, DoSend(1, m), DoSend(1, m), DoStale(1), DoReply(1, m, false), DoSend(1, n), DoTake(1), DoResume];
            var s := After(INITIAL, steps);
            Run(INITIAL, steps, s) && s.dispatcher.None? && StrayedOn(s, m) && !UnsafeListEmpty(Kick(s, 1, m), m)
  {
    var rest := [DoReply(1, m, false), DoSend(1, n), DoTake(1), DoResume];
    var s4 := StrayedHead(m, rest);
    StrayedTail(s4, m, n);
    assert [DoStart, DoSend(1, m), DoSend(1, m), DoStale(1)] + rest
        == [DoStart, DoSend(1, m), DoSend(1, m), DoStale(1), DoReply(1, m, false), DoSend(1, n), DoTake(1), DoResume];
  }

  /** An MDS that is asked after another has answered unsafely can still forward the request; nobody is
      waiting to be woken then. */
  lemma ForwardFindsNobody(m: Mds, n: Mds)
    requires n != m
    ensures var steps := [DoStart, DoSend(1, m), DoSend(1, m), DoStale(1), DoReply(1, m, false), DoSend(1, n), DoTake(1), DoResume];
            var s := After(INITIAL, steps);
            Run(INITIAL, steps, s) && Enabled(s, DoForward(1)) && 1 in s.mapped && 1 in s.reqs && s.reqs[1].caller != Waiting
  {
    var rest := [DoReply(1, m, false), DoSend(1, n), DoTake(1), DoResume];
    var s4 := StrayedHead(m, rest);
    StrayedTail(s4, m, n);
    assert [DoStart, DoSend(1, m), DoSend(1, m), DoStale(1)] + rest
        == [DoStart, DoSend(1, m), DoSend(1, m), DoStale(1), DoReply(1, m, false), DoSend(1, n), DoTake(1), DoResume];
  }

  /** The admin socket closes the session while the dispatcher waits: the caller returns and the
      dispatcher is left with a request that has been freed. */
  lemma FreedUnderDispatcher(m: Mds)
    ensures var steps := [DoStart, DoSend(1, m), DoReply(1, m, false), DoKick(1, m), DoTake(1), DoReturn(1)];
            var s := After(INITIAL, steps);
            Run(INITIAL, steps, s) && 1 in s.freed && s.dispatcher == Some(Pending(1, false))
  {
    var s1 := Apply(INITIAL, DoStart);
    var s2 := Apply(s1, DoSend(1, m));
    var s3 := Apply(s2, DoReply(1, m, false));
    var s4 := Apply(s3, DoKick(1, m));
    var s5 := Apply(s4, DoTake(1));
    var s6 := Apply(s5, DoReturn(1));
    var r4 := [DoTake(1), DoReturn(1)];
    var r3 := [DoKick(1, m)] + r4;
    var r2 := [DoReply(1, m, false)] + r3;
    var r1 := [DoSend(1, m)] + r2;
    Unrolls(INITIAL, [DoStart] + r1, r1, s1);
    Unrolls(s1, r1, r2, s2);
    Unrolls(s2, r2, r3, s3);
    Unrolls(s3, r3, r4, s4);
    Unrolls(s4, r4, [DoReturn(1)], s5);
    Unrolls(s5, [DoReturn(1)], [], s6);
    assert [DoStart] + r1 == [DoStart, DoSend(1, m), DoReply(1, m, false), DoKick(1, m), DoTake(1), DoReturn(1)];
  }

  /** The same while the caller was about to ask n: the return frees a request that is on a session's list. */
  lemma ReturnsOnList(m: Mds, n: Mds)
    requires n != m
    ensures var steps := [DoStart, DoSend(1, m), DoSend(1, m), DoStale(1), DoReply(1, m, false), DoKick(1, m), DoSend(1, n), DoTake(1)];
            var s := After(INITIAL, steps);
            Run(INITIAL, steps, s) && Enabled(s, DoReturn(1)) && 1 in Apply(s, DoReturn(1)).freed && s.reqs[1].onSession == Some(n)
  {
    var rest := [DoReply(1, m, false), DoKick(1, m), DoSend(1, n), DoTake(1)];
    var s4 := StrayedHead(m, rest);
    KickedTail(s4, m, n);
    assert [DoStart, DoSend(1, m), DoSend(1, m), DoStale(1)] + rest
        == [DoStart, DoSend(1, m), DoSend(1, m), DoStale(1), DoReply(1, m, false), DoKick(1, m), DoSend(1, n), DoTake(1)];
  }

  lemma KickedTail(s4: State, m: Mds, n: Mds)
    requires n != m && AboutToAsk(s4, m)
    ensures var steps := [DoReply(1, m, false), DoKick(1, m), DoSend(1, n), DoTake(1)];
            var s := After(s4, steps);
            Run(s4, steps, s) && Enabled(s, DoReturn(1)) && 1 in Apply(s, DoReturn(1)).freed && s.reqs[1].onSession == Some(n)
  {
    var s5 := Apply(s4, DoReply(1, m, false));
    var s6 := Apply(s5, DoKick(1, m));
    var s7 := Apply(s6, DoSend(1, n));
    var s8 := Apply(s7, DoTake(1));
    Unrolls(s4, [DoReply(1, m, false), DoKick(1, m), DoSend(1, n), DoTake(1)], [DoKick(1, m), DoSend(1, n), DoTake(1)], s5);
    Unrolls(s5, [DoKick(1, m), DoSend(1, n), DoTake(1)], [DoSend(1, n), DoTake(1)], s6);
    Unrolls(s6, [DoSend(1, n), DoTake(1)], [DoTake(1)], s7);
    Unrolls(s7, [DoTake(1)], [], s8);
  }

  // ---------------------------------------------------------------- the table, updated in place

  class RequestTable {
    var reqs: map<Tid, Request>
    var mapped: set<Tid>
    var dispatcher: Option<Pending>
    var lastTid: Tid
    ghost var freed: set<Tid>

    ghost function S(): State
      reads this
    {
      State(reqs, mapped, dispatcher, lastTid, freed)
    }

    constructor ()
      ensures S() == INITIAL
    {
      reqs, mapped, dispatcher, lastTid, freed := map[], {}, None, 0, {};
    }

    method PutRequest(t: Tid)
      requires t in reqs
      modifies this`reqs, this`freed
      ensures S() == Put(old(S()), t)
    {
      var q := reqs[t].(ref := reqs[t].ref - 1);
      if q.ref == 0 {
        reqs, freed := reqs - {t}, freed + {t};
      } else {
        reqs := reqs[t := q];
      }
    }

    /** The part of make_request up to its first wait. */
    method MakeRequest() returns (t: Tid)
      requires Inv(S())
      modifies this
      ensures S() == Start(old(S())) && Inv(S()) && t == old(lastTid) + 1
    {
      StartOk(S());
      lastTid := lastTid + 1;
      t := lastTid;
      var q := Request(1, Waiting, None, None, None, false, false, false, false, false, 0);
      q := q.(ref := q.ref + 1);
      reqs, mapped := reqs[t := q], mapped + {t};
    }

    /** Sends a request, or sends it again, over the session with MDS m. */
    method SendRequest(t: Tid, m: Mds)
      requires Inv(S()) && Enabled(S(), DoSend(t, m))
      modifies this`reqs
      ensures S() == Send(old(S()), t, m) && Inv(S())
    {
      StepOk(S(), DoSend(t, m));
      var q := reqs[t].(mds := Some(m), onSession := Some(m));
      reqs := reqs[t := q.(kick := false, resend := false)];
    }

    /** An MDS wants the request sent elsewhere. */
    method HandleForward(t: Tid)
      requires Inv(S()) && Enabled(S(), DoForward(t))
      modifies this`reqs
      ensures S() == Forward(old(S()), t) && Inv(S())
    {
      StepOk(S(), DoForward(t));
      if t in mapped { reqs := reqs[t := reqs[t].(mds := None, resend := true)]; }
    }

    /** The part of make_request after the wait: the reply is taken and the dispatcher woken. */
    method TakeTheReply(t: Tid)
      requires Inv(S()) && Enabled(S(), DoTake(t))
      modifies this`reqs
      ensures S() == TakeReply(old(S()), t) && Inv(S()) && old(reqs)[t].dispatching
    {
      StepOk(S(), DoTake(t));
      assert ReqOk(S(), t);
      var q := reqs[t].(reply := false);
      q := q.(dispatching := false);
      reqs := reqs[t := q.(caller := Took, handed := q.handed + 1)];
    }

    method ReturnFromRequest(t: Tid)
      requires Inv(S()) && Enabled(S(), DoReturn(t))
      modifies this`reqs, this`freed
      ensures S() == Return(old(S()), t) && Inv(S())
    {
      ReturnOk(S(), t);
      reqs := reqs[t := reqs[t].(caller := Gone)];
      PutRequest(t);
    }

    /** Takes request t off its lists and out of the table. */
    method Retire(t: Tid)
      requires t in reqs
      modifies this`reqs, this`mapped, this`freed
      ensures S() == Unmap(old(S()), t)
    {
      reqs := reqs[t := reqs[t].(onSession := None, onUnsafe := None)];
      mapped := mapped - {t};
      PutRequest(t);
    }

    /** The part of handle_client_reply up to the wait for the caller. */
    method HandleClientReply(t: Tid, m: Mds, isSafe: bool)
      requires Inv(S()) && Enabled(S(), DoReply(t, m, isSafe))
      modifies this
      ensures S() == Reply(old(S()), t, m, isSafe) && Inv(S())
    {
      ReplyOk(S(), t, m, isSafe);
      if t !in mapped { return; }
      var q := reqs[t];
      assert ReqOk(S(), t);
      if q.gotUnsafe && !isSafe { return; }
      assert !q.reply;
      if q.gotUnsafe {
        reqs := reqs[t := q.(reply := true)];
        Retire(t);
      } else {
        var q' := q.(reply := true, dispatching := true, gotUnsafe := !isSafe);
        if !isSafe { q' := q'.(onUnsafe := Some(m)); }
        reqs, dispatcher := reqs[t := q'], Some(Pending(t, isSafe));
      }
    }

    /** The part of handle_client_reply after the wait for the caller. */
    method ResumeDispatch()
      requires Inv(S()) && Enabled(S(), DoResume)
      modifies this
      ensures S() == Resume(old(S())) && Inv(S())
    {
      ResumeOk(S());
      var p := dispatcher.value;
      dispatcher := None;
      if p.isSafe { Retire(p.tid); }
    }

    /** The session with MDS m is closed: its callers are told to try again, and requests with only
        an unsafe reply are given up. */
    method KickRequestsClosed(m: Mds)
      requires Inv(S())
      modifies this
      ensures Inv(S()) && AllKicked(old(S()), S(), old(mapped), m)
      ensures UnsafeListEmpty(S(), m) <==> !StrayedOn(old(S()), m)
      ensures RequestListEmpty(S(), m) <==> !ForwardedOn(old(S()), m)
    {
      ghost var was := S();
      var rest := mapped;
      while rest != {}
        invariant Inv(S()) && rest <= was.mapped
        invariant AllKicked(was, S(), was.mapped - rest, m)
        decreases rest
      {
        var t :| t in rest;
        KickNext(was, S(), was.mapped - rest, m, t);
        assert was.mapped - rest + {t} == was.mapped - (rest - {t});
        KickRequest(t, m);
        rest := rest - {t};
      }
      assert was.mapped - rest == was.mapped;
      SessionListsAfterKick(was, S(), m);
    }

    method KickRequest(t: Tid, m: Mds)
      requires Inv(S())
      modifies this
      ensures S() == Kick(old(S()), t, m) && Inv(S())
    {
      KickOk(S(), t, m);
      if t !in mapped || reqs[t].mds != Some(m) { return; }
      var q := reqs[t].(onSession := None);
      if q.caller == Waiting { q := q.(kick := true); }
      reqs := reqs[t := q];
      if q.gotUnsafe { Retire(t); }
    }
  }
}
