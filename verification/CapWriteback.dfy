/**
 * Dirty metadata is not lost: whatever the order of modifications, flushes, repeated
 * flushes and acknowledgments, a modified bit stays marked until a flush sent after its
 * last modification is acknowledged, or the session that would take it is gone.
 */
module CapWriteback {
  import opened NatSets
  import opened Options
  import opened CapProtocol

  // ---------------------------------------------------------------- the history decides what is saved

  ghost predicate DirtiedAt(log: seq<Event>, p: int, b: Bit) {
    0 <= p < |log| && log[p].Dirtied? && b in log[p].bits
  }

  ghost predicate FlushedAt(log: seq<Event>, r: int, b: Bit) {
    0 <= r < |log| && log[r].Flushed? && b in log[r].bits
  }

  /** Event q acknowledges flush event r for bit b. */
  ghost predicate AckedAt(log: seq<Event>, r: int, q: int, b: Bit) {
    0 <= r < q < |log| && FlushedAt(log, r, b) && log[q].Acked? && log[q].tid == log[r].tid && b in log[q].bits
  }

  ghost predicate SavedSince(log: seq<Event>, p: int, b: Bit) {
    || (exists r, q :: p < r && AckedAt(log, r, q, b))
    || (exists q :: 0 <= p < q < |log| && log[q].Dropped?)
  }

  /** Some modification of bit b has not reached the MDS. */
  ghost predicate Unsaved(log: seq<Event>, b: Bit) {
    exists p :: DirtiedAt(log, p, b) && !SavedSince(log, p, b)
  }

  /** The last flush that carried bit b. */
  ghost function LastFlush(log: seq<Event>, b: Bit): (r: int)
    ensures -1 <= r < |log| && (r >= 0 ==> FlushedAt(log, r, b))
  {
    if log == [] then -1
    else if FlushedAt(log, |log| - 1, b) then |log| - 1
    else
      var r := LastFlush(log[..|log| - 1], b);
      assert r >= 0 ==> log[..|log| - 1][r] == log[r];
      r
  }

  ghost function FullTid(log: seq<Event>, b: Bit): nat {
    var r := LastFlush(log, b);
    if r >= 0 then log[r].tid else 0
  }

  // ---------------------------------------------------------------- the invariant

  /** Bit b is being flushed by its last flush, sent after its last modification. */
  ghost predicate Covered(wb: Writeback, log: seq<Event>, b: Bit) {
    var r := LastFlush(log, b);
    && r >= 0 && log[r].tid <= wb.lastTid && log[r].tid % TID_WRAP == TidOf(wb, b)
    && forall p | p > r :: !DirtiedAt(log, p, b)
  }

  ghost predicate BitOk(wb: Writeback, log: seq<Event>, b: Bit) {
    && (b in wb.flushing && b !in wb.dirty ==> Covered(wb, log, b))
    && (b !in wb.flushing && b !in wb.dirty ==> !Unsaved(log, b))
    && (b in wb.flushing + wb.dirty ==> b < CAP_BITS)
  }

  ghost predicate WbOk(wb: Writeback, log: seq<Event>) {
    forall b {:trigger BitOk(wb, log, b)} :: BitOk(wb, log, b)
  }

  // ---------------------------------------------------------------- one more event

  lemma SavedStays(log: seq<Event>, e: Event, p: int, b: Bit)
    requires SavedSince(log, p, b)
    ensures SavedSince(log + [e], p, b)
  {
    var l := log + [e];
    if r, q :| p < r && AckedAt(log, r, q, b) { assert AckedAt(l, r, q, b); }
    else { var q :| 0 <= p < q < |log| && log[q].Dropped?; assert l[q].Dropped?; }
  }

  /** Nothing becomes unsaved but by a modification. */
  lemma AppendUnsaved(log: seq<Event>, e: Event, b: Bit)
    requires !(e.Dirtied? && b in e.bits) && Unsaved(log + [e], b)
    ensures Unsaved(log, b)
  {
    var p :| DirtiedAt(log + [e], p, b) && !SavedSince(log + [e], p, b);
    if SavedSince(log, p, b) { SavedStays(log, e, p, b); }
    assert DirtiedAt(log, p, b);
  }

  lemma Append(log: seq<Event>, e: Event, b: Bit)
    ensures Unsaved(log + [e], b) ==> Unsaved(log, b) || (e.Dirtied? && b in e.bits)
    ensures LastFlush(log + [e], b) == if e.Flushed? && b in e.bits then |log| else LastFlush(log, b)
    ensures forall p :: DirtiedAt(log + [e], p, b) <==> DirtiedAt(log, p, b) || (p == |log| && e.Dirtied? && b in e.bits)
  {
    var l := log + [e];
    assert l[..|l| - 1] == log;
    if Unsaved(l, b) && !(e.Dirtied? && b in e.bits) { AppendUnsaved(log, e, b); }
  }

  /** An acknowledgment of the last flush of a bit not modified since saves the bit. */
  lemma AckSaves(wb: Writeback, log: seq<Event>, tid: nat, bits: Caps, b: Bit)
    requires Covered(wb, log, b) && tid == FullTid(log, b) && b in bits
    ensures !Unsaved(log + [Acked(tid, bits)], b)
  {
    var l, r := log + [Acked(tid, bits)], LastFlush(log, b);
    if Unsaved(l, b) {
      var p :| DirtiedAt(l, p, b) && !SavedSince(l, p, b);
      assert DirtiedAt(log, p, b);
      assert p < r;
      assert AckedAt(l, r, |log|, b);
    }
  }

  lemma DropSaves(log: seq<Event>, b: Bit)
    ensures !Unsaved(log + [Dropped], b)
  {
    var l := log + [Dropped];
    forall p | DirtiedAt(l, p, b) ensures SavedSince(l, p, b) { assert p < |log| && l[|log|].Dropped?; }
  }

  // ---------------------------------------------------------------- the writeback steps

  lemma MarkDirtyOk(wb: Writeback, log: seq<Event>, bits: Caps)
    requires WbOk(wb, log) && forall b | b in bits :: b < CAP_BITS
    ensures WbOk(wb.(dirty := wb.dirty + bits), log + [Dirtied(bits)])
  {
    var wb', l := wb.(dirty := wb.dirty + bits), log + [Dirtied(bits)];
    forall b ensures BitOk(wb', l, b) { assert BitOk(wb, log, b); Append(log, Dirtied(bits), b); }
  }

  lemma StampTid(wb: Writeback, flush: Caps, tid: nat, b: Bit)
    ensures TidOf(wb.(tids := Stamp(wb.tids, flush, tid)), b) ==
            if b in flush && b < CAP_BITS then tid % TID_WRAP else TidOf(wb, b)
  {
  }

  /** Flushing the dirty bits. */
  lemma FlushDirtyOk(wb: Writeback, log: seq<Event>)
    requires WbOk(wb, log)
    ensures WbOk(wb.(flushing := wb.flushing + wb.dirty, dirty := {}, lastTid := wb.lastTid + 1,
                     tids := Stamp(wb.tids, wb.dirty, wb.lastTid + 1)), log + [Flushed(wb.lastTid + 1, wb.dirty)])
  {
    var tid, e := wb.lastTid + 1, Flushed(wb.lastTid + 1, wb.dirty);
    var wb' := wb.(flushing := wb.flushing + wb.dirty, dirty := {}, lastTid := tid, tids := Stamp(wb.tids, wb.dirty, tid));
    forall b ensures BitOk(wb', log + [e], b) {
      assert BitOk(wb, log, b);
      Append(log, e, b);
      StampTid(wb, wb.dirty, tid, b);
    }
  }

  /** Sending the bits being flushed again. */
  lemma ReflushOk(wb: Writeback, log: seq<Event>)
    requires WbOk(wb, log)
    ensures WbOk(wb.(lastTid := wb.lastTid + 1, tids := Stamp(wb.tids, wb.flushing, wb.lastTid + 1)),
                 log + [Flushed(wb.lastTid + 1, wb.flushing)])
  {
    var tid, e := wb.lastTid + 1, Flushed(wb.lastTid + 1, wb.flushing);
    var wb' := wb.(lastTid := tid, tids := Stamp(wb.tids, wb.flushing, tid));
    forall b ensures BitOk(wb', log + [e], b) {
      assert BitOk(wb, log, b);
      Append(log, e, b);
      StampTid(wb, wb.flushing, tid, b);
    }
  }

  /** Fewer than 65536 flushes separate the last one from the one acknowledged and from
      the last flush of any bit still being flushed. */
  ghost predicate InWindow(wb: Writeback, log: seq<Event>, tid: nat) {
    && tid <= wb.lastTid < tid + TID_WRAP
    && forall b | b in wb.flushing :: wb.lastTid < FullTid(log, b) + TID_WRAP
  }

  lemma SameTid(a: nat, b: nat, last: nat)
    requires a <= last < a + TID_WRAP && b <= last < b + TID_WRAP && a % TID_WRAP == b % TID_WRAP
    ensures a == b
  {
  }

  lemma AckOk(wb: Writeback, log: seq<Event>, tid: nat, bits: Caps)
    requires WbOk(wb, log) && InWindow(wb, log, tid)
    ensures WbOk(wb.(flushing := wb.flushing - Cleaned(wb, tid, bits)), log + [Acked(tid, bits)])
  {
    var wb', e := wb.(flushing := wb.flushing - Cleaned(wb, tid, bits)), Acked(tid, bits);
    forall b ensures BitOk(wb', log + [e], b) {
      assert BitOk(wb, log, b);
      Append(log, e, b);
      if b in wb.flushing && b !in wb.dirty && b in Cleaned(wb, tid, bits) {
        SameTid(tid, FullTid(log, b), wb.lastTid);
        AckSaves(wb, log, tid, bits, b);
      }
    }
  }

  lemma DropOk(wb: Writeback, log: seq<Event>)
    ensures WbOk(wb.(dirty := {}, flushing := {}), log + [Dropped])
  {
    forall b ensures BitOk(wb.(dirty := {}, flushing := {}), log + [Dropped], b) { DropSaves(log, b); }
  }

  // ---------------------------------------------------------------- the protocol steps

  lemma {:induction false} CheckFromWb(s: Inode, rest: set<Mds>, env: Env)
    requires rest <= s.caps.Keys && WbOk(s.wb, s.log)
    ensures WbOk(CheckFrom(s, rest, env).wb, CheckFrom(s, rest, env).log)
    decreases rest
  {
    if rest != {} {
      var m := Least(rest);
      CheckCapWb(s, m, env);
      CheckFromWb(CheckCap(s, m, env), rest - {m}, env);
    }
  }

  lemma CheckCapWb(s: Inode, m: Mds, env: Env)
    requires m in s.caps && WbOk(s.wb, s.log)
    ensures WbOk(CheckCap(s, m, env).wb, CheckCap(s, m, env).log)
  {
    SendDirtyWb(s, m, CapUsed(s, m), Wanted(s.use), Retain(s.use, env));
  }

  /** Sending a cap flushes the dirty bits, if it is told to, and touches nothing else of writeback. */
  lemma SendDirtyWb(s: Inode, m: Mds, used: Caps, want: Caps, retain: Caps)
    requires m in s.caps && WbOk(s.wb, s.log)
    ensures s.wb.dirty != {} ==> var t := SendCap(MarkFlushing(s), m, used, want, retain, s.wb.dirty); WbOk(t.wb, t.log)
    ensures var t := SendCap(s, m, used, want, retain, {}); t.wb == s.wb && t.log == s.log
  {
    if s.wb.dirty != {} { FlushDirtyOk(s.wb, s.log); }
  }

  lemma AddUpdateWb(s: Inode, m: Mds, capId: nat, issued: Caps, seqno: int, mseq: int, authFlag: bool, env: Env)
    requires WbOk(s.wb, s.log)
    ensures var t := AddUpdateCap(s, m, capId, issued, seqno, mseq, authFlag, env); WbOk(t.wb, t.log)
  {
    var a := AddCap(s, m, capId, issued, seqno, mseq, authFlag);
    CheckFromWb(a, a.caps.Keys, env.(holding := false));
  }

  lemma {:induction false} ImportWb(s: Inode, m: Mds, capId: nat, caps: Caps, seqno: int, mseq: int, peer: Option<Peer>, env: Env)
    requires WbOk(s.wb, s.log)
    ensures var t := HandleImport(s, m, capId, caps, seqno, mseq, peer, env); WbOk(t.wb, t.log)
  {
    AddUpdateWb(s, m, capId, caps, seqno, mseq, true, env);
    var a := AddUpdateCap(s, m, capId, caps, seqno, mseq, true, env);
    var r := if peer.Some? && peer.value.mds in a.caps && a.caps[peer.value.mds].capId == peer.value.capId
             then RemoveCap(a, peer.value.mds) else a;
    if r.auth == Some(m) && m in r.caps && r.wb.flushing != {} { FlushCapsWb(r); }
  }

  lemma FlushCapsWb(s: Inode)
    requires s.auth.Some? && s.auth.value in s.caps && WbOk(s.wb, s.log)
    ensures WbOk(FlushCaps(s).wb, FlushCaps(s).log)
  {
    ReflushOk(s.wb, s.log);
  }

  lemma ExportWb(s: Inode, m: Mds, capId: nat, peer: Option<Peer>, env: Env)
    requires WbOk(s.wb, s.log)
    ensures var t := HandleExport(s, m, capId, peer, env); WbOk(t.wb, t.log)
  {
    if peer.Some? && m in s.caps {
      var p := peer.value;
      AddUpdateWb(s, p.mds, p.capId, s.caps[m].issued, p.seqno - 1, p.mseq, IsAuth(s, m), env);
      var h := HandOver(s, m, p, env);
      assert WbOk(h.wb, h.log);
    }
  }

  lemma GrantWb(s: Inode, m: Mds, newCaps: Caps, seqno: int, rewant: bool, newMax: nat, flushWaits: bool, env: Env)
    requires WbOk(s.wb, s.log) && m in s.caps
    ensures var t := HandleGrant(s, m, newCaps, seqno, rewant, newMax, flushWaits, env); WbOk(t.wb, t.log)
  {
    var g := Granted(s, m, newCaps, seqno, newMax, flushWaits);
    assert g.wb == s.wb && g.log == s.log;
    CheckFromWb(g, g.caps.Keys, env);
  }

  /** Acknowledgments arrive within the window that 16-bit tids can tell apart. */
  ghost predicate Timely(s: Inode, a: Step) {
    a.DoFlushAck? ==> InWindow(s.wb, s.log, a.tid)
  }

  lemma CloseWb(s: Inode, m: Mds)
    requires WbOk(s.wb, s.log)
    ensures WbOk(CloseSession(s, m).wb, CloseSession(s, m).log)
  {
    DropOk(s.wb, s.log);
  }

  /** Trims, releases and changes of use and sizes have nothing to do with writeback. */
  lemma OtherWb(s: Inode, a: Step)
    requires a.DoTrim? || a.DoRelease? || a.DoUse? || a.DoSizes?
    ensures Apply(s, a).wb == s.wb && Apply(s, a).log == s.log
  {
  }

  /** Messages about caps, and the check they lead to. */
  predicate AboutCaps(a: Step) { a.DoCheck? || a.DoGrant? || a.DoImport? || a.DoExport? }

  lemma {:induction false} CapStepWb(s: Inode, a: Step)
    requires WbOk(s.wb, s.log) && Enabled(s, a) && AboutCaps(a)
    ensures WbOk(Apply(s, a).wb, Apply(s, a).log)
  {
    match a
    case DoCheck(env) => CheckFromWb(s, s.caps.Keys, env);
    case DoGrant(m, newCaps, seqno, rewant, newMax, flushWaits, env) =>
      GrantWb(s, m, newCaps, seqno, rewant, newMax, flushWaits, env);
    case DoImport(m, capId, caps, seqno, mseq, peer, env) => ImportWb(s, m, capId, caps, seqno, mseq, peer, env);
    case DoExport(m, capId, peer, env) => ExportWb(s, m, capId, peer, env);
  }

  lemma {:induction false} FlushStepWb(s: Inode, a: Step)
    requires WbOk(s.wb, s.log) && Enabled(s, a) && Timely(s, a) && !AboutCaps(a)
    ensures WbOk(Apply(s, a).wb, Apply(s, a).log)
  {
    match a
    case DoReflush => ReflushOk(s.wb, s.log);
    case DoCloseSession(m) => CloseWb(s, m);
    case DoDirty(bits) => MarkDirtyOk(s.wb, s.log, bits);
    case DoFlushAck(tid, bits) => AckOk(s.wb, s.log, tid, bits);
    case _ => OtherWb(s, a);
  }

  lemma {:induction false} StepKeepsWb(s: Inode, a: Step)
    requires WbOk(s.wb, s.log) && Enabled(s, a) && Timely(s, a)
    ensures WbOk(Apply(s, a).wb, Apply(s, a).log)
  {
    if AboutCaps(a) { CapStepWb(s, a); } else { FlushStepWb(s, a); }
  }

  ghost predicate TimelyRun(s: Inode, steps: seq<Step>)
    decreases |steps|
  {
    steps != [] && Enabled(s, steps[0]) ==> Timely(s, steps[0]) && TimelyRun(Apply(s, steps[0]), steps[1..])
  }

  /** In every state of every run a modification that has not been saved is still marked
      dirty or being flushed. */
  lemma {:induction false} NoDirtyBitIsLost(s: Inode, steps: seq<Step>, s': Inode, b: Bit)
    requires WbOk(s.wb, s.log) && Run(s, steps, s') && TimelyRun(s, steps)
    ensures Unsaved(s'.log, b) ==> b in s'.wb.dirty + s'.wb.flushing
    decreases |steps|
  {
    if steps == [] { assert BitOk(s.wb, s.log, b); }
    else {
      StepKeepsWb(s, steps[0]);
      NoDirtyBitIsLost(Apply(s, steps[0]), steps[1..], s', b);
    }
  }

  lemma FreshInodeOk(s: Inode)
    requires s.wb.dirty == {} && s.wb.flushing == {} && s.log == []
    ensures WbOk(s.wb, s.log)
  {
    forall b ensures BitOk(s.wb, s.log, b) {}
  }

  // ---------------------------------------------------------------- exactly when an acknowledgment loses a bit

  /** Some modification of b has not reached the MDS, and no flush with this tid carried it. */
  ghost predicate MissedBy(log: seq<Event>, tid: nat, b: Bit) {
    exists p {:trigger DirtiedAt(log, p, b)} :: DirtiedAt(log, p, b) && !SavedSince(log, p, b) && NotCarried(log, tid, b, p)
  }

  ghost predicate NotCarried(log: seq<Event>, tid: nat, b: Bit, p: int) {
    forall r {:trigger FlushedAt(log, r, b)} | p < r && FlushedAt(log, r, b) :: log[r].tid != tid
  }

  lemma AckedSince(log: seq<Event>, tid: nat, bits: Caps, b: Bit, p: int)
    requires b in bits && DirtiedAt(log, p, b)
    ensures SavedSince(log + [Acked(tid, bits)], p, b) <==> SavedSince(log, p, b) || !NotCarried(log, tid, b, p)
  {
    var e := Acked(tid, bits);
    var l := log + [e];
    if SavedSince(log, p, b) { SavedStays(log, e, p, b); }
    if !NotCarried(log, tid, b, p) {
      var r :| p < r && FlushedAt(log, r, b) && log[r].tid == tid;
      assert AckedAt(l, r, |log|, b);
    }
    if SavedSince(l, p, b) {
      if r, q :| p < r && AckedAt(l, r, q, b) {
        assert FlushedAt(log, r, b);
        assert q < |log| ==> AckedAt(log, r, q, b);
      } else {
        var q :| 0 <= p < q < |l| && l[q].Dropped?;
        assert log[q].Dropped?;
      }
    }
  }

  /** After an acknowledgment a modification is unsaved exactly if the flush it names missed it. */
  lemma AckedUnsaved(log: seq<Event>, tid: nat, bits: Caps, b: Bit)
    requires b in bits
    ensures Unsaved(log + [Acked(tid, bits)], b) <==> MissedBy(log, tid, b)
  {
    var l := log + [Acked(tid, bits)];
    if Unsaved(l, b) {
      var p :| DirtiedAt(l, p, b) && !SavedSince(l, p, b);
      assert DirtiedAt(log, p, b);
      AckedSince(log, tid, bits, b, p);
    }
    if MissedBy(log, tid, b) {
      var p :| DirtiedAt(log, p, b) && !SavedSince(log, p, b) && NotCarried(log, tid, b, p);
      AckedSince(log, tid, bits, b, p);
      assert DirtiedAt(l, p, b);
    }
  }

  /** An acknowledgment makes the client forget a modification of a bit being flushed if and only if
      its tid has the last 16 bits of the bit's last flush and the flush it names missed the
      modification. */
  lemma AckForgetsIff(s: Inode, tid: nat, bits: Caps, b: Bit)
    requires WbOk(s.wb, s.log) && b in s.wb.flushing && b !in s.wb.dirty && b in bits
    ensures var t := HandleFlushAck(s, tid, bits);
            (Unsaved(t.log, b) && b !in t.wb.dirty + t.wb.flushing) <==>
            (tid % TID_WRAP == FullTid(s.log, b) % TID_WRAP && MissedBy(s.log, tid, b))
  {
    assert BitOk(s.wb, s.log, b);
    AckedUnsaved(s.log, tid, bits, b);
  }

  // ---------------------------------------------------------------- a run that loses a bit

  /** The only cap is that of m, which is authoritative. */
  ghost predicate OnlyAuth(s: Inode, m: Mds) { s.caps.Keys == {m} && s.auth == Some(m) }

  /** ... and bit b is being flushed. */
  ghost predicate FlushingOne(s: Inode, m: Mds, b: Bit) { OnlyAuth(s, m) && s.wb.dirty == {} && s.wb.flushing == {b} }

  /** ... and nothing has been modified yet. */
  ghost predicate Fresh(s: Inode, m: Mds) {
    OnlyAuth(s, m) && s.wb.dirty == {} && s.wb.flushing == {} && s.wb.lastTid == 0 && s.log == []
  }

  /** t is s after the dirty bit b has been flushed. */
  ghost predicate Checked(s: Inode, t: Inode, m: Mds, b: Bit) {
    && OnlyAuth(t, m) && t.log == s.log + [Flushed(s.wb.lastTid + 1, {b})]
    && t.wb == Writeback({}, s.wb.flushing + {b}, Stamp(s.wb.tids, {b}, s.wb.lastTid + 1), s.wb.lastTid + 1)
  }

  /** Checking the only cap flushes what is dirty. */
  lemma CheckFlushes(s: Inode, m: Mds, b: Bit)
    requires OnlyAuth(s, m) && s.wb.dirty == {b}
    ensures Checked(s, CheckCaps(s, EAGER), m, b)
  {
    var t := CheckCap(s, m, EAGER);
    assert IsLeast(Least({m}), {m});
    assert CheckFrom(t, {m} - {m}, EAGER) == t;
  }

  /** Modifying a bit and checking the caps. */
  ghost function FlushDirty(s: Inode, b: Bit): Inode { CheckCaps(MarkDirty(s, {b}), EAGER) }

  /** t is s after bit b has been modified and flushed. */
  ghost predicate AfterFlush(s: Inode, t: Inode, m: Mds, b: Bit) {
    && FlushingOne(t, m, b) && t.wb.lastTid == s.wb.lastTid + 1 && TidOf(t.wb, b) == t.wb.lastTid % TID_WRAP
    && t.log == s.log + [Dirtied({b})] + [Flushed(s.wb.lastTid + 1, {b})]
  }

  lemma CheckedIs(s: Inode, t: Inode, m: Mds, b: Bit)
    requires s.wb.dirty == {} && s.wb.flushing <= {b} && b < CAP_BITS && Checked(MarkDirty(s, {b}), t, m, b)
    ensures AfterFlush(s, t, m, b)
  {
    assert s.wb.flushing + {b} == {b};
  }

  lemma FlushDirtyIs(s: Inode, m: Mds, b: Bit)
    requires OnlyAuth(s, m) && s.wb.dirty == {} && s.wb.flushing <= {b} && b < CAP_BITS
    ensures AfterFlush(s, FlushDirty(s, b), m, b)
  {
    assert MarkDirty(s, {b}).wb.dirty == {b};
    CheckFlushes(MarkDirty(s, {b}), m, b);
    CheckedIs(s, FlushDirty(s, b), m, b);
  }

  lemma FlushDirtyReaches(s: Inode, b: Bit)
    requires b < CAP_BITS
    ensures Reaches(s, FlushDirty(s, b))
  {
    var d := MarkDirty(s, {b});
    ReachesOne(s, DoDirty({b}));
    ReachesOne(d, DoCheck(EAGER));
    ReachesThrough(s, d, FlushDirty(s, b));
  }

  lemma FlushCapsOne(s: Inode, m: Mds, b: Bit)
    requires FlushingOne(s, m, b)
    ensures FlushingOne(FlushCaps(s), m, b)
    ensures FlushCaps(s).wb.lastTid == s.wb.lastTid + 1 && FlushCaps(s).log == s.log + [Flushed(s.wb.lastTid + 1, {b})]
  {
  }

  function Flushes(first: nat, n: nat, b: Bit): seq<Event> {
    seq(n, i requires i >= 0 => Flushed(first + i, {b}))
  }

  lemma MoreFlushes(log: seq<Event>, first: nat, n: nat, b: Bit)
    ensures log + [Flushed(first, {b})] + Flushes(first + 1, n, b) == log + Flushes(first, n + 1, b)
  {
    assert [Flushed(first, {b})] + Flushes(first + 1, n, b) == Flushes(first, n + 1, b);
  }

  lemma NoMoreFlushes(log: seq<Event>, first: nat, b: Bit)
    ensures log + Flushes(first, 0, b) == log
  {
  }

  /** Flushing again n times. */
  ghost function FlushTimes(s: Inode, m: Mds, b: Bit, n: nat): (t: Inode)
    requires FlushingOne(s, m, b)
    ensures FlushingOne(t, m, b) && t.wb.lastTid == s.wb.lastTid + n
    ensures t.log == s.log + Flushes(s.wb.lastTid + 1, n, b)
    decreases n
  {
    if n == 0 then NoMoreFlushes(s.log, s.wb.lastTid + 1, b); s else
      FlushCapsOne(s, m, b);
      MoreFlushes(s.log, s.wb.lastTid + 1, n - 1, b);
      FlushTimes(FlushCaps(s), m, b, n - 1)
  }

  lemma {:induction false} FlushTimesReaches(s: Inode, m: Mds, b: Bit, n: nat)
    requires FlushingOne(s, m, b)
    ensures Reaches(s, FlushTimes(s, m, b, n))
    decreases n
  {
    if n == 0 {
      assert Run(s, [], s);
    } else {
      FlushCapsOne(s, m, b);
      ReachesOne(s, DoReflush);
      FlushTimesReaches(FlushCaps(s), m, b, n - 1);
      ReachesThrough(s, FlushCaps(s), FlushTimes(s, m, b, n));
    }
  }

  /** The history of the run: b modified, flushed n + 1 times, modified and flushed again. */
  ghost function LosingLog(log: seq<Event>, first: nat, n: nat, b: Bit): seq<Event> {
    log + [Dirtied({b})] + [Flushed(first, {b})] + Flushes(first + 1, n, b) + [Dirtied({b})] + [Flushed(first + n + 1, {b})]
  }

  lemma LateAckMisses(n: nat, b: Bit)
    ensures MissedBy(LosingLog([], 1, n, b), 1, b) && Flushed(1, {b}) in LosingLog([], 1, n, b)
  {
    var log := LosingLog([], 1, n, b);
    assert log[1] == Flushed(1, {b});
    assert DirtiedAt(log, n + 2, b);
    assert forall i {:trigger log[i]} | 0 <= i < |log| :: !log[i].Acked? && !log[i].Dropped?;
  }

  /** The state after that history. */
  ghost function Losing(s: Inode, m: Mds, b: Bit, n: nat): Inode
    requires Fresh(s, m) && b < CAP_BITS
  {
    FlushDirtyIs(s, m, b);
    FlushDirty(FlushTimes(FlushDirty(s, b), m, b, n), b)
  }

  /** t has the history above, n + 2 flushes in all. */
  ghost predicate Lossy(t: Inode, m: Mds, b: Bit, n: nat) {
    && FlushingOne(t, m, b) && t.log == LosingLog([], 1, n, b)
    && t.wb.lastTid == n + 2 && TidOf(t.wb, b) == t.wb.lastTid % TID_WRAP
  }

  lemma LosingFrom(s: Inode, u: Inode, v: Inode, t: Inode, m: Mds, b: Bit, n: nat)
    requires s.log == [] && s.wb.lastTid == 0 && AfterFlush(s, u, m, b) && AfterFlush(v, t, m, b)
    requires v.wb.lastTid == u.wb.lastTid + n && v.log == u.log + Flushes(u.wb.lastTid + 1, n, b)
    ensures Lossy(t, m, b, n)
  {
  }

  lemma LosingIs(s: Inode, m: Mds, b: Bit, n: nat)
    requires Fresh(s, m) && b < CAP_BITS
    ensures Lossy(Losing(s, m, b, n), m, b, n)
  {
    var u := FlushDirty(s, b);
    FlushDirtyIs(s, m, b);
    var v := FlushTimes(u, m, b, n);
    FlushDirtyIs(v, m, b);
    LosingFrom(s, u, v, Losing(s, m, b, n), m, b, n);
  }

  lemma LosingRun(s: Inode, m: Mds, b: Bit, n: nat)
    requires Fresh(s, m) && b < CAP_BITS
    ensures Reaches(s, Losing(s, m, b, n))
  {
    FlushDirtyIs(s, m, b);
    var u := FlushDirty(s, b);
    var v := FlushTimes(u, m, b, n);
    FlushDirtyReaches(s, b);
    FlushTimesReaches(u, m, b, n);
    FlushDirtyReaches(v, b);
    ReachesThrough(s, u, v);
    ReachesThrough(s, v, FlushDirty(v, b));
  }

  lemma LateAckForgets(t: Inode, m: Mds, b: Bit, n: nat)
    requires Lossy(t, m, b, n) && b < CAP_BITS && n + 1 == TID_WRAP
    ensures var u := HandleFlushAck(t, 1, {b}); Unsaved(u.log, b) && b !in u.wb.dirty + u.wb.flushing
    ensures Flushed(1, {b}) in t.log
  {
    LateAckMisses(n, b);
    AckedUnsaved(t.log, 1, {b}, b);
  }

  /** Why the window matters: after 65536 further flushes the acknowledgment of the first one is taken
      for that of the last one, and the modification made in between is forgotten. */
  lemma WrappedAckLosesBit(s: Inode, m: Mds, b: Bit) returns (t: Inode)
    requires Fresh(s, m) && b < CAP_BITS
    ensures Reaches(s, t) && Flushed(1, {b}) in t.log
    ensures var u := HandleFlushAck(t, 1, {b}); Unsaved(u.log, b) && b !in u.wb.dirty + u.wb.flushing
  {
    t := Losing(s, m, b, TID_WRAP - 1);
    LosingRun(s, m, b, TID_WRAP - 1);
    LosingIs(s, m, b, TID_WRAP - 1);
    LateAckForgets(t, m, b, TID_WRAP - 1);
  }
}
