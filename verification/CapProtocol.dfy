/**
 * Capabilities of one inode, held by the client from several metadata servers (MDSs).
 *
 * A capability mask is the set of its bit numbers.  A cap records what the MDS has issued
 * and what the client still implements; `auth` names the cap of the authoritative MDS.
 * Each handler of the client is one step on the state `Inode`.
 */
module CapProtocol {
  import opened NatSets
  import opened Options

  type Mds = nat
  type Bit = nat
  type Caps = set<Bit>

  const CAP_BITS := 22
  const CAP_PIN: Bit := 0
  const FILE_EXCL: Bit := 9
  const FILE_CACHE: Bit := 10
  const FILE_WR: Bit := 12
  const FILE_BUFFER: Bit := 13
  const FILE_LAZYIO: Bit := 15
  const CAP_ANY_SHARED: Caps := {2, 4, 6, 8}
  const CAP_ANY_EXCL: Caps := {3, 5, 7, 9}
  const CAP_ANY: Caps := CAP_ANY_SHARED + {10, 11} + CAP_ANY_EXCL + {9, 12, 13} + {FILE_LAZYIO, CAP_PIN}

  datatype Cap = Cap(
    capId: nat, issued: Caps, implemented: Caps, wanted: Caps, seqno: int, issueSeq: int, mseq: int)

  const NEW_CAP := Cap(0, {}, {}, {}, 0, 0, 0)

  /** What the client does with the inode: capability references, open files, cached pages. */
  datatype Use = Use(refs: map<Bit, nat>, openWants: Caps, pages: bool)

  /** Writeback of dirty metadata; `tids` holds, per bit, the last flush carrying it, in 16 bits. */
  datatype Writeback = Writeback(dirty: Caps, flushing: Caps, tids: map<Bit, nat>, lastTid: nat)

  datatype Sizes = Sizes(size: nat, reported: nat, max: nat, wantedMax: nat, requestedMax: nat)

  /** What happens to dirty metadata, in order. */
  datatype Event =
    | Dirtied(bits: Caps)
    | Flushed(tid: nat, bits: Caps)
    | Acked(tid: nat, bits: Caps)
    | Dropped

  datatype Inode = Inode(
    caps: map<Mds, Cap>, auth: Option<Mds>, use: Use, wb: Writeback, sizes: Sizes, log: seq<Event>)

  /** An inode as it enters the client's table. */
  const NEW_INODE := Inode(map[], None, Use(map[], {}, false), Writeback({}, {}, map[], 0), Sizes(0, 0, 0, 0, 0), [])

  /** Whether the client is unmounting, and whether releases are being delayed. */
  datatype Env = Env(unmounting: bool, holding: bool)

  // ---------------------------------------------------------------- masks computed from the state

  function RefsUsed(u: Use): Caps { set b | b in u.refs && u.refs[b] > 0 }

  /** The capability bits in use, counting cached pages. */
  function Used(u: Use): Caps {
    RefsUsed(u) + if u.pages then {FILE_CACHE} else {}
  }

  function Wanted(u: Use): Caps {
    var w := u.openWants + RefsUsed(u);
    if FILE_BUFFER in w then w + {FILE_EXCL} else w
  }

  function Retain(u: Use, env: Env): Caps {
    Wanted(u) + Used(u) + {CAP_PIN} +
      if env.unmounting then {} else if Wanted(u) != {} then CAP_ANY else CAP_ANY_SHARED
  }

  function Revoking(c: Cap): Caps { c.implemented - c.issued }

  function IsAuth(s: Inode, m: Mds): bool { s.auth == Some(m) }

  /** The bits in use that the cap of MDS m must keep: not those the authoritative cap was issued. */
  function CapUsed(s: Inode, m: Mds): Caps {
    if s.auth.Some? && !IsAuth(s, m) && s.auth.value in s.caps
    then Used(s.use) - s.caps[s.auth.value].issued else Used(s.use)
  }

  // ---------------------------------------------------------------- sending

  const TID_WRAP := 65536

  function SendCap(s: Inode, m: Mds, used: Caps, want: Caps, retain: Caps, flush: Caps): Inode
    requires m in s.caps
  {
    var c := s.caps[m];
    var issued := c.issued * (retain - Revoking(c));
    var c' := c.(issued := issued, implemented := c.implemented * (issued + used), wanted := want);
    var tid := s.wb.lastTid + 1;
    s.(caps := s.caps[m := c'],
       wb := if flush == {} then s.wb else s.wb.(lastTid := tid, tids := Stamp(s.wb.tids, flush, tid)),
       sizes := s.sizes.(reported := s.sizes.size, requestedMax := if IsAuth(s, m) then s.sizes.wantedMax else s.sizes.requestedMax),
       log := if flush == {} then s.log else s.log + [Flushed(tid, flush)])
  }

  /** Every bit of the flush remembers its tid, truncated to 16 bits. */
  function Stamp(tids: map<Bit, nat>, flush: Caps, tid: nat): map<Bit, nat> {
    map b | b in tids.Keys + flush && (b in tids || b < CAP_BITS) ::
      if b in flush && b < CAP_BITS then tid % TID_WRAP else tids[b]
  }

  function MarkFlushing(s: Inode): Inode {
    s.(wb := s.wb.(flushing := s.wb.flushing + s.wb.dirty, dirty := {}))
  }

  /** Whether the cap of MDS m needs a message. */
  function NeedsAck(s: Inode, m: Mds, env: Env): bool
    requires m in s.caps
  {
    var c, z, used, wanted := s.caps[m], s.sizes, CapUsed(s, m), Wanted(s.use);
    || (z.wantedMax > z.max && z.wantedMax > z.requestedMax && IsAuth(s, m))
    || (FILE_WR in c.issued && 2 * z.size >= z.max && 2 * z.reported < z.max && IsAuth(s, m))
    || (Revoking(c) != {} && Revoking(c) * used == {})
    || wanted - (c.wanted + c.issued) != {}
    || (Revoking(c) == {} && env.unmounting && used == {})
    || (!(wanted == c.wanted && c.issued - Retain(s.use, env) == {} && s.wb.dirty == {}) && !env.holding)
  }

  /** One turn of the check loop: the cap of MDS m. */
  function CheckCap(s: Inode, m: Mds, env: Env): Inode
    requires m in s.caps
  {
    if !NeedsAck(s, m, env) then s
    else if IsAuth(s, m) && s.wb.dirty != {} then
      SendCap(MarkFlushing(s), m, CapUsed(s, m), Wanted(s.use), Retain(s.use, env), s.wb.dirty)
    else SendCap(s, m, CapUsed(s, m), Wanted(s.use), Retain(s.use, env), {})
  }

  /** The check loop over the caps in `rest`, in the order of their MDSs. */
  ghost function CheckFrom(s: Inode, rest: set<Mds>, env: Env): Inode
    requires rest <= s.caps.Keys
    decreases rest
  {
    if rest == {} then s else
      var m := Least(rest);
      CheckFrom(CheckCap(s, m, env), rest - {m}, env)
  }

  ghost function CheckCaps(s: Inode, env: Env): Inode {
    CheckFrom(s, s.caps.Keys, env)
  }

  /** Sends the bits being flushed again, on the authoritative cap. */
  function FlushCaps(s: Inode): Inode
    requires s.auth.Some? && s.auth.value in s.caps
  {
    var m := s.auth.value;
    SendCap(s, m, Used(s.use), Wanted(s.use), s.caps[m].issued + s.caps[m].implemented, s.wb.flushing)
  }

  // ---------------------------------------------------------------- gaining and losing caps

  /** Another MDS is revoking bits that the authoritative one has newly issued. */
  ghost predicate ClashingRevoke(s: Inode, m: Mds, issued: Caps) {
    exists k :: k in s.caps && k != m && Revoking(s.caps[k]) * issued != {}
  }

  function CapFrom(s: Inode, m: Mds): Cap { if m in s.caps then s.caps[m] else NEW_CAP }

  /** The message was sent before the one that created the cap as it is. */
  function IsLate(s: Inode, m: Mds, seqno: int): bool { m in s.caps && seqno <= s.caps[m].seqno }

  function IssuedNow(s: Inode, m: Mds, issued: Caps, seqno: int): Caps {
    if IsLate(s, m, seqno) then issued + s.caps[m].issued else issued
  }

  function AddCap(s: Inode, m: Mds, capId: nat, issued: Caps, seqno: int, mseq: int, authFlag: bool): Inode {
    var was, late, now := CapFrom(s, m), IsLate(s, m, seqno), IssuedNow(s, m, issued, seqno);
    var q, mq := if late then was.seqno else seqno, if late then was.mseq else mseq;
    var takeAuth := (authFlag || late) && !IsAuth(s, m) &&
                    (s.auth.None? || s.auth.value !in s.caps || s.caps[s.auth.value].mseq < mq);
    var c := was.(capId := capId, issued := was.issued + now, implemented := was.implemented + now,
                  seqno := q, issueSeq := q, mseq := mq);
    s.(caps := s.caps[m := c], auth := if takeAuth then Some(m) else s.auth)
  }

  /** A cap from MDS m, new or again; if it clashes with a revocation elsewhere, caps are checked at once. */
  ghost function AddUpdateCap(s: Inode, m: Mds, capId: nat, issued: Caps, seqno: int, mseq: int, authFlag: bool, env: Env): Inode {
    var t, now := AddCap(s, m, capId, issued, seqno, mseq, authFlag), IssuedNow(s, m, issued, seqno);
    if now - CapFrom(s, m).issued != {} && IsAuth(t, m) && ClashingRevoke(t, m, now)
    then CheckCaps(t, env.(holding := false)) else t
  }

  function RemoveCap(s: Inode, m: Mds): Inode {
    s.(caps := s.caps - {m}, auth := if IsAuth(s, m) then None else s.auth)
  }

  /** What the old MDS says about the cap's new home. */
  datatype Peer = Peer(mds: Mds, capId: nat, seqno: int, mseq: int)

  /** What the exported cap of MDS m was issued passes to the peer, unless the peer's cap is newer. */
  ghost function HandOver(s: Inode, m: Mds, p: Peer, env: Env): Inode
    requires m in s.caps
  {
    var c := s.caps[m];
    if p.mds !in s.caps then AddUpdateCap(s, p.mds, p.capId, c.issued, p.seqno - 1, p.mseq, IsAuth(s, m), env)
    else
      var t := s.caps[p.mds];
      if t.capId == p.capId && t.seqno >= p.seqno then s else
        var t' := t.(capId := p.capId, seqno := p.seqno - 1, issueSeq := p.seqno - 1, mseq := p.mseq,
                     issued := t.issued + c.issued, implemented := t.implemented + c.issued);
        s.(caps := s.caps[p.mds := t'], auth := if IsAuth(s, m) then Some(p.mds) else s.auth)
  }

  /** The cap of MDS m has been exported, perhaps to a peer. */
  ghost function HandleExport(s: Inode, m: Mds, capId: nat, peer: Option<Peer>, env: Env): Inode {
    if m !in s.caps || s.caps[m].capId != capId then s
    else RemoveCap(if peer.Some? then HandOver(s, m, peer.value, env) else s, m)
  }

  /** A revocation that has to wait until buffered data is written or cached data released. */
  function RevokeWaits(s: Inode, m: Mds, newCaps: Caps, flushWaits: bool): bool
    requires m in s.caps
  {
    (FILE_BUFFER in Used(s.use) - newCaps && flushWaits) || FILE_CACHE in s.caps[m].issued - newCaps
  }

  /** The cap of MDS m after a grant or revocation, before anything is sent.
      `flushWaits`: there is buffered data that must be written first. */
  function Granted(s: Inode, m: Mds, newCaps: Caps, seqno: int, newMax: nat, flushWaits: bool): Inode
    requires m in s.caps
  {
    var c, z := s.caps[m].(seqno := seqno), s.sizes;
    var c' := c.(issued := newCaps, implemented := c.implemented + newCaps);
    var revoked := c.issued - newCaps != {};
    s.(caps := s.caps[m := if c.issued == newCaps then c
                           else if revoked && !RevokeWaits(s, m, newCaps, flushWaits) then c'.(wanted := {}) else c'],
       sizes := if IsAuth(s, m) && newMax != z.max
                then z.(max := newMax, wantedMax := if newMax > z.wantedMax then 0 else z.wantedMax,
                        requestedMax := if newMax > z.wantedMax then 0 else z.requestedMax)
                else z)
  }

  /** A grant or revocation from MDS m; `rewant`: an import whose idea of what is wanted differs. */
  ghost function HandleGrant(s: Inode, m: Mds, newCaps: Caps, seqno: int, rewant: bool, newMax: nat, flushWaits: bool, env: Env): Inode
    requires m in s.caps
  {
    var was, t := s.caps[m].issued, Granted(s, m, newCaps, seqno, newMax, flushWaits);
    var check := || rewant
                 || (was - newCaps != {} && !RevokeWaits(s, m, newCaps, flushWaits))
                 || (was < newCaps && IsAuth(t, m) && ClashingRevoke(t, m, newCaps));
    if check then CheckCaps(t, env) else t
  }

  /** MDS m has imported the cap: it is added, the exporter's cap goes, and dirty bits are sent again. */
  ghost function HandleImport(s: Inode, m: Mds, capId: nat, caps: Caps, seqno: int, mseq: int, peer: Option<Peer>, env: Env): Inode {
    var a := AddUpdateCap(s, m, capId, caps, seqno, mseq, true, env);
    var r := if peer.Some? && peer.value.mds in a.caps && a.caps[peer.value.mds].capId == peer.value.capId
             then RemoveCap(a, peer.value.mds) else a;
    if r.auth == Some(m) && m in r.caps && r.wb.flushing != {} then FlushCaps(r) else r
  }

  // ---------------------------------------------------------------- releasing

  /** Gives bits back with a request to MDS m, unless they are dirty, in use, or the cap is still needed. */
  function EncodeRelease(s: Inode, m: Mds, drop0: Caps, unless: Caps): Inode {
    if m !in s.caps then s else
      var c, drop := s.caps[m], drop0 - (s.wb.dirty + Used(s.use));
      if drop * c.issued != {} && unless * c.issued == {}
      then s.(caps := s.caps[m := c.(issued := c.issued - drop, implemented := c.implemented - drop)]) else s
  }

  /** Drops the cap of MDS m if it is not the authoritative one and nothing in use depends on it. */
  function TrimCap(s: Inode, m: Mds): Inode {
    if m !in s.caps || |s.caps| <= 1 || IsAuth(s, m) then s else
      var mine := s.caps[m].issued + s.caps[m].implemented;
      var others := if s.auth.Some? && s.auth.value in s.caps then s.caps[s.auth.value].issued else {};
      if (Used(s.use) - others) * mine == {} then RemoveCap(s, m) else s
  }

  // ---------------------------------------------------------------- dirty metadata

  function MarkDirty(s: Inode, bits: Caps): Inode {
    s.(wb := s.wb.(dirty := s.wb.dirty + bits), log := s.log + [Dirtied(bits)])
  }

  function TidOf(wb: Writeback, b: Bit): nat { if b in wb.tids then wb.tids[b] else 0 }

  /** The bits an acknowledgment of flush `tid` cleans. */
  function Cleaned(wb: Writeback, tid: nat, bits: Caps): Caps {
    set b | b in bits && b < CAP_BITS && tid % TID_WRAP == TidOf(wb, b)
  }

  function HandleFlushAck(s: Inode, tid: nat, bits: Caps): Inode {
    s.(wb := s.wb.(flushing := s.wb.flushing - Cleaned(s.wb, tid, bits)), log := s.log + [Acked(tid, bits)])
  }

  /** The session with MDS m is gone, and with the authoritative cap all that was dirty. */
  function CloseSession(s: Inode, m: Mds): Inode {
    if IsAuth(s, m) && m in s.caps
    then RemoveCap(s, m).(wb := s.wb.(dirty := {}, flushing := {}), log := s.log + [Dropped],
                          sizes := s.sizes.(wantedMax := 0, requestedMax := 0))
    else RemoveCap(s, m)
  }

  // ---------------------------------------------------------------- every step

  datatype Step =
    | DoCheck(env: Env)
    | DoReflush
    | DoTrim(m: Mds)
    | DoRelease(m: Mds, drop: Caps, unless: Caps)
    | DoGrant(m: Mds, newCaps: Caps, seqno: int, rewant: bool, newMax: nat, flushWaits: bool, env: Env)
    | DoImport(m: Mds, capId: nat, caps: Caps, seqno: int, mseq: int, peer: Option<Peer>, env: Env)
    | DoExport(m: Mds, capId: nat, peer: Option<Peer>, env: Env)
    | DoCloseSession(m: Mds)
    | DoUse(use: Use)
    | DoSizes(sizes: Sizes)
    | DoDirty(bits: Caps)
    | DoFlushAck(tid: nat, bits: Caps)

  predicate Enabled(s: Inode, a: Step) {
    match a
    case DoReflush => s.auth.Some? && s.auth.value in s.caps
    case DoGrant(m, _, _, _, _, _, _) => m in s.caps
    case DoDirty(bits) => forall b | b in bits :: b < CAP_BITS
    case _ => true
  }

  ghost function Apply(s: Inode, a: Step): Inode
    requires Enabled(s, a)
  {
    match a
    case DoCheck(env) => CheckCaps(s, env)
    case DoReflush => FlushCaps(s)
    case DoTrim(m) => TrimCap(s, m)
    case DoRelease(m, drop, unless) => EncodeRelease(s, m, drop, unless)
    case DoGrant(m, newCaps, seqno, rewant, newMax, flushWaits, env) =>
      HandleGrant(s, m, newCaps, seqno, rewant, newMax, flushWaits, env)
    case DoImport(m, capId, caps, seqno, mseq, peer, env) => HandleImport(s, m, capId, caps, seqno, mseq, peer, env)
    case DoExport(m, capId, peer, env) => HandleExport(s, m, capId, peer, env)
    case DoCloseSession(m) => CloseSession(s, m)
    case DoUse(use) => s.(use := use)
    case DoSizes(sizes) => s.(sizes := sizes)
    case DoDirty(bits) => MarkDirty(s, bits)
    case DoFlushAck(tid, bits) => HandleFlushAck(s, tid, bits)
  }

  ghost predicate Run(s: Inode, steps: seq<Step>, s': Inode)
    decreases |steps|
  {
    if steps == [] then s' == s else Enabled(s, steps[0]) && Run(Apply(s, steps[0]), steps[1..], s')
  }

  /** Some run leads from s to t. */
  ghost predicate Reaches(s: Inode, t: Inode) { exists steps :: Run(s, steps, t) }

  lemma ReachesOne(s: Inode, a: Step)
    requires Enabled(s, a)
    ensures Reaches(s, Apply(s, a))
  {
    assert [a][1..] == [];
    assert Run(s, [a], Apply(s, a));
  }

  lemma {:induction false} RunConcat(s: Inode, a: seq<Step>, t: Inode, c: seq<Step>, u: Inode)
    requires Run(s, a, t) && Run(t, c, u)
    ensures Run(s, a + c, u)
    decreases |a|
  {
    if a == [] {
      assert a + c == c;
    } else {
      RunConcat(Apply(s, a[0]), a[1..], t, c, u);
      assert (a + c)[1..] == a[1..] + c;
    }
  }

  lemma ReachesThrough(s: Inode, t: Inode, u: Inode)
    requires Reaches(s, t) && Reaches(t, u)
    ensures Reaches(s, u)
  {
    var a :| Run(s, a, t);
    var c :| Run(t, c, u);
    RunConcat(s, a, t, c, u);
  }

  const EAGER := Env(false, false)

  // ---------------------------------------------------------------- what is issued is implemented

  ghost predicate CapsOk(caps: map<Mds, Cap>) {
    forall m | m in caps :: caps[m].issued <= caps[m].implemented
  }

  lemma {:induction false} CheckFromOk(s: Inode, rest: set<Mds>, env: Env)
    requires CapsOk(s.caps) && rest <= s.caps.Keys
    ensures CapsOk(CheckFrom(s, rest, env).caps) && CheckFrom(s, rest, env).caps.Keys == s.caps.Keys
    ensures CheckFrom(s, rest, env).use == s.use && CheckFrom(s, rest, env).auth == s.auth
    decreases rest
  {
    if rest != {} { CheckFromOk(CheckCap(s, Least(rest), env), rest - {Least(rest)}, env); }
  }

  lemma CheckOk(s: Inode, env: Env)
    requires CapsOk(s.caps)
    ensures CapsOk(CheckCaps(s, env).caps) && CheckCaps(s, env).caps.Keys == s.caps.Keys
    ensures CheckCaps(s, env).use == s.use && CheckCaps(s, env).auth == s.auth
  {
    CheckFromOk(s, s.caps.Keys, env);
  }

  lemma AddUpdateOk(s: Inode, m: Mds, capId: nat, issued: Caps, seqno: int, mseq: int, authFlag: bool, env: Env)
    requires CapsOk(s.caps)
    ensures CapsOk(AddUpdateCap(s, m, capId, issued, seqno, mseq, authFlag, env).caps)
  {
    CheckOk(AddCap(s, m, capId, issued, seqno, mseq, authFlag), env.(holding := false));
  }

  lemma GrantOk(s: Inode, m: Mds, newCaps: Caps, seqno: int, rewant: bool, newMax: nat, flushWaits: bool, env: Env)
    requires CapsOk(s.caps) && m in s.caps
    ensures CapsOk(HandleGrant(s, m, newCaps, seqno, rewant, newMax, flushWaits, env).caps)
  {
    CheckOk(Granted(s, m, newCaps, seqno, newMax, flushWaits), env);
  }

  lemma GainsOk(caps: map<Mds, Cap>, m: Mds, c: Cap)
    requires CapsOk(caps) && c.issued <= c.implemented
    ensures CapsOk(caps[m := c])
  {
  }

  lemma {:induction false} HandOverNewOk(s: Inode, m: Mds, p: Peer, env: Env)
    requires CapsOk(s.caps) && m in s.caps && p.mds !in s.caps
    ensures CapsOk(HandOver(s, m, p, env).caps)
  {
    var issued, auth := s.caps[m].issued, IsAuth(s, m);
    AddUpdateOk(s, p.mds, p.capId, issued, p.seqno - 1, p.mseq, auth, env);
    assert HandOver(s, m, p, env) == AddUpdateCap(s, p.mds, p.capId, issued, p.seqno - 1, p.mseq, auth, env);
  }

  lemma {:induction false} HandOverOk(s: Inode, m: Mds, p: Peer, env: Env)
    requires CapsOk(s.caps) && m in s.caps
    ensures CapsOk(HandOver(s, m, p, env).caps)
  {
    if p.mds !in s.caps { HandOverNewOk(s, m, p, env); } else { GainsOk(s.caps, p.mds, HandOver(s, m, p, env).caps[p.mds]); }
  }

  lemma ExportOk(s: Inode, m: Mds, capId: nat, peer: Option<Peer>, env: Env)
    requires CapsOk(s.caps)
    ensures CapsOk(HandleExport(s, m, capId, peer, env).caps)
  {
    if peer.Some? && m in s.caps { HandOverOk(s, m, peer.value, env); }
  }

  lemma StepKeepsCapsOk(s: Inode, a: Step)
    requires CapsOk(s.caps) && Enabled(s, a)
    ensures CapsOk(Apply(s, a).caps)
  {
    match a
    case DoCheck(env) => CheckOk(s, env);
    case DoImport(m, capId, caps, seqno, mseq, peer, env) => AddUpdateOk(s, m, capId, caps, seqno, mseq, true, env);
    case DoGrant(m, newCaps, seqno, rewant, newMax, flushWaits, env) =>
      GrantOk(s, m, newCaps, seqno, rewant, newMax, flushWaits, env);
    case DoExport(m, capId, peer, env) => ExportOk(s, m, capId, peer, env);
    case _ =>
  }

  /** In every reachable state, across grants, revocations, imports, exports and releases,
      each cap implements whatever it was issued. */
  lemma {:induction false} IssuedIsImplemented(s: Inode, steps: seq<Step>, s': Inode)
    requires CapsOk(s.caps) && Run(s, steps, s')
    ensures CapsOk(s'.caps)
    decreases |steps|
  {
    if steps != [] {
      StepKeepsCapsOk(s, steps[0]);
      IssuedIsImplemented(Apply(s, steps[0]), steps[1..], s');
    }
  }

  // ---------------------------------------------------------------- what is in use stays implemented

  ghost predicate Implemented(caps: map<Mds, Cap>, b: Bit) {
    exists m :: m in caps && b in caps[m].implemented
  }

  /** Neither the cap of MDS k nor the authoritative one lets go of bit b, which is in use. */
  ghost predicate Holds(s: Inode, k: Mds, b: Bit) {
    && k in s.caps && b in s.caps[k].implemented
    && (s.auth.None? || IsAuth(s, k) || s.auth.value !in s.caps || b !in s.caps[s.auth.value].issued)
  }

  /** If bit b is implemented at all, some cap holds on to it. */
  lemma HolderExists(s: Inode, b: Bit) returns (k: Mds)
    requires CapsOk(s.caps) && Implemented(s.caps, b)
    ensures Holds(s, k, b)
  {
    k :| k in s.caps && b in s.caps[k].implemented;
    if s.auth.Some? && s.auth.value in s.caps && b in s.caps[s.auth.value].issued { k := s.auth.value; }
  }

  lemma {:induction false} CheckFromHolds(s: Inode, rest: set<Mds>, env: Env, k: Mds, b: Bit)
    requires rest <= s.caps.Keys && b in Used(s.use) && Holds(s, k, b)
    ensures Holds(CheckFrom(s, rest, env), k, b) && CheckFrom(s, rest, env).auth == s.auth
    decreases rest
  {
    if rest != {} {
      var m := Least(rest);
      assert Holds(CheckCap(s, m, env), k, b);
      CheckFromHolds(CheckCap(s, m, env), rest - {m}, env, k, b);
    }
  }

  lemma CheckKeepsInUse(s: Inode, env: Env, b: Bit)
    requires CapsOk(s.caps) && b in Used(s.use) && Implemented(s.caps, b)
    ensures Implemented(CheckCaps(s, env).caps, b)
  {
    var k := HolderExists(s, b);
    CheckFromHolds(s, s.caps.Keys, env, k, b);
  }

  lemma TrimHolds(s: Inode, m: Mds, k: Mds, b: Bit)
    requires b in Used(s.use) && Holds(s, k, b)
    ensures k in TrimCap(s, m).caps && b in TrimCap(s, m).caps[k].implemented
  {
    if k == m && !IsAuth(s, m) {
      var others := if s.auth.Some? && s.auth.value in s.caps then s.caps[s.auth.value].issued else {};
      assert b in (Used(s.use) - others) * (s.caps[m].issued + s.caps[m].implemented);
    }
  }

  /** The steps that must not cost the client a bit it is using. */
  predicate Protects(a: Step) {
    !a.DoImport? && !a.DoExport? && !a.DoCloseSession?
  }

  lemma StepKeepsInUse(s: Inode, a: Step, b: Bit)
    requires CapsOk(s.caps) && Enabled(s, a) && Protects(a)
    requires b in Used(s.use) && Implemented(s.caps, b)
    ensures Implemented(Apply(s, a).caps, b)
  {
    var k := HolderExists(s, b);
    var t := Apply(s, a);
    match a
    case DoCheck(env) => CheckKeepsInUse(s, env, b);
    case DoGrant(m, newCaps, seqno, rewant, newMax, flushWaits, env) =>
      var g := Granted(s, m, newCaps, seqno, newMax, flushWaits);
      assert b in g.caps[k].implemented;
      CheckKeepsInUse(g, env, b);
    case DoReflush => assert b in t.caps[k].implemented;
    case DoRelease(m, drop, unless) => assert b in t.caps[k].implemented;
    case DoTrim(m) => TrimHolds(s, m, k, b);
    case DoUse(_) => assert b in t.caps[k].implemented;
    case DoSizes(_) => assert b in t.caps[k].implemented;
    case DoDirty(_) => assert b in t.caps[k].implemented;
    case DoFlushAck(_, _) => assert b in t.caps[k].implemented;
  }

  /** Bit b is in use before every step of the run. */
  ghost predicate InUseThroughout(s: Inode, steps: seq<Step>, b: Bit)
    decreases |steps|
  {
    steps != [] ==> b in Used(s.use) && (Enabled(s, steps[0]) ==> InUseThroughout(Apply(s, steps[0]), steps[1..], b))
  }

  /** Over any run of checks, flushes, trims, releases, grants and revocations, a bit that stays in use
      and that some cap implements at the start is implemented by some cap at the end. */
  lemma {:induction false} InUseStaysImplemented(s: Inode, steps: seq<Step>, s': Inode, b: Bit)
    requires CapsOk(s.caps) && Run(s, steps, s') && (forall a | a in steps :: Protects(a))
    requires InUseThroughout(s, steps, b) && Implemented(s.caps, b)
    ensures Implemented(s'.caps, b)
    decreases |steps|
  {
    if steps != [] {
      StepKeepsInUse(s, steps[0], b);
      StepKeepsCapsOk(s, steps[0]);
      InUseStaysImplemented(Apply(s, steps[0]), steps[1..], s', b);
    }
  }

  // ---------------------------------------------------------------- exports

  /** The peer's record of the exported cap is taken up. */
  predicate PeerTakesOver(s: Inode, m: Mds, peer: Option<Peer>) {
    && peer.Some? && peer.value.mds != m
    && (peer.value.mds !in s.caps || s.caps[peer.value.mds].capId != peer.value.capId
        || s.caps[peer.value.mds].seqno < peer.value.seqno)
  }

  ghost predicate ElsewhereImplemented(s: Inode, m: Mds, b: Bit) {
    exists k :: k in s.caps && k != m && b in s.caps[k].implemented
  }

  lemma {:induction false} CheckFromShrinks(s: Inode, rest: set<Mds>, env: Env)
    requires rest <= s.caps.Keys
    ensures CheckFrom(s, rest, env).caps.Keys == s.caps.Keys
    ensures forall k | k in s.caps :: CheckFrom(s, rest, env).caps[k].implemented <= s.caps[k].implemented
    decreases rest
  {
    if rest != {} { CheckFromShrinks(CheckCap(s, Least(rest), env), rest - {Least(rest)}, env); }
  }

  /** Exporting to an MDS the client has no cap from yet. */
  lemma {:induction false} ExportToNewPeer(s: Inode, m: Mds, p: Peer, env: Env, b: Bit)
    requires CapsOk(s.caps) && m in s.caps && p.mds !in s.caps && b in Used(s.use)
    ensures
      var t := AddUpdateCap(s, p.mds, p.capId, s.caps[m].issued, p.seqno - 1, p.mseq, IsAuth(s, m), env);
      ElsewhereImplemented(t, m, b) <==> ElsewhereImplemented(s, m, b) || b in s.caps[m].issued
  {
    var a := AddCap(s, p.mds, p.capId, s.caps[m].issued, p.seqno - 1, p.mseq, IsAuth(s, m));
    var t := AddUpdateCap(s, p.mds, p.capId, s.caps[m].issued, p.seqno - 1, p.mseq, IsAuth(s, m), env);
    assert a.caps[p.mds].implemented == a.caps[p.mds].issued == s.caps[m].issued;
    if ElsewhereImplemented(t, m, b) {
      var k :| k in t.caps && k != m && b in t.caps[k].implemented;
      CheckFromShrinks(a, a.caps.Keys, env.(holding := false));
      assert b in a.caps[k].implemented;
      if k != p.mds { assert k in s.caps && b in s.caps[k].implemented; }
    }
    if ElsewhereImplemented(s, m, b) || b in s.caps[m].issued {
      var k: Mds;
      if b in s.caps[m].issued { k := p.mds; }
      else { k :| k in s.caps && k != m && b in s.caps[k].implemented; }
      assert k in a.caps && k != m && b in a.caps[k].implemented;
      if IsAuth(a, p.mds) {
        assert Holds(a, k, b);
        CheckFromHolds(a, a.caps.Keys, env.(holding := false), k, b);
      }
      assert k in t.caps && b in t.caps[k].implemented;
    }
  }

  lemma RemovedIff(s: Inode, m: Mds, b: Bit)
    ensures Implemented(RemoveCap(s, m).caps, b) <==> ElsewhereImplemented(s, m, b)
  {
    if ElsewhereImplemented(s, m, b) {
      var k :| k in s.caps && k != m && b in s.caps[k].implemented;
      assert k in RemoveCap(s, m).caps;
    }
  }

  /** Exporting to an MDS the client has a cap from. */
  lemma {:induction false} ExportToKnownPeer(s: Inode, m: Mds, p: Peer, env: Env, b: Bit)
    requires CapsOk(s.caps) && m in s.caps && p.mds in s.caps
    ensures ElsewhereImplemented(HandOver(s, m, p, env), m, b) <==>
            ElsewhereImplemented(s, m, b) || (PeerTakesOver(s, m, Some(p)) && b in s.caps[m].issued)
  {
    var t := HandOver(s, m, p, env);
    assert t.caps.Keys == s.caps.Keys;
    if ElsewhereImplemented(s, m, b) {
      var k :| k in s.caps && k != m && b in s.caps[k].implemented;
      assert k in t.caps && b in t.caps[k].implemented;
    }
    if PeerTakesOver(s, m, Some(p)) && b in s.caps[m].issued { assert b in t.caps[p.mds].implemented; }
    if ElsewhereImplemented(t, m, b) {
      var k :| k in t.caps && k != m && b in t.caps[k].implemented;
      assert k in s.caps;
    }
  }

  lemma {:induction false} HandOverToNewPeer(s: Inode, m: Mds, p: Peer, env: Env, b: Bit)
    requires CapsOk(s.caps) && m in s.caps && p.mds !in s.caps && b in Used(s.use)
    ensures PeerTakesOver(s, m, Some(p))
    ensures ElsewhereImplemented(HandOver(s, m, p, env), m, b) <==> ElsewhereImplemented(s, m, b) || b in s.caps[m].issued
  {
    var issued, auth := s.caps[m].issued, IsAuth(s, m);
    ExportToNewPeer(s, m, p, env, b);
    assert HandOver(s, m, p, env) == AddUpdateCap(s, p.mds, p.capId, issued, p.seqno - 1, p.mseq, auth, env);
  }

  lemma {:induction false} HandOverIff(s: Inode, m: Mds, p: Peer, env: Env, b: Bit)
    requires CapsOk(s.caps) && m in s.caps && b in Used(s.use)
    ensures ElsewhereImplemented(HandOver(s, m, p, env), m, b) <==>
            ElsewhereImplemented(s, m, b) || (PeerTakesOver(s, m, Some(p)) && b in s.caps[m].issued)
  {
    if p.mds !in s.caps { HandOverToNewPeer(s, m, p, env, b); } else { ExportToKnownPeer(s, m, p, env, b); }
  }

  /** An export can cost the client a bit it is using.  It does so exactly when no other cap implements
      the bit and the exported cap, if a peer takes it over, was already having the bit revoked. */
  lemma ExportKeepsInUseIff(s: Inode, m: Mds, capId: nat, peer: Option<Peer>, env: Env, b: Bit)
    requires CapsOk(s.caps) && m in s.caps && s.caps[m].capId == capId
    requires b in Used(s.use) && Implemented(s.caps, b)
    ensures Implemented(HandleExport(s, m, capId, peer, env).caps, b) <==>
            ElsewhereImplemented(s, m, b) || (PeerTakesOver(s, m, peer) && b in s.caps[m].issued)
  {
    if peer.Some? {
      HandOverIff(s, m, peer.value, env, b);
      RemovedIff(HandOver(s, m, peer.value, env), m, b);
    } else {
      RemovedIff(s, m, b);
    }
  }

  // ---------------------------------------------------------------- imports

  /** The import takes the peer's cap away. */
  predicate PeerGoes(s: Inode, m: Mds, capId: nat, peer: Option<Peer>) {
    && peer.Some?
    && if peer.value.mds == m then capId == peer.value.capId
       else peer.value.mds in s.caps && s.caps[peer.value.mds].capId == peer.value.capId
  }

  /** Without the cap of MDS p, bit b is still implemented: by another cap, or because the imported cap is
      issued it.  Should an MDS import a cap from itself, only the caps checked on the way count. */
  ghost predicate Kept(s: Inode, m: Mds, capId: nat, caps: Caps, seqno: int, mseq: int, p: Mds, env: Env, b: Bit) {
    if p != m then ElsewhereImplemented(s, p, b) || b in caps
    else ElsewhereImplemented(AddUpdateCap(s, m, capId, caps, seqno, mseq, true, env), m, b)
  }

  /** The cap of MDS m gains what it is issued, before anything is checked. */
  lemma AddedElsewhere(s: Inode, m: Mds, capId: nat, issued: Caps, seqno: int, mseq: int, authFlag: bool, p: Mds, b: Bit)
    requires CapsOk(s.caps) && p != m
    ensures ElsewhereImplemented(AddCap(s, m, capId, issued, seqno, mseq, authFlag), p, b) <==>
            ElsewhereImplemented(s, p, b) || b in issued
  {
    var a := AddCap(s, m, capId, issued, seqno, mseq, authFlag);
    assert a.caps[m].implemented == CapFrom(s, m).implemented + IssuedNow(s, m, issued, seqno);
    if ElsewhereImplemented(s, p, b) {
      var k :| k in s.caps && k != p && b in s.caps[k].implemented;
      assert k in a.caps && b in a.caps[k].implemented;
    }
    if b in issued { assert m in a.caps && b in a.caps[m].implemented; }
    if ElsewhereImplemented(a, p, b) {
      var k :| k in a.caps && k != p && b in a.caps[k].implemented;
      assert k != m ==> k in s.caps && s.caps[k] == a.caps[k];
      assert k == m && b !in issued ==> m in s.caps && b in s.caps[m].implemented;
    }
  }

  /** With m authoritative, a check of all caps costs a bit in use no cap but another's. */
  lemma CheckElsewhere(s: Inode, m: Mds, env: Env, p: Mds, b: Bit)
    requires CapsOk(s.caps) && m in s.caps && IsAuth(s, m) && p != m && b in Used(s.use)
    ensures ElsewhereImplemented(CheckCaps(s, env), p, b) <==> ElsewhereImplemented(s, p, b)
  {
    var t := CheckCaps(s, env);
    CheckFromShrinks(s, s.caps.Keys, env);
    if ElsewhereImplemented(t, p, b) {
      var k :| k in t.caps && k != p && b in t.caps[k].implemented;
      assert k in s.caps && b in s.caps[k].implemented;
    }
    if ElsewhereImplemented(s, p, b) {
      var k :| k in s.caps && k != p && b in s.caps[k].implemented;
      if b in s.caps[m].issued { k := m; }
      assert Holds(s, k, b);
      CheckFromHolds(s, s.caps.Keys, env, k, b);
      assert k in t.caps && b in t.caps[k].implemented;
    }
  }

  lemma UpdateElsewhere(s: Inode, m: Mds, capId: nat, issued: Caps, seqno: int, mseq: int, env: Env, p: Mds, b: Bit)
    requires CapsOk(s.caps) && p != m && b in Used(s.use)
    ensures ElsewhereImplemented(AddUpdateCap(s, m, capId, issued, seqno, mseq, true, env), p, b) <==>
            ElsewhereImplemented(s, p, b) || b in issued
  {
    var a := AddCap(s, m, capId, issued, seqno, mseq, true);
    AddedElsewhere(s, m, capId, issued, seqno, mseq, true, p, b);
    if IsAuth(a, m) { CheckElsewhere(a, m, env.(holding := false), p, b); }
  }

  lemma UpdateKeepsInUse(s: Inode, m: Mds, capId: nat, issued: Caps, seqno: int, mseq: int, env: Env, b: Bit)
    requires CapsOk(s.caps) && b in Used(s.use) && Implemented(s.caps, b)
    ensures Implemented(AddUpdateCap(s, m, capId, issued, seqno, mseq, true, env).caps, b)
  {
    var a := AddCap(s, m, capId, issued, seqno, mseq, true);
    var k :| k in s.caps && b in s.caps[k].implemented;
    assert k in a.caps && b in a.caps[k].implemented;
    CheckKeepsInUse(a, env.(holding := false), b);
  }

  lemma UpdateFrame(s: Inode, m: Mds, capId: nat, issued: Caps, seqno: int, mseq: int, env: Env, k: Mds)
    requires CapsOk(s.caps)
    ensures var a := AddUpdateCap(s, m, capId, issued, seqno, mseq, true, env);
            && a.caps.Keys == s.caps.Keys + {m} && a.use == s.use
            && (k in a.caps ==> a.caps[k].capId == if k == m then capId else s.caps[k].capId)
  {
    var a := AddCap(s, m, capId, issued, seqno, mseq, true);
    CheckFromIds(a, a.caps.Keys, env.(holding := false), k);
    CheckOk(a, env.(holding := false));
  }

  lemma {:induction false} CheckFromIds(s: Inode, rest: set<Mds>, env: Env, k: Mds)
    requires rest <= s.caps.Keys
    ensures CheckFrom(s, rest, env).caps.Keys == s.caps.Keys
    ensures k in s.caps ==> CheckFrom(s, rest, env).caps[k].capId == s.caps[k].capId
    decreases rest
  {
    if rest != {} { CheckFromIds(CheckCap(s, Least(rest), env), rest - {Least(rest)}, env, k); }
  }

  lemma FlushImplements(s: Inode, b: Bit)
    requires s.auth.Some? && s.auth.value in s.caps && b in Used(s.use)
    ensures Implemented(FlushCaps(s).caps, b) <==> Implemented(s.caps, b)
  {
    var t := FlushCaps(s);
    if Implemented(s.caps, b) {
      var k :| k in s.caps && b in s.caps[k].implemented;
      assert k in t.caps && b in t.caps[k].implemented;
    }
    if Implemented(t.caps, b) {
      var k :| k in t.caps && b in t.caps[k].implemented;
      assert k in s.caps && b in s.caps[k].implemented;
    }
  }

  /** An import can cost the client a bit it is using.  It does so exactly when it takes the peer's cap
      away and with it the last that implements the bit. */
  lemma ImportKeepsInUseIff(s: Inode, m: Mds, capId: nat, caps: Caps, seqno: int, mseq: int, peer: Option<Peer>, env: Env, b: Bit)
    requires CapsOk(s.caps) && b in Used(s.use) && Implemented(s.caps, b)
    ensures Implemented(HandleImport(s, m, capId, caps, seqno, mseq, peer, env).caps, b) <==>
            !PeerGoes(s, m, capId, peer) || Kept(s, m, capId, caps, seqno, mseq, peer.value.mds, env, b)
  {
    var a := AddUpdateCap(s, m, capId, caps, seqno, mseq, true, env);
    var p := if peer.Some? then peer.value.mds else m;
    UpdateFrame(s, m, capId, caps, seqno, mseq, env, p);
    UpdateKeepsInUse(s, m, capId, caps, seqno, mseq, env, b);
    if p != m { UpdateElsewhere(s, m, capId, caps, seqno, mseq, env, p, b); }
    RemovedIff(a, p, b);
    var r := if PeerGoes(s, m, capId, peer) then RemoveCap(a, p) else a;
    if r.auth == Some(m) && m in r.caps { FlushImplements(r, b); }
  }

  // ---------------------------------------------------------------- runs that lose a bit in use

  /** The client has one cap, for cached data, and uses it. */
  ghost predicate Caching(s: Inode, issued: Caps) {
    && s.caps.Keys == {1} && s.auth == Some(1) && s.use == Use(map[], {}, true)
    && s.caps[1].capId == 1 && s.caps[1].issued == issued && s.caps[1].implemented == {FILE_CACHE}
  }

  lemma CachingInUse(s: Inode, issued: Caps)
    requires Caching(s, issued)
    ensures Used(s.use) == {FILE_CACHE} && Implemented(s.caps, FILE_CACHE) && !ElsewhereImplemented(s, 1, FILE_CACHE)
  {
    assert 1 in s.caps && FILE_CACHE in s.caps[1].implemented;
  }

  lemma FirstCap() returns (s: Inode)
    ensures Reaches(NEW_INODE, s) && s.caps.Keys == {1} && s.auth == Some(1)
    ensures s.caps[1].capId == 1 && s.caps[1].issued == {FILE_CACHE} && s.caps[1].implemented == {FILE_CACHE}
  {
    s := HandleImport(NEW_INODE, 1, 1, {FILE_CACHE}, 1, 0, None, EAGER);
    ReachesOne(NEW_INODE, DoImport(1, 1, {FILE_CACHE}, 1, 0, None, EAGER));
    assert s == AddCap(NEW_INODE, 1, 1, {FILE_CACHE}, 1, 0, true);
  }

  lemma StartCaching() returns (s: Inode)
    ensures Reaches(NEW_INODE, s) && Caching(s, {FILE_CACHE})
  {
    var a := FirstCap();
    s := a.(use := Use(map[], {}, true));
    ReachesOne(a, DoUse(Use(map[], {}, true)));
    ReachesThrough(NEW_INODE, a, s);
  }

  lemma RevokeCaching(s: Inode) returns (t: Inode)
    requires Caching(s, {FILE_CACHE})
    ensures Reaches(s, t) && Caching(t, {})
  {
    t := HandleGrant(s, 1, {}, 2, false, s.sizes.max, false, EAGER);
    ReachesOne(s, DoGrant(1, {}, 2, false, s.sizes.max, false, EAGER));
    assert FILE_CACHE in s.caps[1].issued - {};
    assert t == Granted(s, 1, {}, 2, s.sizes.max, false);
  }

  /** The MDS revokes cached data, which the client has not dropped yet, and exports the cap: the new MDS's
      cap is not issued it, and no cap implements it any more. */
  lemma ExportLosesBit() returns (s: Inode)
    ensures Reaches(NEW_INODE, s) && CapsOk(s.caps) && FILE_CACHE in Used(s.use) && Implemented(s.caps, FILE_CACHE)
    ensures !Implemented(HandleExport(s, 1, 1, Some(Peer(2, 7, 1, 1)), EAGER).caps, FILE_CACHE)
  {
    var a := StartCaching();
    s := RevokeCaching(a);
    ReachesThrough(NEW_INODE, a, s);
    CachingInUse(s, {});
    ExportKeepsInUseIff(s, 1, 1, Some(Peer(2, 7, 1, 1)), EAGER, FILE_CACHE);
  }

  /** Another MDS imports the cap without it. */
  lemma ImportLosesBit() returns (s: Inode)
    ensures Reaches(NEW_INODE, s) && CapsOk(s.caps) && FILE_CACHE in Used(s.use) && Implemented(s.caps, FILE_CACHE)
    ensures !Implemented(HandleImport(s, 2, 7, {}, 1, 1, Some(Peer(1, 1, 0, 0)), EAGER).caps, FILE_CACHE)
  {
    s := StartCaching();
    CachingInUse(s, {FILE_CACHE});
    ImportKeepsInUseIff(s, 2, 7, {}, 1, 1, Some(Peer(1, 1, 0, 0)), EAGER, FILE_CACHE);
  }
}
