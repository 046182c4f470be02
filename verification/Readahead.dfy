/**
 * Sequential readahead: after enough consecutive reads, extents are requested that follow each
 * other from where the reads were, each twice as large as the one before and ending at an aligned
 * position where one is near.
 */
module Readaheads {

  datatype Extent = Extent(off: nat, len: nat) {
    function Stop(): nat { off + len }
  }

  datatype Config = Config(triggerRequests: nat, minBytes: nat, maxBytes: nat, alignments: seq<nat>)

  ghost predicate ConfigOk(cfg: Config) {
    forall i {:trigger cfg.alignments[i]} | 0 <= i < |cfg.alignments| :: cfg.alignments[i] > 0
  }

  /** The stream so far: consecutive reads and their bytes, where the last read ended, how far was
      read ahead, at which position to read ahead again, and the size to use. */
  datatype State = State(nrConsec: nat, consecBytes: nat, lastPos: nat, pos: nat, triggerPos: nat, size: nat)

  const INITIAL: State := State(0, 0, 0, 0, 0, 0)

  function Observe(s: State, off: nat, len: nat): State {
    if off == s.lastPos
    then s.(nrConsec := s.nrConsec + 1, consecBytes := s.consecBytes + len, lastPos := off + len)
    else s.(nrConsec := 0, consecBytes := 0, triggerPos := 0, size := 0, lastPos := off + len)
  }

  function ObserveAll(s: State, xs: seq<Extent>): State
    decreases |xs|
  {
    if xs == [] then s else ObserveAll(Observe(s, xs[0].off, xs[0].len), xs[1..])
  }

  // ---------------------------------------------------------------- alignment

  function Prev(end: nat, a: nat): nat
    requires a > 0
  {
    end / a * a
  }

  ghost predicate Multiple(x: nat, a: nat) { exists k: nat {:trigger k * a} :: x == k * a }

  lemma PrevNear(end: nat, a: nat)
    requires a > 0
    ensures Prev(end, a) <= end < Prev(end, a) + a && Multiple(Prev(end, a), a) && Multiple(Prev(end, a) + a, a)
  {
    var k := end / a;
    assert end == k * a + end % a;
    assert (k + 1) * a == k * a + a;
  }

  predicate SnapsBack(off: nat, len: nat, a: nat)
    requires a > 0
  {
    var end := off + len;
    end - Prev(end, a) < len / 2 && end - Prev(end, a) < Prev(end, a) + a - end
  }

  predicate SnapsOn(off: nat, len: nat, a: nat)
    requires a > 0
  {
    var end := off + len;
    !SnapsBack(off, len, a) && Prev(end, a) + a - end < len / 2
  }

  /** A snapped extent ends aligned, is not empty, and has more than half and less than one and a
      half times the chosen length; both positions are past its start, as the code asserts. */
  lemma SnapBounds(off: nat, len: nat, a: nat)
    requires a > 0
    ensures SnapsBack(off, len, a) ==>
              Prev(off + len, a) > off && 2 * (Prev(off + len, a) - off) > len && Prev(off + len, a) - off <= len
    ensures SnapsOn(off, len, a) ==>
              Prev(off + len, a) + a > off && 2 * (Prev(off + len, a) + a - off) < 3 * len && Prev(off + len, a) + a - off > len
    ensures Multiple(Prev(off + len, a), a) && Multiple(Prev(off + len, a) + a, a)
  {
    PrevNear(off + len, a);
  }

  ghost predicate AllPositive(alignments: seq<nat>) {
    forall i {:trigger alignments[i]} | 0 <= i < |alignments| :: alignments[i] > 0
  }

  /** The length after snapping to the first alignment that has a position near enough. */
  function SnapLength(off: nat, len: nat, alignments: seq<nat>): nat
    requires AllPositive(alignments)
  {
    if alignments == [] then len
    else
      SnapBounds(off, len, alignments[0]);
      if SnapsBack(off, len, alignments[0]) then Prev(off + len, alignments[0]) - off
      else if SnapsOn(off, len, alignments[0]) then Prev(off + len, alignments[0]) + alignments[0] - off
      else SnapLength(off, len, alignments[1..])
  }

  ghost predicate EndsAligned(end: nat, alignments: seq<nat>) {
    exists i {:trigger alignments[i]} :: 0 <= i < |alignments| && Multiple(end, alignments[i])
  }

  /** Either the length is as chosen, or the extent ends aligned and the length is strictly between
      half and one and a half times the chosen one. */
  lemma {:induction false} SnapLengthBounds(off: nat, len: nat, alignments: seq<nat>)
    requires AllPositive(alignments)
    ensures var r := SnapLength(off, len, alignments);
            r == len || (len < 2 * r < 3 * len && EndsAligned(off + r, alignments))
    decreases |alignments|
  {
    if alignments != [] {
      var a, r := alignments[0], SnapLength(off, len, alignments);
      SnapBounds(off, len, a);
      if SnapsBack(off, len, a) || SnapsOn(off, len, a) {
        assert Multiple(off + r, a);
      } else {
        SnapLengthBounds(off, len, alignments[1..]);
        if r != len {
          var i :| 0 <= i < |alignments[1..]| && Multiple(off + r, alignments[1..][i]);
          assert alignments[i + 1] == alignments[1..][i];
        }
      }
    }
  }

  /** Tries the alignments in turn. */
  method Snap(off: nat, len: nat, alignments: seq<nat>) returns (r: nat)
    requires AllPositive(alignments)
    ensures r == SnapLength(off, len, alignments)
  {
    var end := off + len;
    var i := 0;
    while i < |alignments|
      invariant 0 <= i <= |alignments| && SnapLength(off, len, alignments) == SnapLength(off, len, alignments[i..])
    {
      var a := alignments[i];
      SnapBounds(off, len, a);
      NextAlignment(alignments, i);
      var prev := end / a * a;
      var next := prev + a;
      if end - prev < len / 2 && end - prev < next - end {
        return prev - off;
      } else if next - end < len / 2 {
        return next - off;
      }
      i := i + 1;
    }
    return len;
  }

  lemma NextAlignment(alignments: seq<nat>, i: nat)
    requires i < |alignments|
    ensures alignments[i..][0] == alignments[i] && alignments[i..][1..] == alignments[i + 1..]
  {
  }

  // ---------------------------------------------------------------- reading ahead

  const WRAP: nat := 0x1_0000_0000_0000_0000

  function Wrapped(x: nat): nat { if x < WRAP then x else x % WRAP }

  function NextSize(cfg: Config, s: State): nat {
    var n := if s.size == 0 then s.consecBytes else s.size * 2;
    var m := if n > cfg.minBytes then n else cfg.minBytes;
    if m < cfg.maxBytes then m else cfg.maxBytes
  }

  function NextPos(s: State): nat { if s.size == 0 then s.lastPos else s.pos }

  predicate Triggers(cfg: Config, s: State) {
    s.nrConsec >= cfg.triggerRequests && s.lastPos >= s.triggerPos
  }

  /** Clipping to the limit; the subtraction is unsigned, and so is what is added to the position then. */
  function Clip(pos: nat, len: nat, limit: nat): nat {
    if pos + len > limit then (limit - pos) % WRAP else len
  }

  function Compute(cfg: Config, s: State, limit: nat): (State, Extent)
    requires ConfigOk(cfg)
  {
    if !Triggers(cfg, s) then (s, Extent(0, 0))
    else
      var pos, size := NextPos(s), NextSize(cfg, s);
      var len := Clip(pos, SnapLength(pos, size, cfg.alignments), limit);
      (s.(size := size, pos := Wrapped(pos + len), triggerPos := Wrapped(pos + len / 2)), Extent(pos, len))
  }

  /** An extent stays within the limit if and only if the stream position is not past the limit. */
  lemma WithinIff(cfg: Config, s: State, limit: nat)
    requires ConfigOk(cfg) && Triggers(cfg, s) && NextPos(s) < WRAP && limit < WRAP
    ensures Compute(cfg, s, limit).1.Stop() <= limit <==> NextPos(s) <= limit
  {
  }

  // ---------------------------------------------------------------- runs

  datatype Read = Read(extents: seq<Extent>, limit: nat)

  function Update(cfg: Config, s: State, r: Read): (State, Extent)
    requires ConfigOk(cfg)
  {
    Compute(cfg, ObserveAll(s, r.extents), r.limit)
  }

  /** All extents read end within the limit. */
  ghost predicate EndsWithin(r: Read) {
    r.limit < WRAP && forall i {:trigger r.extents[i]} | 0 <= i < |r.extents| :: r.extents[i].Stop() <= r.limit
  }

  ghost predicate Below(s: State, limit: nat) { s.lastPos <= limit && s.pos <= limit }

  lemma {:induction false} ObserveBelow(s: State, xs: seq<Extent>, limit: nat)
    requires Below(s, limit) && forall i {:trigger xs[i]} | 0 <= i < |xs| :: xs[i].Stop() <= limit
    ensures Below(ObserveAll(s, xs), limit)
    decreases |xs|
  {
    if xs != [] { ObserveBelow(Observe(s, xs[0].off, xs[0].len), xs[1..], limit); }
  }

  ghost predicate Growing(limit: nat, rs: seq<Read>)
    decreases |rs|
  {
    rs == [] || (limit <= rs[0].limit && EndsWithin(rs[0]) && Growing(rs[0].limit, rs[1..]))
  }

  ghost function Extents(cfg: Config, s: State, rs: seq<Read>): seq<Extent>
    requires ConfigOk(cfg)
    decreases |rs|
  {
    if rs == [] then [] else [Update(cfg, s, rs[0]).1] + Extents(cfg, Update(cfg, s, rs[0]).0, rs[1..])
  }

  /** With limits that never shrink and reads that end within them, no extent passes its limit. */
  lemma {:induction false} NeverPastLimit(cfg: Config, s: State, limit: nat, rs: seq<Read>)
    requires ConfigOk(cfg) && Below(s, limit) && Growing(limit, rs)
    ensures |Extents(cfg, s, rs)| == |rs|
    ensures forall i {:trigger Extents(cfg, s, rs)[i]} | 0 <= i < |rs| :: Extents(cfg, s, rs)[i].Stop() <= rs[i].limit
    decreases |rs|
  {
    if rs != [] {
      var s1 := ObserveAll(s, rs[0].extents);
      ObserveBelow(s, rs[0].extents, rs[0].limit);
      if Triggers(cfg, s1) { WithinIff(cfg, s1, rs[0].limit); }
      NeverPastLimit(cfg, Update(cfg, s, rs[0]).0, rs[0].limit, rs[1..]);
    }
  }

  lemma ExtentsOfTwo(cfg: Config, s: State, a: Read, b: Read)
    requires ConfigOk(cfg)
    ensures Extents(cfg, s, [a, b]) == [Update(cfg, s, a).1, Update(cfg, Update(cfg, s, a).0, b).1]
  {
    var (t, e) := Update(cfg, s, a);
    assert [a, b][1..] == [b] && [b][1..] == [];
    assert Extents(cfg, t, [b]) == [Update(cfg, t, b).1] + Extents(cfg, Update(cfg, t, b).0, []);
  }

  lemma ObserveOne(s: State, x: Extent)
    ensures ObserveAll(s, [x]) == Observe(s, x.off, x.len)
  {
    assert [x][1..] == [];
  }

  /** A limit that shrinks below the position makes the length wrap around: two reads that end within
      their limits, the second of which is the lower one. */
  lemma ShrunkLimit()
    ensures var cfg := Config(0, 0, 100, []);
            ConfigOk(cfg) && Extents(cfg, INITIAL, [Read([Extent(0, 100)], 1000), Read([Extent(100, 60)], 160)])
                             == [Extent(100, 100), Extent(200, WRAP - 40)]
  {
    var cfg, a, b := Config(0, 0, 100, []), Read([Extent(0, 100)], 1000), Read([Extent(100, 60)], 160);
    ObserveOne(INITIAL, a.extents[0]);
    ObserveOne(Update(cfg, INITIAL, a).0, b.extents[0]);
    ExtentsOfTwo(cfg, INITIAL, a, b);
  }

  /** The reads continue the stream. */
  ghost predicate Sequential(s: State, xs: seq<Extent>)
    decreases |xs|
  {
    xs == [] || (xs[0].off == s.lastPos && Sequential(Observe(s, xs[0].off, xs[0].len), xs[1..]))
  }

  ghost predicate OneStream(cfg: Config, s: State, rs: seq<Read>)
    requires ConfigOk(cfg)
    decreases |rs|
  {
    rs == [] || (Sequential(s, rs[0].extents) && OneStream(cfg, Update(cfg, s, rs[0]).0, rs[1..]))
  }

  lemma {:induction false} SequentialKeeps(s: State, xs: seq<Extent>)
    requires Sequential(s, xs)
    ensures ObserveAll(s, xs).pos == s.pos && ObserveAll(s, xs).size == s.size
    decreases |xs|
  {
    if xs != [] { SequentialKeeps(Observe(s, xs[0].off, xs[0].len), xs[1..]); }
  }

  function Bytes(xs: seq<Extent>): nat {
    if xs == [] then 0 else xs[0].len + Bytes(xs[1..])
  }

  /** Reads that continue the stream move its end; others start a new one. */
  lemma {:induction false} ReadsTo(s: State, xs: seq<Extent>)
    ensures Sequential(s, xs) ==> ObserveAll(s, xs).lastPos == s.lastPos + Bytes(xs)
    ensures !Sequential(s, xs) || s.size == 0 ==> ObserveAll(s, xs).size == 0
    decreases |xs|
  {
    if xs != [] { ReadsTo(Observe(s, xs[0].off, xs[0].len), xs[1..]); }
  }

  /** Exactly when an extent starts where the reads have not been yet: the reads started a new stream,
      nothing was read ahead before, or they ended no later than what was. */
  lemma AheadIff(cfg: Config, s: State, r: Read)
    requires ConfigOk(cfg) && Triggers(cfg, ObserveAll(s, r.extents))
    ensures Update(cfg, s, r).1.off >= ObserveAll(s, r.extents).lastPos <==>
            !Sequential(s, r.extents) || s.size == 0 || s.lastPos + Bytes(r.extents) <= s.pos
  {
    ReadsTo(s, r.extents);
    if Sequential(s, r.extents) { SequentialKeeps(s, r.extents); }
  }

  /** A read that is longer than what was read ahead is followed by an extent that it covers. */
  lemma ReadsBehind()
    ensures var cfg := Config(0, 0, 100, []);
            ConfigOk(cfg) && Extents(cfg, INITIAL, [Read([Extent(0, 100)], 1000), Read([Extent(100, 200)], 1000)])
                             == [Extent(100, 100), Extent(200, 100)]
  {
    var cfg, a, b := Config(0, 0, 100, []), Read([Extent(0, 100)], 1000), Read([Extent(100, 200)], 1000);
    ObserveOne(INITIAL, a.extents[0]);
    ObserveOne(Update(cfg, INITIAL, a).0, b.extents[0]);
    ExtentsOfTwo(cfg, INITIAL, a, b);
  }

  /** The extents that are not empty follow each other without gap or overlap; the first starts at
      `from` if that is given. */
  ghost predicate Chain(es: seq<Extent>, started: bool, from: nat)
    decreases |es|
  {
    if es == [] then true
    else if es[0].len == 0 then Chain(es[1..], started, from)
    else (started ==> es[0].off == from) && Chain(es[1..], true, es[0].Stop())
  }

  lemma {:induction false} ChainFree(es: seq<Extent>, a: nat, b: nat)
    ensures Chain(es, false, a) == Chain(es, false, b)
    decreases |es|
  {
    if es != [] && es[0].len == 0 { ChainFree(es[1..], a, b); }
  }

  lemma {:induction false} NothingSnaps(off: nat, alignments: seq<nat>)
    requires AllPositive(alignments)
    ensures SnapLength(off, 0, alignments) == 0
    decreases |alignments|
  {
    if alignments != [] {
      SnapBounds(off, 0, alignments[0]);
      PrevNear(off, alignments[0]);
      NothingSnaps(off, alignments[1..]);
    }
  }

  /** Within one stream the extents are contiguous. */
  lemma {:induction false} Contiguous(cfg: Config, s: State, limit: nat, rs: seq<Read>, started: bool)
    requires ConfigOk(cfg) && OneStream(cfg, s, rs) && Below(s, limit) && Growing(limit, rs)
    requires started ==> s.size > 0 && cfg.maxBytes > 0
    ensures Chain(Extents(cfg, s, rs), started, s.pos)
    decreases |rs|
  {
    if rs != [] {
      var s1, r := ObserveAll(s, rs[0].extents), rs[0];
      var (t, e) := Update(cfg, s, r);
      SequentialKeeps(s, r.extents);
      ObserveBelow(s, r.extents, r.limit);
      if Triggers(cfg, s1) {
        WithinIff(cfg, s1, r.limit);
        NothingSnaps(NextPos(s1), cfg.alignments);
      }
      Contiguous(cfg, t, r.limit, rs[1..], started || e.len > 0);
      if !started && e.len == 0 { ChainFree(Extents(cfg, t, rs[1..]), t.pos, s.pos); }
    }
  }

  // ---------------------------------------------------------------- in place

  class Readahead {
    var cfg: Config
    var s: State

    constructor ()
      ensures ConfigOk(cfg) && s == INITIAL && cfg == Config(10, 0, WRAP - 1, [])
    {
      cfg, s := Config(10, 0, WRAP - 1, []), INITIAL;
    }

    method ObserveRead(off: nat, len: nat)
      modifies this`s
      ensures s == Observe(old(s), off, len)
    {
      if off == s.lastPos {
        s := s.(nrConsec := s.nrConsec + 1, consecBytes := s.consecBytes + len);
      } else {
        s := s.(nrConsec := 0, consecBytes := 0, triggerPos := 0, size := 0);
      }
      s := s.(lastPos := off + len);
    }

    method ComputeReadahead(limit: nat) returns (e: Extent)
      requires ConfigOk(cfg)
      modifies this`s
      ensures (s, e) == Compute(cfg, old(s), limit)
    {
      e := Extent(0, 0);
      if s.nrConsec >= cfg.triggerRequests {
        if s.lastPos >= s.triggerPos {
          if s.size == 0 {
            s := s.(size := s.consecBytes, pos := s.lastPos);
          } else {
            s := s.(size := s.size * 2);
          }
          if s.size < cfg.minBytes { s := s.(size := cfg.minBytes); }
          if s.size > cfg.maxBytes { s := s.(size := cfg.maxBytes); }
          var len := Snap(s.pos, s.size, cfg.alignments);
          if s.pos + len > limit { len := (limit - s.pos) % WRAP; }
          e := Extent(s.pos, len);
          s := s.(triggerPos := Wrapped(s.pos + len / 2), pos := Wrapped(s.pos + len));
        }
      }
    }

    method UpdateFor(r: Read) returns (e: Extent)
      requires ConfigOk(cfg)
      modifies this`s
      ensures (s, e) == Update(cfg, old(s), r)
    {
      var i := 0;
      while i < |r.extents|
        invariant 0 <= i <= |r.extents| && ObserveAll(s, r.extents[i..]) == ObserveAll(old(s), r.extents)
      {
        ObserveRead(r.extents[i].off, r.extents[i].len);
        i := i + 1;
      }
      e := ComputeReadahead(r.limit);
    }
  }
}
