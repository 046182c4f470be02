/**
 * The CRC-32C used for buffers: its bitwise definition, the byte-at-a-time table form, and
 * the form that consumes eight bytes per round with eight tables.  The checksum is linear
 * over exclusive-or, which is what lets a cached value be converted to another seed.
 */

/** The algebra of shift registers: an exclusive-or, a register step that distributes over it,
    and bytes as register values. */
module Registers {

  type Byte = bv8

  datatype Register<!W> = Register(xor: (W, W) -> W, step: W -> W, byte: Byte -> W)

  ghost predicate Assoc<W>(g: Register<W>, a: W, b: W, c: W) { g.xor(g.xor(a, b), c) == g.xor(a, g.xor(b, c)) }
  ghost predicate Comm<W>(g: Register<W>, a: W, b: W) { g.xor(a, b) == g.xor(b, a) }
  ghost predicate Cancel<W>(g: Register<W>, a: W, b: W) { g.xor(a, g.xor(a, b)) == b }
  ghost predicate Neutral<W>(g: Register<W>, a: W) { g.xor(a, g.byte(0)) == a }
  ghost predicate Linear<W>(g: Register<W>, a: W, b: W) { g.step(g.xor(a, b)) == g.xor(g.step(a), g.step(b)) }

  ghost predicate Laws<W(!new)>(g: Register<W>) {
    && (forall a, b, c {:trigger Assoc(g, a, b, c)} :: Assoc(g, a, b, c))
    && (forall a, b {:trigger Comm(g, a, b)} :: Comm(g, a, b))
    && (forall a, b {:trigger Cancel(g, a, b)} :: Cancel(g, a, b))
    && (forall a {:trigger Neutral(g, a)} :: Neutral(g, a))
    && (forall a, b {:trigger Linear(g, a, b)} :: Linear(g, a, b))
  }

  /** The register after the bytes of `data`. */
  function Fold<W>(g: Register<W>, c: W, data: seq<Byte>): W
    decreases |data|
  {
    if data == [] then c else Fold(g, g.step(g.xor(c, g.byte(data[0]))), data[1..])
  }

  function Zeros(n: nat): (z: seq<Byte>)
    ensures |z| == n
  {
    seq(n, _ => 0)
  }

  ghost predicate DistributesAt<W>(f: W -> W, xor: (W, W) -> W, a: W, b: W) { f(xor(a, b)) == xor(f(a), f(b)) }

  ghost predicate Distributes<W(!new)>(f: W -> W, xor: (W, W) -> W) {
    forall a, b {:trigger DistributesAt(f, xor, a, b)} :: DistributesAt(f, xor, a, b)
  }

  ghost predicate AssocAt<W>(xor: (W, W) -> W, a: W, b: W, c: W) { xor(xor(a, b), c) == xor(a, xor(b, c)) }
  ghost predicate CommAt<W>(xor: (W, W) -> W, a: W, b: W) { xor(a, b) == xor(b, a) }
  ghost predicate CancelAt<W>(xor: (W, W) -> W, a: W, b: W) { xor(a, xor(a, b)) == b }

  ghost predicate XorLaws<W(!new)>(xor: (W, W) -> W) {
    && (forall a, b, c {:trigger AssocAt(xor, a, b, c)} :: AssocAt(xor, a, b, c))
    && (forall a, b {:trigger CommAt(xor, a, b)} :: CommAt(xor, a, b))
    && (forall a, b {:trigger CancelAt(xor, a, b)} :: CancelAt(xor, a, b))
  }

  ghost predicate LowAt<W>(xor: (W, W) -> W, low: W -> bool, a: W, b: W) { low(xor(a, b)) <==> low(a) != low(b) }

  ghost predicate LowLaw<W(!new)>(xor: (W, W) -> W, low: W -> bool) {
    forall a, b {:trigger LowAt(xor, low, a, b)} :: LowAt(xor, low, a, b)
  }

  ghost predicate BitAt<W>(xor: (W, W) -> W, low: W -> bool, half: W -> W, p: W, step: W -> W, c: W) {
    step(c) == if low(c) then xor(half(c), p) else half(c)
  }

  ghost predicate BitLaw<W(!new)>(xor: (W, W) -> W, low: W -> bool, half: W -> W, p: W, step: W -> W) {
    forall c {:trigger BitAt(xor, low, half, p, step, c)} :: BitAt(xor, low, half, p, step, c)
  }

  /** One bit of a division by p distributes over exclusive-or. */
  lemma BitDistributes<W(!new)>(xor: (W, W) -> W, low: W -> bool, half: W -> W, p: W, step: W -> W)
    requires XorLaws(xor) && Distributes(half, xor) && LowLaw(xor, low) && BitLaw(xor, low, half, p, step)
    ensures Distributes(step, xor)
  {
    forall a, b ensures DistributesAt(step, xor, a, b) {
      assert DistributesAt(half, xor, a, b) && LowAt(xor, low, a, b);
      assert BitAt(xor, low, half, p, step, a) && BitAt(xor, low, half, p, step, b) && BitAt(xor, low, half, p, step, xor(a, b));
      PolyLaws(xor, half(a), half(b), p);
    }
  }

  lemma PolyLaws<W(!new)>(xor: (W, W) -> W, x: W, y: W, p: W)
    requires XorLaws(xor)
    ensures xor(x, xor(y, p)) == xor(xor(x, y), p) && xor(xor(x, p), y) == xor(xor(x, y), p)
    ensures xor(xor(x, p), xor(y, p)) == xor(x, y)
  {
    assert AssocAt(xor, x, y, p) && AssocAt(xor, x, p, y) && CommAt(xor, p, y);
    assert AssocAt(xor, x, p, xor(y, p)) && CommAt(xor, y, p) && CancelAt(xor, p, y);
  }

  /** Doing twice what distributes over exclusive-or distributes over it. */
  lemma TwiceDistributes<W(!new)>(f: W -> W, g: W -> W, xor: (W, W) -> W)
    requires Distributes(f, xor) && forall x {:trigger g(x)} :: g(x) == f(f(x))
    ensures Distributes(g, xor)
  {
    forall a, b ensures DistributesAt(g, xor, a, b) {
      assert DistributesAt(f, xor, a, b) && DistributesAt(f, xor, f(a), f(b));
    }
  }

  lemma Swap<W(!new)>(g: Register<W>, a: W, b: W, c: W)
    requires Laws(g)
    ensures g.xor(g.xor(a, b), c) == g.xor(g.xor(a, c), b)
  {
    assert Assoc(g, a, b, c) && Comm(g, b, c) && Assoc(g, a, c, b);
  }

  /** Changing the seed by d changes the checksum by the checksum of as many zeros from seed d. */
  lemma {:induction false} FoldLinear<W(!new)>(g: Register<W>, c: W, d: W, data: seq<Byte>)
    requires Laws(g)
    ensures Fold(g, g.xor(c, d), data) == g.xor(Fold(g, c, data), Fold(g, d, Zeros(|data|)))
    decreases |data|
  {
    if data != [] {
      var b := g.byte(data[0]);
      Swap(g, c, d, b);
      assert Linear(g, g.xor(c, b), d) && Neutral(g, d);
      assert Zeros(|data|)[1..] == Zeros(|data[1..]|);
      FoldLinear(g, g.step(g.xor(c, b)), g.step(d), data[1..]);
    }
  }

  lemma {:induction false} FoldConcat<W>(g: Register<W>, c: W, x: seq<Byte>, y: seq<Byte>)
    ensures Fold(g, c, x + y) == Fold(g, Fold(g, c, x), y)
    decreases |x|
  {
    if x == [] { assert x + y == y; }
    else {
      assert (x + y)[1..] == x[1..] + y;
      FoldConcat(g, g.step(g.xor(c, g.byte(x[0]))), x[1..], y);
    }
  }

  lemma OneByte<W>(g: Register<W>, c: W, b: Byte)
    ensures Fold(g, c, [b]) == g.step(g.xor(c, g.byte(b)))
  {
    assert [b][1..] == [];
    assert Fold(g, c, [b]) == Fold(g, g.step(g.xor(c, g.byte(b))), []);
  }

  /** n register steps. */
  function Steps<W>(g: Register<W>, n: nat, c: W): W {
    if n == 0 then c else g.step(Steps(g, n - 1, c))
  }

  lemma {:induction false} StepsLinear<W(!new)>(g: Register<W>, n: nat, a: W, b: W)
    requires Laws(g)
    ensures Steps(g, n, g.xor(a, b)) == g.xor(Steps(g, n, a), Steps(g, n, b))
  {
    if n > 0 {
      StepsLinear(g, n - 1, a, b);
      assert Linear(g, Steps(g, n - 1, a), Steps(g, n - 1, b));
    }
  }

  lemma {:induction false} StepsInside<W>(g: Register<W>, n: nat, c: W)
    ensures Steps(g, n, g.step(c)) == Steps(g, n + 1, c)
  {
    if n > 0 { StepsInside(g, n - 1, c); }
  }

  /** One byte and n more steps, split into what the register and what the byte contribute. */
  lemma ByteAhead<W(!new)>(g: Register<W>, n: nat, c: W, b: Byte)
    requires Laws(g)
    ensures Steps(g, n, g.step(g.xor(c, g.byte(b)))) == g.xor(Steps(g, n + 1, c), Steps(g, n + 1, g.byte(b)))
  {
    StepsInside(g, n, g.xor(c, g.byte(b)));
    StepsLinear(g, n + 1, c, g.byte(b));
  }

  /** The bytes' own contributions to the register: byte i has |data| - i steps ahead of it. */
  function Contributions<W>(g: Register<W>, data: seq<Byte>): W
    decreases |data|
  {
    if data == [] then g.byte(0)
    else g.xor(Steps(g, |data|, g.byte(data[0])), Contributions(g, data[1..]))
  }

  /** A fold is the register moved on by |data| steps, and the bytes' contributions. */
  lemma {:induction false} FoldSplit<W(!new)>(g: Register<W>, c: W, data: seq<Byte>)
    requires Laws(g)
    ensures Fold(g, c, data) == g.xor(Steps(g, |data|, c), Contributions(g, data))
    decreases |data|
  {
    if data == [] { assert Neutral(g, c); }
    else {
      var c', rest := g.step(g.xor(c, g.byte(data[0]))), data[1..];
      FoldSplit(g, c', rest);
      ByteAhead(g, |rest|, c, data[0]);
      assert Assoc(g, Steps(g, |data|, c), Steps(g, |data|, g.byte(data[0])), Contributions(g, rest));
    }
  }

  lemma SplitStep<W(!new)>(g: Register<W>, x: W, lo: W, hi: W, down: W)
    requires Laws(g) && x == g.xor(lo, hi) && g.step(hi) == down
    ensures g.step(x) == g.xor(Steps(g, 1, lo), down)
  {
    assert Linear(g, lo, hi);
    assert Steps(g, 0, lo) == lo;
  }

  /** A register value taken apart into four pieces, the i-th of which takes i steps to come down to w_i. */
  datatype Parts<W> = Parts(w0: W, w1: W, h1: W, w2: W, m2: W, h2: W, w3: W, l3: W, m3: W, h3: W)

  ghost predicate Apart<W>(g: Register<W>, w: W, p: Parts<W>) {
    && w == g.xor(p.w0, g.xor(p.h1, g.xor(p.h2, p.h3)))
    && g.step(p.h1) == p.w1
    && g.step(p.h2) == p.m2 && g.step(p.m2) == p.w2
    && g.step(p.h3) == p.m3 && g.step(p.m3) == p.l3 && g.step(p.l3) == p.w3
  }

  /** The four table look-ups that move a register on by n + 4 bytes. */
  function FourTables<W>(g: Register<W>, n: nat, p: Parts<W>): W {
    g.xor(Steps(g, n + 4, p.w0), g.xor(Steps(g, n + 3, p.w1), g.xor(Steps(g, n + 2, p.w2), Steps(g, n + 1, p.w3))))
  }

  lemma PartsSteps<W(!new)>(g: Register<W>, n: nat, w: W, p: Parts<W>)
    requires Laws(g) && Apart(g, w, p)
    ensures Steps(g, n + 4, w) == FourTables(g, n, p)
  {
    StepsLinear(g, n + 4, p.w0, g.xor(p.h1, g.xor(p.h2, p.h3)));
    StepsLinear(g, n + 4, p.h1, g.xor(p.h2, p.h3));
    StepsLinear(g, n + 4, p.h2, p.h3);
    StepsInside(g, n + 3, p.h1);
    StepsInside(g, n + 3, p.h2);
    StepsInside(g, n + 2, p.m2);
    StepsInside(g, n + 3, p.h3);
    StepsInside(g, n + 2, p.m3);
    StepsInside(g, n + 1, p.l3);
  }

  lemma {:induction false} StepsAdd<W>(g: Register<W>, m: nat, n: nat, c: W)
    ensures Steps(g, m, Steps(g, n, c)) == Steps(g, m + n, c)
  {
    if m > 0 { StepsAdd(g, m - 1, n, c); }
  }

  lemma FourContributions<W(!new)>(g: Register<W>, b0: Byte, b1: Byte, b2: Byte, b3: Byte)
    requires Laws(g)
    ensures Contributions(g, [b0, b1, b2, b3]) ==
            g.xor(Steps(g, 4, g.byte(b0)), g.xor(Steps(g, 3, g.byte(b1)), g.xor(Steps(g, 2, g.byte(b2)), Steps(g, 1, g.byte(b3)))))
  {
    assert Neutral(g, Steps(g, 1, g.byte(b3)));
    assert [b3][1..] == [];
    assert Contributions(g, [b3]) == g.xor(Steps(g, 1, g.byte(b3)), Contributions(g, [b3][1..]));
    assert [b2, b3][1..] == [b3];
    assert Contributions(g, [b2, b3]) == g.xor(Steps(g, 2, g.byte(b2)), Contributions(g, [b3]));
    assert [b1, b2, b3][1..] == [b2, b3];
    assert Contributions(g, [b1, b2, b3]) == g.xor(Steps(g, 3, g.byte(b1)), Contributions(g, [b2, b3]));
    assert [b0, b1, b2, b3][1..] == [b1, b2, b3];
  }

  /** Four bytes can be put into the register at once, before four steps. */
  lemma FourAtOnce<W(!new)>(g: Register<W>, c: W, b0: Byte, b1: Byte, b2: Byte, b3: Byte, w: W, p: Parts<W>)
    requires Laws(g) && Apart(g, w, p)
    requires p.w0 == g.byte(b0) && p.w1 == g.byte(b1) && p.w2 == g.byte(b2) && p.w3 == g.byte(b3)
    ensures Fold(g, c, [b0, b1, b2, b3]) == Steps(g, 4, g.xor(c, w))
  {
    FoldSplit(g, c, [b0, b1, b2, b3]);
    FourContributions(g, b0, b1, b2, b3);
    PartsSteps(g, 0, w, p);
    StepsLinear(g, 4, c, w);
  }

  lemma Regroup<W(!new)>(g: Register<W>, a0: W, a1: W, a2: W, a3: W, a4: W, a5: W, a6: W, a7: W)
    requires Laws(g)
    ensures g.xor(g.xor(a0, g.xor(a1, g.xor(a2, a3))), g.xor(a4, g.xor(a5, g.xor(a6, a7)))) ==
            g.xor(g.xor(g.xor(g.xor(g.xor(g.xor(a0, a1), a2), a3), g.xor(a4, a5)), a6), a7)
  {
    var l := g.xor(g.xor(g.xor(a0, a1), a2), a3);
    assert Assoc(g, a0, a1, g.xor(a2, a3)) && Assoc(g, g.xor(a0, a1), a2, a3);
    assert Assoc(g, a4, a5, g.xor(a6, a7)) && Assoc(g, l, g.xor(a4, a5), g.xor(a6, a7));
    assert Assoc(g, g.xor(l, g.xor(a4, a5)), a6, a7);
  }

  /** One round of the eight-table form is eight bytes of the simple form. */
  lemma EightBytes<W(!new)>(g: Register<W>, c: W, d: seq<Byte>, w: W, p: Parts<W>, x: W, q: Parts<W>)
    requires Laws(g) && |d| == 8 && Apart(g, w, p)
    requires p.w0 == g.byte(d[0]) && p.w1 == g.byte(d[1]) && p.w2 == g.byte(d[2]) && p.w3 == g.byte(d[3])
    requires x == g.xor(c, w) && Apart(g, x, q)
    ensures Fold(g, c, d) ==
            g.xor(g.xor(g.xor(g.xor(g.xor(g.xor(Steps(g, 8, q.w0), Steps(g, 7, q.w1)), Steps(g, 6, q.w2)), Steps(g, 5, q.w3)),
                  g.xor(Steps(g, 4, g.byte(d[4])), Steps(g, 3, g.byte(d[5])))), Steps(g, 2, g.byte(d[6]))), Steps(g, 1, g.byte(d[7])))
  {
    var lo, hi := [d[0], d[1], d[2], d[3]], [d[4], d[5], d[6], d[7]];
    assert d == lo + hi;
    FoldConcat(g, c, lo, hi);
    FourAtOnce(g, c, d[0], d[1], d[2], d[3], w, p);
    FoldSplit(g, Steps(g, 4, x), hi);
    StepsAdd(g, 4, 4, x);
    PartsSteps(g, 4, x, q);
    FourContributions(g, d[4], d[5], d[6], d[7]);
    Regroup(g, Steps(g, 8, q.w0), Steps(g, 7, q.w1), Steps(g, 6, q.w2), Steps(g, 5, q.w3),
            Steps(g, 4, g.byte(d[4])), Steps(g, 3, g.byte(d[5])), Steps(g, 2, g.byte(d[6])), Steps(g, 1, g.byte(d[7])));
  }
}

module Crc {
  import opened Registers

  type Word = bv32

  const POLY: Word := 0x82F63B78

  /** One bit of the reflected division. */
  function BitStep(c: Word): Word {
    if c & 1 == 1 then (c >> 1) ^ POLY else c >> 1
  }

  function Bits2(c: Word): Word { BitStep(BitStep(c)) }
  function Bits4(c: Word): Word { Bits2(Bits2(c)) }

  /** Eight bits: what happens to the register when a zero byte follows. */
  function Shift(c: Word): Word { Bits4(Bits4(c)) }

  function Xor(a: Word, b: Word): Word { a ^ b }

  function OfByte(b: Byte): Word { b as Word }

  const CRC32C: Register<Word> := Register(Xor, Shift, OfByte)

  /** The checksum of `data` continued from c; this is the reference definition. */
  function Crc32c(c: Word, data: seq<Byte>): Word {
    Fold(CRC32C, c, data)
  }

  // ---------------------------------------------------------------- the laws hold

  predicate Low(c: Word) { c & 1 == 1 }

  function Half(c: Word): Word { c >> 1 }

  lemma HalfXor(a: Word, b: Word)
    ensures DistributesAt(Half, Xor, a, b)
  {
  }

  lemma LowXor(a: Word, b: Word)
    ensures LowAt(Xor, Low, a, b)
  {
  }

  lemma BitStepIs(c: Word)
    ensures BitAt(Xor, Low, Half, POLY, BitStep, c)
  {
  }

  lemma XorThree(a: Word, b: Word, c: Word)
    ensures Xor(Xor(a, b), c) == Xor(a, Xor(b, c))
  {
  }

  lemma XorAssoc(a: Word, b: Word, c: Word)
    ensures AssocAt(Xor, a, b, c)
  {
    XorThree(a, b, c);
  }

  lemma XorComm(a: Word, b: Word)
    ensures CommAt(Xor, a, b)
  {
  }

  lemma XorCancel(a: Word, b: Word)
    ensures CancelAt(Xor, a, b)
  {
  }

  lemma WordXorLaws()
    ensures XorLaws(Xor)
  {
    forall a, b, c ensures AssocAt(Xor, a, b, c) { XorAssoc(a, b, c); }
    forall a, b ensures CommAt(Xor, a, b) { XorComm(a, b); }
    forall a, b ensures CancelAt(Xor, a, b) { XorCancel(a, b); }
  }

  lemma HalfDistributes()
    ensures Distributes(Half, Xor)
  {
    forall a, b ensures DistributesAt(Half, Xor, a, b) { HalfXor(a, b); }
  }

  lemma WordLowLaw()
    ensures LowLaw(Xor, Low)
  {
    forall a, b ensures LowAt(Xor, Low, a, b) { LowXor(a, b); }
  }

  lemma WordBitLaw()
    ensures BitLaw(Xor, Low, Half, POLY, BitStep)
  {
    forall c ensures BitAt(Xor, Low, Half, POLY, BitStep, c) { BitStepIs(c); }
  }

  lemma BitStepDistributes()
    ensures Distributes(BitStep, Xor)
  {
    WordXorLaws();
    HalfDistributes();
    WordLowLaw();
    WordBitLaw();
    BitDistributes(Xor, Low, Half, POLY, BitStep);
  }

  lemma ShiftDistributes()
    ensures Distributes(Shift, Xor)
  {
    BitStepDistributes();
    TwiceDistributes(BitStep, Bits2, Xor);
    TwiceDistributes(Bits2, Bits4, Xor);
    TwiceDistributes(Bits4, Shift, Xor);
  }

  lemma LinearLaw(a: Word, b: Word)
    ensures Linear(CRC32C, a, b)
  {
    ShiftDistributes();
    assert DistributesAt(CRC32C.step, CRC32C.xor, a, b);
  }

  lemma XorZero(a: Word)
    ensures Xor(a, OfByte(0)) == a
  {
  }

  lemma AssocLaw(a: Word, b: Word, c: Word)
    ensures Assoc(CRC32C, a, b, c)
  {
    XorAssoc(a, b, c);
  }

  lemma CommLaw(a: Word, b: Word)
    ensures Comm(CRC32C, a, b)
  {
    XorComm(a, b);
  }

  lemma CancelLaw(a: Word, b: Word)
    ensures Cancel(CRC32C, a, b)
  {
    XorCancel(a, b);
  }

  lemma NeutralLaw(a: Word)
    ensures Neutral(CRC32C, a)
  {
    XorZero(a);
  }

  lemma CrcLaws()
    ensures Laws(CRC32C)
  {
    forall a, b, c ensures Assoc(CRC32C, a, b, c) { AssocLaw(a, b, c); }
    forall a, b ensures Comm(CRC32C, a, b) { CommLaw(a, b); }
    forall a, b ensures Cancel(CRC32C, a, b) { CancelLaw(a, b); }
    forall a ensures Neutral(CRC32C, a) { NeutralLaw(a); }
    forall a, b ensures Linear(CRC32C, a, b) { LinearLaw(a, b); }
  }

  // ---------------------------------------------------------------- seeds and pieces

  /** A checksum cached for seed v gives the checksum for any other seed. */
  lemma Reseed(v: Word, v': Word, data: seq<Byte>)
    ensures Crc32c(v', data) == Xor(Crc32c(v, data), Crc32c(Xor(v, v'), Zeros(|data|)))
  {
    CrcLaws();
    assert Cancel(CRC32C, v, v');
    FoldLinear(CRC32C, v, Xor(v, v'), data);
  }

  lemma CrcConcat(c: Word, x: seq<Byte>, y: seq<Byte>)
    ensures Crc32c(c, x + y) == Crc32c(Crc32c(c, x), y)
  {
    FoldConcat(CRC32C, c, x, y);
  }

  // ---------------------------------------------------------------- table forms

  /** Entry i of the table for a byte with k more bytes behind it. */
  function Table(k: nat, i: Word): Word {
    Steps(CRC32C, k + 1, i)
  }

  lemma StepIsShift(c: Word)
    ensures CRC32C.step(c) == Shift(c) && Table(0, c) == Shift(c)
  {
    assert Steps(CRC32C, 0, c) == c;
  }

  lemma {:induction false} StepsLast(k: nat, c: Word)
    ensures Steps(CRC32C, k + 1, c) == CRC32C.step(Steps(CRC32C, k, c))
  {
    StepsAdd(CRC32C, k, 1, c);
  }

  /** Each table is the next step of the one before it. */
  lemma TableNext(k: nat, i: Word)
    ensures Table(k + 1, i) == Shift(Table(k, i))
  {
    StepsLast(k + 1, i);
    StepIsShift(Table(k, i));
  }

  /** An entry is determined by those of the bits of its index. */
  lemma TableLinear(k: nat, x: Word, y: Word)
    ensures Table(k, Xor(x, y)) == Xor(Table(k, x), Table(k, y))
  {
    CrcLaws();
    StepsLinear(CRC32C, k + 1, x, y);
  }

  /** The entries for single bits of table 0, as they are written out in the source. */
  lemma TableEntries0()
    ensures Table(0, 1) == 0xF26B8303 && Table(0, 2) == 0xE13B70F7 && Table(0, 4) == 0xC79A971F && Table(0, 8) == 0x8AD958CF
    ensures Table(0, 16) == 0x105EC76F && Table(0, 32) == 0x20BD8EDE && Table(0, 64) == 0x417B1DBC && Table(0, 128) == 0x82F63B78
  {
    StepIsShift(1);
    StepIsShift(2);
    StepIsShift(4);
    StepIsShift(8);
    StepIsShift(16);
    StepIsShift(32);
    StepIsShift(64);
    StepIsShift(128);
  }

  /** The entries for single bits of table 1, as they are written out in the source. */
  lemma TableEntries1()
    ensures Table(1, 1) == 0x13A29877 && Table(1, 2) == 0x274530EE && Table(1, 4) == 0x4E8A61DC && Table(1, 8) == 0x9D14C3B8
    ensures Table(1, 16) == 0x3FC5F181 && Table(1, 32) == 0x7F8BE302 && Table(1, 64) == 0xFF17C604 && Table(1, 128) == 0xFBC3FAF9
  {
    TableEntries0();
    TableNext(0, 1);
    TableNext(0, 2);
    TableNext(0, 4);
    TableNext(0, 8);
    TableNext(0, 16);
    TableNext(0, 32);
    TableNext(0, 64);
    TableNext(0, 128);
  }

  /** The entries for single bits of table 2, as they are written out in the source. */
  lemma TableEntries2()
    ensures Table(2, 1) == 0xA541927E && Table(2, 2) == 0x4F6F520D && Table(2, 4) == 0x9EDEA41A && Table(2, 8) == 0x38513EC5
    ensures Table(2, 16) == 0x70A27D8A && Table(2, 32) == 0xE144FB14 && Table(2, 64) == 0xC76580D9 && Table(2, 128) == 0x8B277743
  {
    TableEntries1();
    TableNext(1, 1);
    TableNext(1, 2);
    TableNext(1, 4);
    TableNext(1, 8);
    TableNext(1, 16);
    TableNext(1, 32);
    TableNext(1, 64);
    TableNext(1, 128);
  }

  /** The entries for single bits of table 3, as they are written out in the source. */
  lemma TableEntries3()
    ensures Table(3, 1) == 0xDD45AAB8 && Table(3, 2) == 0xBF672381 && Table(3, 4) == 0x7B2231F3 && Table(3, 8) == 0xF64463E6
    ensures Table(3, 16) == 0xE964B13D && Table(3, 32) == 0xD725148B && Table(3, 64) == 0xABA65FE7 && Table(3, 128) == 0x52A0C93F
  {
    TableEntries2();
    TableNext(2, 1);
    TableNext(2, 2);
    TableNext(2, 4);
    TableNext(2, 8);
    TableNext(2, 16);
    TableNext(2, 32);
    TableNext(2, 64);
    TableNext(2, 128);
  }

  /** The entries for single bits of table 4, as they are written out in the source. */
  lemma TableEntries4()
    ensures Table(4, 1) == 0x38116FAC && Table(4, 2) == 0x7022DF58 && Table(4, 4) == 0xE045BEB0 && Table(4, 8) == 0xC5670B91
    ensures Table(4, 16) == 0x8F2261D3 && Table(4, 32) == 0x1BA8B557 && Table(4, 64) == 0x37516AAE && Table(4, 128) == 0x6EA2D55C
  {
    TableEntries3();
    TableNext(3, 1);
    TableNext(3, 2);
    TableNext(3, 4);
    TableNext(3, 8);
    TableNext(3, 16);
    TableNext(3, 32);
    TableNext(3, 64);
    TableNext(3, 128);
  }

  /** The entries for single bits of table 5, as they are written out in the source. */
  lemma TableEntries5()
    ensures Table(5, 1) == 0xEF306B19 && Table(5, 2) == 0xDB8CA0C3 && Table(5, 4) == 0xB2F53777 && Table(5, 8) == 0x6006181F
    ensures Table(5, 16) == 0xC00C303E && Table(5, 32) == 0x85F4168D && Table(5, 64) == 0x0E045BEB && Table(5, 128) == 0x1C08B7D6
  {
    TableEntries4();
    TableNext(4, 1);
    TableNext(4, 2);
    TableNext(4, 4);
    TableNext(4, 8);
    TableNext(4, 16);
    TableNext(4, 32);
    TableNext(4, 64);
    TableNext(4, 128);
  }

  /** The entries for single bits of table 6, as they are written out in the source. */
  lemma TableEntries6()
    ensures Table(6, 1) == 0x68032CC8 && Table(6, 2) == 0xD0065990 && Table(6, 4) == 0xA5E0C5D1 && Table(6, 8) == 0x4E2DFD53
    ensures Table(6, 16) == 0x9C5BFAA6 && Table(6, 32) == 0x3D5B83BD && Table(6, 64) == 0x7AB7077A && Table(6, 128) == 0xF56E0EF4
  {
    TableEntries5();
    TableNext(5, 1);
    TableNext(5, 2);
    TableNext(5, 4);
    TableNext(5, 8);
    TableNext(5, 16);
    TableNext(5, 32);
    TableNext(5, 64);
    TableNext(5, 128);
  }

  /** The entries for single bits of table 7, as they are written out in the source. */
  lemma TableEntries7()
    ensures Table(7, 1) == 0x493C7D27 && Table(7, 2) == 0x9278FA4E && Table(7, 4) == 0x211D826D && Table(7, 8) == 0x423B04DA
    ensures Table(7, 16) == 0x847609B4 && Table(7, 32) == 0x0D006599 && Table(7, 64) == 0x1A00CB32 && Table(7, 128) == 0x34019664
  {
    TableEntries6();
    TableNext(6, 1);
    TableNext(6, 2);
    TableNext(6, 4);
    TableNext(6, 8);
    TableNext(6, 16);
    TableNext(6, 32);
    TableNext(6, 64);
    TableNext(6, 128);
  }

  /** With its low byte clear, the register just moves down. */
  lemma ShiftMovesDown(c: Word)
    requires c & 0xFF == 0
    ensures Shift(c) == c >> 8
  {
    assert c & 1 == 0 && (c >> 1) & 1 == 0 && (c >> 2) & 1 == 0 && (c >> 3) & 1 == 0;
    assert (c >> 4) & 1 == 0 && (c >> 5) & 1 == 0 && (c >> 6) & 1 == 0 && (c >> 7) & 1 == 0;
    assert BitStep(c) == c >> 1;
    assert Bits2(c) == c >> 2;
    assert BitStep(c >> 2) == c >> 3;
    assert Bits4(c) == c >> 4;
    assert BitStep(c >> 4) == c >> 5;
    assert Bits2(c >> 4) == c >> 6;
    assert BitStep(c >> 6) == c >> 7;
  }

  lemma LowHigh(c: Word)
    ensures Xor(c & 0xFF, c & 0xFFFFFF00) == c
    ensures (c & 0xFFFFFF00) & 0xFF == 0 && (c & 0xFFFFFF00) >> 8 == c >> 8
  {
  }

  lemma HighBytes(c: Word, b: Byte)
    ensures Xor(c, OfByte(b)) >> 8 == c >> 8
  {
  }

  lemma HighStep(c: Word, b: Byte)
    ensures CRC32C.step(Xor(c, OfByte(b)) & 0xFFFFFF00) == c >> 8
  {
    HighBytes(c, b);
    HighPart(Xor(c, OfByte(b)), c >> 8);
  }

  lemma HighPart(x: Word, d: Word)
    requires x >> 8 == d
    ensures CRC32C.step(x & 0xFFFFFF00) == d
  {
    LowHigh(x);
    StepDown(x & 0xFFFFFF00, d);
  }

  lemma StepDown(h: Word, d: Word)
    requires h & 0xFF == 0 && h >> 8 == d
    ensures CRC32C.step(h) == d
  {
    ShiftMovesDown(h);
    StepIsShift(h);
  }

  /** The table form of one byte. */
  lemma ByteByTable(c: Word, b: Byte)
    ensures Fold(CRC32C, c, [b]) == CRC32C.xor(Table(0, Xor(c, OfByte(b)) & 0xFF), c >> 8)
  {
    var x := Xor(c, OfByte(b));
    CrcLaws();
    LowHigh(x);
    HighStep(c, b);
    SplitStep(CRC32C, x, x & 0xFF, x & 0xFFFFFF00, c >> 8);
    OneByte(CRC32C, c, b);
  }

  /** The bytes of a word, each also one, two or three places up. */
  function ByteParts(w0: Word, w1: Word, w2: Word, w3: Word): Parts<Word> {
    Parts(w0, w1, w1 << 8, w2, w2 << 8, w2 << 16, w3, w3 << 8, w3 << 16, w3 << 24)
  }

  /** A little-endian load of four bytes. */
  function Le32(b0: Byte, b1: Byte, b2: Byte, b3: Byte): Word {
    OfByte(b0) | (OfByte(b1) << 8) | (OfByte(b2) << 16) | (OfByte(b3) << 24)
  }

  /** A byte moves down from each of the upper three places. */
  lemma ByteMovesDown(w: Word)
    requires w <= 0xFF
    ensures CRC32C.step(w << 8) == w && CRC32C.step(w << 16) == w << 8 && CRC32C.step(w << 24) == w << 16
  {
    ByteUp(w);
    ShiftMovesDown(w << 8);
    StepIsShift(w << 8);
    ShiftMovesDown(w << 16);
    StepIsShift(w << 16);
    ShiftMovesDown(w << 24);
    StepIsShift(w << 24);
  }

  lemma ByteUp(w: Word)
    requires w <= 0xFF
    ensures (w << 8) & 0xFF == 0 && (w << 16) & 0xFF == 0 && (w << 24) & 0xFF == 0
    ensures (w << 8) >> 8 == w && (w << 16) >> 8 == w << 8 && (w << 24) >> 8 == w << 16
  {
  }

  lemma WordBytes(w: Word)
    ensures w == Xor(w & 0xFF, Xor(((w >> 8) & 0xFF) << 8, Xor(((w >> 16) & 0xFF) << 16, ((w >> 24) & 0xFF) << 24)))
    ensures (w >> 8) & 0xFF <= 0xFF && (w >> 16) & 0xFF <= 0xFF && (w >> 24) & 0xFF <= 0xFF
  {
  }

  lemma LeBytes(b0: Byte, b1: Byte, b2: Byte, b3: Byte)
    ensures Le32(b0, b1, b2, b3) == Xor(OfByte(b0), Xor(OfByte(b1) << 8, Xor(OfByte(b2) << 16, OfByte(b3) << 24)))
  {
  }

  lemma ByteSmall(b: Byte)
    ensures OfByte(b) <= 0xFF
  {
  }

  lemma BytesApart(w: Word, w0: Word, w1: Word, w2: Word, w3: Word)
    requires w1 <= 0xFF && w2 <= 0xFF && w3 <= 0xFF
    requires w == Xor(w0, Xor(w1 << 8, Xor(w2 << 16, w3 << 24)))
    ensures Apart(CRC32C, w, ByteParts(w0, w1, w2, w3))
  {
    ByteMovesDown(w1);
    ByteMovesDown(w2);
    ByteMovesDown(w3);
  }

  lemma WordApart(w: Word)
    ensures Apart(CRC32C, w, ByteParts(w & 0xFF, (w >> 8) & 0xFF, (w >> 16) & 0xFF, (w >> 24) & 0xFF))
  {
    WordBytes(w);
    BytesApart(w, w & 0xFF, (w >> 8) & 0xFF, (w >> 16) & 0xFF, (w >> 24) & 0xFF);
  }

  lemma LeApart(b0: Byte, b1: Byte, b2: Byte, b3: Byte)
    ensures Apart(CRC32C, Le32(b0, b1, b2, b3), ByteParts(OfByte(b0), OfByte(b1), OfByte(b2), OfByte(b3)))
  {
    LeBytes(b0, b1, b2, b3);
    ByteSmall(b1);
    ByteSmall(b2);
    ByteSmall(b3);
    BytesApart(Le32(b0, b1, b2, b3), OfByte(b0), OfByte(b1), OfByte(b2), OfByte(b3));
  }

  function TableStep(c: Word, b: Byte): Word {
    Xor(Table(0, Xor(c, OfByte(b)) & 0xFF), c >> 8)
  }

  /** One round of the eight-table form. */
  function TableRound(c: Word, d: seq<Byte>): Word
    requires |d| == 8
  {
    var x := Xor(c, Le32(d[0], d[1], d[2], d[3]));
    var term1 := Xor(Table(7, x & 0xFF), Table(6, (x >> 8) & 0xFF));
    var c1 := Xor(Xor(term1, Table(5, (x >> 16) & 0xFF)), Table(4, (x >> 24) & 0xFF));
    var term2 := Xor(Table(3, OfByte(d[4])), Table(2, OfByte(d[5])));
    Xor(Xor(Xor(c1, term2), Table(1, OfByte(d[6]))), Table(0, OfByte(d[7])))
  }

  /** The eight-table round computes the checksum of its eight bytes. */
  lemma RoundIsCrc(c: Word, d: seq<Byte>)
    requires |d| == 8
    ensures TableRound(c, d) == Crc32c(c, d)
  {
    var w := Le32(d[0], d[1], d[2], d[3]);
    var x := Xor(c, w);
    CrcLaws();
    LeApart(d[0], d[1], d[2], d[3]);
    WordApart(x);
    EightBytes(CRC32C, c, d, w, ByteParts(OfByte(d[0]), OfByte(d[1]), OfByte(d[2]), OfByte(d[3])),
               x, ByteParts(x & 0xFF, (x >> 8) & 0xFF, (x >> 16) & 0xFF, (x >> 24) & 0xFF));
  }

  lemma StepIsCrc(c: Word, b: Byte)
    ensures TableStep(c, b) == Crc32c(c, [b])
  {
    ByteByTable(c, b);
  }

  lemma CrcExtend(c: Word, data: seq<Byte>, i: nat, j: nat)
    requires i <= j <= |data|
    ensures Crc32c(c, data[..j]) == Crc32c(Crc32c(c, data[..i]), data[i..j])
  {
    assert data[..j] == data[..i] + data[i..j];
    CrcConcat(c, data[..i], data[i..j]);
  }

  method ByteStep(c: Word, ghost crc: Word, data: seq<Byte>, i: nat) returns (r: Word)
    requires i < |data| && c == Crc32c(crc, data[..i])
    ensures r == Crc32c(crc, data[..i + 1])
  {
    StepIsCrc(c, data[i]);
    CrcExtend(crc, data, i, i + 1);
    assert data[i..i + 1] == [data[i]];
    r := TableStep(c, data[i]);
  }

  method EightStep(c: Word, ghost crc: Word, data: seq<Byte>, i: nat) returns (r: Word)
    requires i + 8 <= |data| && c == Crc32c(crc, data[..i])
    ensures r == Crc32c(crc, data[..i + 8])
  {
    RoundIsCrc(c, data[i..i + 8]);
    CrcExtend(crc, data, i, i + 8);
    r := TableRound(c, data[i..i + 8]);
  }

  /** The checksum as it is computed: single bytes up to a word boundary, then eight at a time,
      then the rest.  `misaligned` is the address of the data modulo 4. */
  method UpdateCrc(crc: Word, data: seq<Byte>, misaligned: nat) returns (r: Word)
    requires misaligned < 4
    ensures r == Crc32c(crc, data)
  {
    var init := (4 - misaligned) % 4;
    if init > |data| { init := |data|; }
    var running := (|data| - init) / 8 * 8;
    r := UpdateBytes(crc, data, 0, init, crc);
    var i := init;
    while i < init + running
      invariant init <= i <= init + running && (i - init) % 8 == 0 && r == Crc32c(crc, data[..i])
    {
      r := EightStep(r, crc, data, i);
      i := i + 8;
    }
    r := UpdateBytes(crc, data, i, |data|, r);
    assert data[..|data|] == data;
  }

  /** The byte-at-a-time loop, over data[from..to]. */
  method UpdateBytes(ghost crc: Word, data: seq<Byte>, from: nat, to: nat, c: Word) returns (r: Word)
    requires from <= to <= |data| && c == Crc32c(crc, data[..from])
    ensures r == Crc32c(crc, data[..to])
  {
    r := c;
    var i := from;
    while i < to
      invariant from <= i <= to && r == Crc32c(crc, data[..i])
    {
      r := ByteStep(r, crc, data, i);
      i := i + 1;
    }
  }
}
