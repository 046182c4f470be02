/**
 * A Bloom filter whose table can be folded to a smaller size.  Keys inserted before are still
 * found, because an index is taken modulo all sizes the table has had.
 */
module BloomFilters {
  import opened Division

  type Byte = bv8
  type Word = bv32
  type Key = seq<Byte>

  /** The number that a hash value stands for. */
  type Number = Word -> nat

  // ---------------------------------------------------------------- the hash

  function Even(h: Word, b: Byte): Word { h ^ ((h << 7) ^ (b as Word) * (h >> 3)) }

  function Odd(h: Word, b: Byte): Word { h ^ !((h << 11) + ((b as Word) ^ (h >> 5))) }

  /** Two kinds of step in turn. */
  function InTurn<W>(even: (W, Byte) -> W, odd: (W, Byte) -> W, h: W, key: Key): W
    decreases |key|
  {
    if key == [] then h
    else if |key| == 1 then even(h, key[0])
    else InTurn(even, odd, odd(even(h, key[0]), key[1]), key[2..])
  }

  lemma InTurnTwo<W>(even: (W, Byte) -> W, odd: (W, Byte) -> W, h: W, key: Key, i: nat)
    requires i + 2 <= |key|
    ensures InTurn(even, odd, h, key[i..]) == InTurn(even, odd, odd(even(h, key[i]), key[i + 1]), key[i + 2..])
  {
    assert key[i..][2..] == key[i + 2..];
  }

  /** The hash of a key. */
  function Hash(h: Word, key: Key): Word { InTurn(Even, Odd, h, key) }

  /** As it is computed: four bytes at a time, then two, then one. */
  method HashAp(key: Key, salt: Word) returns (h: Word)
    ensures h == Hash(salt, key)
  {
    h := salt;
    var i := 0;
    while i + 4 <= |key|
      invariant 0 <= i <= |key| && Hash(h, key[i..]) == Hash(salt, key)
    {
      HashTwo(h, key, i);
      HashTwo(Odd(Even(h, key[i]), key[i + 1]), key, i + 2);
      h := Even(h, key[i]);
      h := Odd(h, key[i + 1]);
      h := Even(h, key[i + 2]);
      h := Odd(h, key[i + 3]);
      i := i + 4;
    }
    while i + 2 <= |key|
      invariant 0 <= i <= |key| && Hash(h, key[i..]) == Hash(salt, key)
    {
      HashTwo(h, key, i);
      h := Even(h, key[i]);
      h := Odd(h, key[i + 1]);
      i := i + 2;
    }
    if i < |key| { h := Even(h, key[i]); }
  }

  lemma HashTwo(h: Word, key: Key, i: nat)
    requires i + 2 <= |key|
    ensures Hash(h, key[i..]) == Hash(Odd(Even(h, key[i]), key[i + 1]), key[i + 2..])
  {
    InTurnTwo(Even, Odd, h, key, i);
  }

  function ByteOf(v: Word, shift: nat): Byte
    requires shift <= 24
  {
    ((v >> shift) & 0xFF) as Byte
  }

  /** A number hashes like its bytes, highest first. */
  function HashWord(v: Word, h: Word): Word {
    Odd(Even(Odd(Even(h, ByteOf(v, 24)), ByteOf(v, 16)), ByteOf(v, 8)), ByteOf(v, 0))
  }

  function WordKey(v: Word): Key { [ByteOf(v, 24), ByteOf(v, 16), ByteOf(v, 8), ByteOf(v, 0)] }

  lemma HashWordIsHash(v: Word, h: Word)
    ensures HashWord(v, h) == Hash(h, WordKey(v))
  {
    HashTwo(h, WordKey(v), 0);
    HashTwo(Odd(Even(h, ByteOf(v, 24)), ByteOf(v, 16)), WordKey(v), 2);
    assert WordKey(v)[0..] == WordKey(v) && WordKey(v)[2..][2..] == [];
  }

  // ---------------------------------------------------------------- indices

  ghost predicate Positive(sizes: seq<nat>) {
    forall i {:trigger sizes[i]} | 0 <= i < |sizes| :: sizes[i] > 0
  }

  /** An index modulo all sizes, in bits, that the table has had. */
  function Index(hash: nat, sizes: seq<nat>): nat
    requires Positive(sizes)
  {
    if sizes == [] then hash else Index(hash, sizes[..|sizes| - 1]) % (8 * sizes[|sizes| - 1])
  }

  method ComputeIndex(hash: nat, sizes: seq<nat>) returns (index: nat)
    requires Positive(sizes)
    ensures index == Index(hash, sizes)
  {
    index := hash;
    var i := 0;
    while i < |sizes|
      invariant 0 <= i <= |sizes| && index == Index(hash, sizes[..i])
    {
      assert sizes[..i + 1][..i] == sizes[..i];
      index := index % (8 * sizes[i]);
      i := i + 1;
    }
    assert sizes[..i] == sizes;
  }

  /** Folding an index in bits folds its byte and keeps its bit. */
  lemma FoldIndex(b: nat, n: nat)
    requires n > 0
    ensures b % (8 * n) / 8 == b / 8 % n && b % (8 * n) % 8 == b % 8
  {
    var q, r := b / 8, b % 8;
    var k, m := q / n, q % n;
    assert q == k * n + m;
    assert b == k * (8 * n) + (8 * m + r) by {
      assert b == 8 * q + r;
      assert 8 * (k * n) == k * (8 * n);
    }
    DivMod(b, 8 * n, k, 8 * m + r);
    DivMod(8 * m + r, 8, m, r);
  }

  // ---------------------------------------------------------------- bits

  function Mask(bit: nat): Byte
    requires bit < 8
  {
    (1 as Byte) << bit
  }

  predicate Covers(x: Byte, m: Byte) { x & m == m }

  lemma OrCovers(x: Byte, m: Byte)
    ensures Covers(x | m, m)
  {
  }

  lemma OrKeeps(x: Byte, y: Byte, m: Byte)
    requires Covers(x, m)
    ensures Covers(x | y, m) && Covers(y | x, m)
  {
  }

  predicate IsSet(table: seq<Byte>, index: nat)
    requires index / 8 < |table|
  {
    Covers(table[index / 8], Mask(index % 8))
  }

  lemma {:induction false} IndexInTable(hash: nat, sizes: seq<nat>)
    requires Positive(sizes) && sizes != []
    ensures Index(hash, sizes) / 8 < sizes[|sizes| - 1]
  {
    var n := sizes[|sizes| - 1];
    FoldIndex(Index(hash, sizes[..|sizes| - 1]), n);
  }

  ghost predicate TableOk(table: seq<Byte>, sizes: seq<nat>) {
    Positive(sizes) && sizes != [] && |table| == sizes[|sizes| - 1]
  }

  function IndexOf(num: Number, key: Key, salt: Word, sizes: seq<nat>): nat
    requires Positive(sizes)
  {
    Index(num(Hash(salt, key)), sizes)
  }

  ghost predicate Found(num: Number, table: seq<Byte>, sizes: seq<nat>, key: Key, salt: Word)
    requires TableOk(table, sizes)
  {
    IndexInTable(num(Hash(salt, key)), sizes);
    IsSet(table, IndexOf(num, key, salt, sizes))
  }

  /** All bits of the key are set. */
  ghost predicate Has(num: Number, table: seq<Byte>, sizes: seq<nat>, salts: seq<Word>, key: Key)
    requires TableOk(table, sizes)
  {
    forall i {:trigger Found(num, table, sizes, key, salts[i])} | 0 <= i < |salts| :: Found(num, table, sizes, key, salts[i])
  }

  /** Every bit set in `a` is set in `b`. */
  ghost predicate Grows(a: seq<Byte>, b: seq<Byte>) {
    |a| == |b| && forall i, m: Byte {:trigger Covers(b[i], m)} | 0 <= i < |a| && Covers(a[i], m) :: Covers(b[i], m)
  }

  lemma GrowsHas(num: Number, a: seq<Byte>, b: seq<Byte>, sizes: seq<nat>, salts: seq<Word>, key: Key)
    requires TableOk(a, sizes) && Grows(a, b) && Has(num, a, sizes, salts, key)
    ensures Has(num, b, sizes, salts, key)
  {
    forall i | 0 <= i < |salts| ensures Found(num, b, sizes, key, salts[i]) {
      assert Found(num, a, sizes, key, salts[i]);
    }
  }

  /** Every bit of the table is kept in the folded one. */
  ghost predicate Folded(a: seq<Byte>, t: seq<Byte>, upto: nat) {
    0 < |t| <= |a| && upto <= |a| &&
    forall x: nat, m: Byte {:trigger Covers(a[x], m)} | x < upto && Covers(a[x], m) :: Covers(t[x % |t|], m)
  }

  lemma {:induction false} FoldedBit(a: seq<Byte>, t: seq<Byte>, sizes: seq<nat>, h: nat)
    requires TableOk(a, sizes) && Folded(a, t, |a|) && Index(h, sizes) / 8 < |a| && IsSet(a, Index(h, sizes))
    ensures TableOk(t, sizes + [|t|]) && Index(h, sizes + [|t|]) / 8 < |t| && IsSet(t, Index(h, sizes + [|t|]))
  {
    var b := Index(h, sizes);
    LastSize(sizes, |t|);
    FoldIndex(b, |t|);
    assert Covers(a[b / 8], Mask(b % 8));
  }

  lemma LastSize(sizes: seq<nat>, n: nat)
    ensures (sizes + [n])[..|sizes|] == sizes && (sizes + [n])[|sizes|] == n
  {
  }

  /** A key that is found is still found after folding. */
  lemma FoldedHas(num: Number, a: seq<Byte>, t: seq<Byte>, sizes: seq<nat>, salts: seq<Word>, key: Key)
    requires TableOk(a, sizes) && Folded(a, t, |a|) && Has(num, a, sizes, salts, key)
    ensures TableOk(t, sizes + [|t|]) && Has(num, t, sizes + [|t|], salts, key)
  {
    forall i | 0 <= i < |salts| ensures Found(num, t, sizes + [|t|], key, salts[i]) {
      assert Found(num, a, sizes, key, salts[i]);
      IndexInTable(num(Hash(salts[i], key)), sizes);
      FoldedBit(a, t, sizes, num(Hash(salts[i], key)));
    }
  }

  // ---------------------------------------------------------------- the filter in place

  class CompressibleBloomFilter {
    var table: array<Byte>
    var sizes: seq<nat>
    const salts: seq<Word>
    const num: Number
    var insertCount: nat
    ghost var keys: set<Key>

    /** Every key inserted since the table was last cleared has all its bits set. */
    ghost predicate Valid()
      reads this, table
    {
      if table.Length == 0 then keys == {}
      else TableOk(table[..], sizes) && forall k {:trigger Has(num, table[..], sizes, salts, k)} | k in keys :: Has(num, table[..], sizes, salts, k)
    }

    constructor (salts: seq<Word>, size: nat, num: Number)
      ensures Valid() && keys == {} && fresh(table) && table.Length == size && this.salts == salts && this.num == num
    {
      this.salts, this.num := salts, num;
      table := new Byte[size](_ => 0);
      sizes := [size];
      insertCount := 0;
      keys := {};
    }

    method Clear()
      requires Valid()
      modifies this`insertCount, this`keys, table
      ensures Valid() && keys == {}
    {
      forall i | 0 <= i < table.Length { table[i] := 0; }
      insertCount, keys := 0, {};
    }

    /** Sets the bit of the key for one salt. */
    method SetBit(key: Key, salt: Word)
      requires TableOk(table[..], sizes)
      modifies table
      ensures TableOk(table[..], sizes) && Grows(old(table[..]), table[..]) && Found(num, table[..], sizes, key, salt)
    {
      var h := HashAp(key, salt);
      var b := ComputeIndex(num(h), sizes);
      IndexInTable(num(h), sizes);
      SetIn(table[..], b);
      table[b / 8] := table[b / 8] | Mask(b % 8);
      assert table[..] == Set(old(table[..]), b);
    }

    method Insert(key: Key)
      requires Valid() && table.Length > 0
      modifies this`insertCount, this`keys, table
      ensures Valid() && keys == old(keys) + {key} && insertCount == old(insertCount) + 1
      ensures Has(num, table[..], sizes, salts, key)
    {
      var i := 0;
      GrowsRefl(table[..]);
      while i < |salts|
        modifies table
        invariant 0 <= i <= |salts| && TableOk(table[..], sizes) && Grows(old(table[..]), table[..])
        invariant forall j {:trigger Found(num, table[..], sizes, key, salts[j])} | 0 <= j < i :: Found(num, table[..], sizes, key, salts[j])
      {
        ghost var before := table[..];
        SetBit(key, salts[i]);
        GrowsTrans(old(table[..]), before, table[..]);
        forall j | 0 <= j < i ensures Found(num, table[..], sizes, key, salts[j]) {
          GrowsFound(num, before, table[..], sizes, key, salts[j]);
        }
        i := i + 1;
      }
      forall k | k in keys ensures Has(num, table[..], sizes, salts, k) {
        GrowsHas(num, old(table[..]), table[..], sizes, salts, k);
      }
      insertCount, keys := insertCount + 1, keys + {key};
    }

    /** No key inserted since the last clear is reported missing. */
    method Contains(key: Key) returns (b: bool)
      requires Valid()
      ensures b <==> table.Length > 0 && Has(num, table[..], sizes, salts, key)
      ensures key in keys ==> b
    {
      if table.Length == 0 { return false; }
      var i := 0;
      while i < |salts|
        invariant 0 <= i <= |salts|
        invariant forall j {:trigger Found(num, table[..], sizes, key, salts[j])} | 0 <= j < i :: Found(num, table[..], sizes, key, salts[j])
      {
        var h := HashAp(key, salts[i]);
        var x := ComputeIndex(num(h), sizes);
        IndexInTable(num(h), sizes);
        if table[x / 8] & Mask(x % 8) != Mask(x % 8) {
          assert !Found(num, table[..], sizes, key, salts[i]);
          return false;
        }
        assert Found(num, table[..], sizes, key, salts[i]);
        i := i + 1;
      }
      return true;
    }

    /** Folds the table to a smaller size; all keys are still found. */
    method Compress(newSize: nat) returns (ok: bool)
      requires Valid()
      modifies this`table, this`sizes
      ensures Valid() && keys == old(keys)
      ensures ok <==> 0 < newSize < old(table.Length)
      ensures ok ==> fresh(table) && table.Length == newSize && sizes == old(sizes) + [newSize]
      ensures !ok ==> table == old(table) && sizes == old(sizes)
    {
      if newSize == 0 || newSize >= table.Length { return false; }
      var tmp := Fold(table, newSize);
      forall k | k in keys ensures Has(num, tmp[..], sizes + [newSize], salts, k) {
        FoldedHas(num, table[..], tmp[..], sizes, salts, k);
      }
      LastSize(sizes, newSize);
      table, sizes := tmp, sizes + [newSize];
      return true;
    }
  }

  /** The first bytes of the table, with the others added round and round. */
  method Fold(table: array<Byte>, n: nat) returns (tmp: array<Byte>)
    requires 0 < n < table.Length
    ensures fresh(tmp) && tmp.Length == n && Folded(table[..], tmp[..], table.Length)
  {
    tmp := new Byte[n](i requires 0 <= i < n reads table => table[i]);
    ghost var a := table[..];
    assert tmp[..] == a[..n];
    FoldStart(a, n);
    var x, at := n, 0;
    while x < table.Length
      modifies tmp
      invariant n <= x <= table.Length && at == x % n && Folded(a, tmp[..], x)
    {
      ghost var before := tmp[..];
      FoldStep(a, before, x, at);
      NextAt(x, n, at);
      tmp[at] := tmp[at] | table[x];
      assert tmp[..] == before[at := before[at] | a[x]];
      x := x + 1;
      at := if at + 1 == n then 0 else at + 1;
    }
  }

  lemma FoldStart(a: seq<Byte>, n: nat)
    requires 0 < n < |a|
    ensures Folded(a, a[..n], n) && n % n == 0
  {
    DivMod(n, n, 1, 0);
    forall x: nat, m: Byte | x < n && Covers(a[x], m) ensures Covers(a[..n][x % n], m) {
      DivMod(x, n, 0, x);
    }
  }

  lemma NextAt(x: nat, n: nat, at: nat)
    requires n > 0 && at == x % n
    ensures (x + 1) % n == if at + 1 == n then 0 else at + 1
  {
    var k := x / n;
    assert x == k * n + at;
    if at + 1 == n {
      assert x + 1 == (k + 1) * n + 0;
      DivMod(x + 1, n, k + 1, 0);
    } else {
      DivMod(x + 1, n, k, at + 1);
    }
  }

  lemma FoldStep(a: seq<Byte>, t: seq<Byte>, x: nat, at: nat)
    requires Folded(a, t, x) && x < |a| && at == x % |t|
    ensures Folded(a, t[at := t[at] | a[x]], x + 1)
  {
    var t' := t[at := t[at] | a[x]];
    forall y: nat, m: Byte | y < x + 1 && Covers(a[y], m) ensures Covers(t'[y % |t'|], m) {
      if y == x {
        OrKeeps(a[x], t[at], m);
      } else {
        assert Covers(t[y % |t|], m);
        if y % |t| == at { OrKeeps(t[at], a[x], m); }
      }
    }
  }

  function Set(a: seq<Byte>, b: nat): seq<Byte>
    requires b / 8 < |a|
  {
    a[b / 8 := a[b / 8] | Mask(b % 8)]
  }

  lemma SetIn(a: seq<Byte>, b: nat)
    requires b / 8 < |a|
    ensures Grows(a, Set(a, b)) && IsSet(Set(a, b), b)
  {
    OrCovers(a[b / 8], Mask(b % 8));
    OrGrows(a, b / 8, Mask(b % 8));
  }

  lemma GrowsRefl(a: seq<Byte>)
    ensures Grows(a, a)
  {
  }

  lemma GrowsTrans(a: seq<Byte>, b: seq<Byte>, c: seq<Byte>)
    requires Grows(a, b) && Grows(b, c)
    ensures Grows(a, c)
  {
    forall i, m: Byte | 0 <= i < |a| && Covers(a[i], m) ensures Covers(c[i], m) {
      assert Covers(b[i], m);
    }
  }

  lemma GrowsFound(num: Number, a: seq<Byte>, b: seq<Byte>, sizes: seq<nat>, key: Key, salt: Word)
    requires TableOk(a, sizes) && Grows(a, b) && Found(num, a, sizes, key, salt)
    ensures Found(num, b, sizes, key, salt)
  {
  }

  lemma OrGrows(a: seq<Byte>, i: nat, m: Byte)
    requires i < |a|
    ensures Grows(a, a[i := a[i] | m])
  {
    var b := a[i := a[i] | m];
    forall j, k: Byte | 0 <= j < |a| && Covers(a[j], k) ensures Covers(b[j], k) {
      if j == i { OrKeeps(a[i], m, k); }
    }
  }
}
