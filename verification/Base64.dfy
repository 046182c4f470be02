/**
 * Base64 as in section 4 of RFC 4648, with optional line breaks, written into a buffer of fixed
 * size.
 */
module Base64 {

  type Byte = n: nat | n < 256

  const EINVAL: int := -22
  const ERANGE: int := -34

  /** The alphabet: A to Z, a to z, 0 to 9, + and /. */
  function EncodeBits(i: nat): char
    requires i < 64
  {
    if i < 26 then ('A' as int + i) as char
    else if i < 52 then ('a' as int + (i - 26)) as char
    else if i < 62 then ('0' as int + (i - 52)) as char
    else if i == 62 then '+'
    else '/'
  }

  function DecodeBits(c: char): (r: int)
    ensures r == EINVAL || 0 <= r < 64
  {
    if 'A' <= c <= 'Z' then c as int - 'A' as int
    else if 'a' <= c <= 'z' then c as int - 'a' as int + 26
    else if '0' <= c <= '9' then c as int - '0' as int + 52
    else if c == '+' || c == '-' then 62
    else if c == '/' || c == '_' then 63
    else if c == '=' then 0
    else EINVAL
  }

  lemma BitsReadBack(i: nat)
    requires i < 64
    ensures DecodeBits(EncodeBits(i)) == i && EncodeBits(i) != '=' && EncodeBits(i) != '\n'
  {
  }

  // ---------------------------------------------------------------- encoding

  function Quad3(a: Byte, b: Byte, c: Byte): string {
    [EncodeBits(a / 4), EncodeBits(a % 4 * 16 + b / 16), EncodeBits(b % 16 * 4 + c / 64), EncodeBits(c % 64)]
  }

  function Quad2(a: Byte, b: Byte): string {
    [EncodeBits(a / 4), EncodeBits(a % 4 * 16 + b / 16), EncodeBits(b % 16 * 4), '=']
  }

  function Quad1(a: Byte): string {
    [EncodeBits(a / 4), EncodeBits(a % 4 * 16), '=', '=']
  }

  /** The four characters for the next one to three bytes. */
  function Quad(src: seq<Byte>): (q: string)
    requires src != []
    ensures |q| == 4
  {
    if |src| == 1 then Quad1(src[0]) else if |src| == 2 then Quad2(src[0], src[1]) else Quad3(src[0], src[1], src[2])
  }

  function Rest(src: seq<Byte>): seq<Byte> { if |src| <= 3 then [] else src[3..] }

  function Break(line: nat, width: int): string { if width != 0 && line == width then "\n" else "" }

  /** The encoding, with a newline whenever a line has reached its width exactly; `line` is how long
      the current line already is. */
  function Encode(src: seq<Byte>, line: nat, width: int): string
    decreases |src|
  {
    if src == [] then ""
    else
      var b := Break(line + 4, width);
      Quad(src) + b + Encode(Rest(src), if b == "" then line + 4 else 0, width)
  }

  // ---------------------------------------------------------------- decoding

  datatype Decoded = Good(bytes: seq<Byte>) | Bad

  /** The decoding: newlines between groups are skipped, and padding ends the text. */
  function Decode(s: string): Decoded
    decreases |s|
  {
    if s == "" then Good([])
    else if s[0] == '\n' then Decode(s[1..])
    else if |s| < 4 then Bad
    else
      var a, b, c, d := DecodeBits(s[0]), DecodeBits(s[1]), DecodeBits(s[2]), DecodeBits(s[3]);
      if a < 0 || b < 0 || c < 0 || d < 0 then Bad
      else if s[2] == '=' then Good([a * 4 + b / 16])
      else if s[3] == '=' then Good([a * 4 + b / 16, b % 16 * 16 + c / 4])
      else
        match Decode(s[4..])
        case Bad => Bad
        case Good(rest) => Good([a * 4 + b / 16, b % 16 * 16 + c / 4, c % 4 * 64 + d] + rest)
  }

  /** How many bytes are decoded up to the end or to the first group that is bad. */
  function Produced(s: string): nat
    decreases |s|
  {
    if s == "" then 0
    else if s[0] == '\n' then Produced(s[1..])
    else if |s| < 4 || DecodeBits(s[0]) < 0 || DecodeBits(s[1]) < 0 || DecodeBits(s[2]) < 0 || DecodeBits(s[3]) < 0 then 0
    else if s[2] == '=' then 1
    else if s[3] == '=' then 2
    else 3 + Produced(s[4..])
  }

  lemma {:induction false} ProducedAll(s: string)
    requires Decode(s).Good?
    ensures Produced(s) == |Decode(s).bytes|
    decreases |s|
  {
    if s == "" {
    } else if s[0] == '\n' {
      ProducedAll(s[1..]);
    } else if s[2] != '=' && s[3] != '=' {
      ProducedAll(s[4..]);
    }
  }

  lemma Triple(a: Byte, b: Byte, c: Byte)
    ensures var x, y, z, w := a / 4, a % 4 * 16 + b / 16, b % 16 * 4 + c / 64, c % 64;
            x * 4 + y / 16 == a && y % 16 * 16 + z / 4 == b && z % 4 * 64 + w == c
  {
  }

  lemma Decode3(a: Byte, b: Byte, c: Byte, more: string)
    ensures Decode(Quad3(a, b, c) + more) ==
            match Decode(more) case Bad => Bad case Good(rest) => Good([a, b, c] + rest)
  {
    var s := Quad3(a, b, c) + more;
    assert s[0] == Quad3(a, b, c)[0] && s[1] == Quad3(a, b, c)[1] && s[2] == Quad3(a, b, c)[2] && s[3] == Quad3(a, b, c)[3];
    assert s[4..] == more;
    BitsReadBack(a / 4);
    BitsReadBack(a % 4 * 16 + b / 16);
    BitsReadBack(b % 16 * 4 + c / 64);
    BitsReadBack(c % 64);
    Triple(a, b, c);
  }

  lemma Decode2(a: Byte, b: Byte, more: string)
    ensures Decode(Quad2(a, b) + more) == Good([a, b])
  {
    var s := Quad2(a, b) + more;
    assert s[0] == Quad2(a, b)[0] && s[1] == Quad2(a, b)[1] && s[2] == Quad2(a, b)[2] && s[3] == '=';
    BitsReadBack(a / 4);
    BitsReadBack(a % 4 * 16 + b / 16);
    BitsReadBack(b % 16 * 4);
    Triple(a, b, 0);
  }

  lemma Decode1(a: Byte, more: string)
    ensures Decode(Quad1(a) + more) == Good([a])
  {
    var s := Quad1(a) + more;
    assert s[0] == Quad1(a)[0] && s[1] == Quad1(a)[1] && s[2] == '=' && s[3] == '=';
    BitsReadBack(a / 4);
    BitsReadBack(a % 4 * 16);
    Triple(a, 0, 0);
  }

  /** Decoding an encoding gives back the bytes, whatever the width of its lines. */
  lemma {:induction false} RoundTrip(src: seq<Byte>, line: nat, width: int)
    ensures Decode(Encode(src, line, width)) == Good(src)
    decreases |src|
  {
    if src != [] {
      var b := Break(line + 4, width);
      var line' := if b == "" then line + 4 else 0;
      var rest := Encode(Rest(src), line', width);
      Regroup(Quad(src), b, rest);
      if |src| == 1 {
        Decode1(src[0], b + rest);
        assert src == [src[0]];
      } else if |src| == 2 {
        Decode2(src[0], src[1], b + rest);
        assert src == [src[0], src[1]];
      } else {
        Decode3(src[0], src[1], src[2], b + rest);
        RoundTrip(Rest(src), line', width);
        SkipBreak(b, rest);
        ThreeAndRest(src);
      }
    }
  }

  lemma Regroup(a: string, b: string, c: string)
    ensures a + b + c == a + (b + c)
  {
  }

  lemma SkipBreak(b: string, rest: string)
    requires b == "" || b == "\n"
    ensures Decode(b + rest) == Decode(rest)
  {
    if b == "" { assert b + rest == rest; } else { assert (b + rest)[0] == '\n' && (b + rest)[1..] == rest; }
  }

  lemma ThreeAndRest(src: seq<Byte>)
    requires |src| >= 3
    ensures [src[0], src[1], src[2]] + Rest(src) == src
  {
  }

  // ---------------------------------------------------------------- sizes

  lemma {:induction false} EncodedLength(src: seq<Byte>, line: nat)
    ensures |Encode(src, line, 0)| == (|src| + 2) / 3 * 4
    decreases |src|
  {
    if src != [] {
      var rest := Encode(Rest(src), line + 4, 0);
      EncodedLength(Rest(src), line + 4);
      assert |Encode(src, line, 0)| == 4 + |rest|;
      OneQuad(|src|, |Rest(src)|);
    }
  }

  lemma OneQuad(n: nat, m: nat)
    requires n > 0 && m == if n <= 3 then 0 else n - 3
    ensures 4 + (m + 2) / 3 * 4 == (n + 2) / 3 * 4
  {
  }

  /** The buffer that encode_base64 allocates is large enough. */
  lemma EncodeFits(src: seq<Byte>)
    ensures |Encode(src, 0, 0)| <= |src| * 4 / 3 + 3
  {
    EncodedLength(src, 0);
  }

  lemma {:induction false} DecodedLength(s: string)
    requires Decode(s).Good?
    ensures |Decode(s).bytes| <= |s| * 3 / 4
    decreases |s|
  {
    if s == "" {
    } else if s[0] == '\n' {
      DecodedLength(s[1..]);
    } else if s[2] != '=' && s[3] != '=' {
      DecodedLength(s[4..]);
    }
  }

  /** The buffer that decode_base64 allocates is large enough. */
  lemma DecodeFits(s: string)
    requires Decode(s).Good?
    ensures |Decode(s).bytes| <= 4 + |s| * 3 / 4
  {
    DecodedLength(s);
  }

  // ---------------------------------------------------------------- as it is computed

  /** Writes text at a position, character by character, unless the buffer ends before. */
  method Write(dst: array<char>, at: nat, text: string) returns (ok: bool)
    requires at <= dst.Length
    modifies dst
    ensures ok <==> at + |text| <= dst.Length
    ensures ok ==> dst[..at + |text|] == old(dst[..at]) + text
  {
    var i := 0;
    while i < |text|
      invariant 0 <= i <= |text| && at + i <= dst.Length && dst[..at + i] == old(dst[..at]) + text[..i]
    {
      if at + i >= dst.Length { return false; }
      dst[at + i] := text[i];
      assert text[..i + 1] == text[..i] + [text[i]];
      i := i + 1;
    }
    assert text[..i] == text;
    return true;
  }

  method Armor(dst: array<char>, src: seq<Byte>, width: int) returns (ret: int)
    modifies dst
    ensures ret == if |Encode(src, 0, width)| <= dst.Length then |Encode(src, 0, width)| else ERANGE
    ensures ret >= 0 ==> ret <= dst.Length && dst[..ret] == Encode(src, 0, width)
  {
    var olen: nat, line: nat, left := 0, 0, src;
    ghost var goal, done := Encode(src, 0, width), "";
    while left != []
      invariant olen <= dst.Length && dst[..olen] == done && done + Encode(left, line, width) == goal
      decreases |left|
    {
      var lineBreak := Break(line + 4, width);
      ArmorStep(done, left, line, width);
      var ok := Write(dst, olen, Quad(left) + lineBreak);
      if !ok { return ERANGE; }
      done := done + (Quad(left) + lineBreak);
      olen := olen + 4 + |lineBreak|;
      line := if lineBreak == "" then line + 4 else 0;
      left := Rest(left);
    }
    assert done + "" == done;
    return olen;
  }

  lemma ArmorStep(done: string, left: seq<Byte>, line: nat, width: int)
    requires left != []
    ensures var b := Break(line + 4, width);
            && done + Encode(left, line, width) == (done + (Quad(left) + b)) + Encode(Rest(left), if b == "" then line + 4 else 0, width)
            && |done| + |Quad(left) + b| <= |done + Encode(left, line, width)|
  {
  }

  /** Writes a byte, unless the buffer is full. */
  method WriteByte(dst: array<Byte>, at: nat, b: Byte) returns (ok: bool)
    requires at <= dst.Length
    modifies dst
    ensures ok <==> at < dst.Length
    ensures dst[..at] == old(dst[..at])
    ensures ok ==> dst[..at + 1] == old(dst[..at]) + [b]
  {
    if at == dst.Length { return false; }
    dst[at] := b;
    return true;
  }

  /** How many bytes a group stands for, told from its last two characters. */
  function Bytes(s2: char, s3: char): nat { if s2 == '=' then 1 else if s3 == '=' then 2 else 3 }

  /** Writes the bytes of a group. */
  method WriteGroup(dst: array<Byte>, at: nat, a: nat, b: nat, c: nat, d: nat, s2: char, s3: char) returns (ok: bool)
    requires at <= dst.Length && a < 64 && b < 64 && c < 64 && d < 64
    modifies dst
    ensures ok <==> at + Bytes(s2, s3) <= dst.Length
    ensures ok ==> dst[..at + Bytes(s2, s3)] ==
                   old(dst[..at]) + [a * 4 + b / 16, b % 16 * 16 + c / 4, c % 4 * 64 + d][..Bytes(s2, s3)]
  {
    ok := WriteByte(dst, at, a * 4 + b / 16);
    if !ok || s2 == '=' { return; }
    ok := WriteByte(dst, at + 1, b % 16 * 16 + c / 4);
    if !ok || s3 == '=' { return; }
    ok := WriteByte(dst, at + 2, c % 4 * 64 + d);
  }

  /** What the bytes written so far and the rest of the text decode to. */
  function After(done: seq<Byte>, s: string): Decoded {
    match Decode(s) case Bad => Bad case Good(rest) => Good(done + rest)
  }

  method Unarmor(dst: array<Byte>, src: string) returns (ret: int)
    modifies dst
    ensures Decode(src).Good? && |Decode(src).bytes| <= dst.Length ==>
              ret == |Decode(src).bytes| && dst[..ret] == Decode(src).bytes
    ensures Decode(src).Good? && |Decode(src).bytes| > dst.Length ==> ret == ERANGE
    ensures Decode(src).Bad? ==> ret == if Produced(src) > dst.Length then ERANGE else EINVAL
    ensures dst.Length * 4 >= |src| * 3 ==> ret != ERANGE
  {
    var olen, i := 0, 0;
    assert src[0..] == src && dst[..0] + [] == [];
    while i < |src|
      invariant 0 <= i <= |src| && 0 <= olen <= dst.Length && olen * 4 <= i * 3
      invariant After(dst[..olen], src[i..]) == Decode(src) && olen + Produced(src[i..]) == Produced(src)
    {
      NextChar(src, i);
      ProducedNext(src, i);
      if src[i] == '\n' {
        i := i + 1;
        continue;
      }
      if i + 4 > |src| { return EINVAL; }
      var a, b, c, d := DecodeBits(src[i]), DecodeBits(src[i + 1]), DecodeBits(src[i + 2]), DecodeBits(src[i + 3]);
      if a < 0 || b < 0 || c < 0 || d < 0 { return EINVAL; }
      GroupBytes(dst[..olen], src, i, a, b, c, d);
      var ok := WriteGroup(dst, olen, a, b, c, d, src[i + 2], src[i + 3]);
      if !ok { return ERANGE; }
      if src[i + 2] == '=' { return olen + 1; }
      if src[i + 3] == '=' { return olen + 2; }
      olen, i := olen + 3, i + 4;
    }
    assert dst[..olen] + [] == dst[..olen];
    return olen;
  }

  lemma ProducedNext(src: string, i: nat)
    requires i < |src|
    ensures src[i] == '\n' ==> Produced(src[i..]) == Produced(src[i + 1..])
    ensures src[i] != '\n' && i + 4 > |src| ==> Produced(src[i..]) == 0
    ensures src[i] != '\n' && i + 4 <= |src| ==>
              Produced(src[i..]) ==
              (if DecodeBits(src[i]) < 0 || DecodeBits(src[i + 1]) < 0 || DecodeBits(src[i + 2]) < 0 || DecodeBits(src[i + 3]) < 0 then 0
               else if src[i + 2] == '=' then 1 else if src[i + 3] == '=' then 2 else 3 + Produced(src[i + 4..]))
  {
    var s := src[i..];
    if i + 4 <= |src| {
      assert s[0] == src[i] && s[1] == src[i + 1] && s[2] == src[i + 2] && s[3] == src[i + 3] && s[4..] == src[i + 4..];
    }
    assert s[1..] == src[i + 1..];
  }

  lemma NextChar(src: string, i: nat)
    requires i < |src|
    ensures src[i..][0] == src[i] && src[i..][1..] == src[i + 1..]
    ensures src[i] == '\n' ==> Decode(src[i..]) == Decode(src[i + 1..])
    ensures src[i] != '\n' && i + 4 > |src| ==> Decode(src[i..]) == Bad
  {
  }

  /** One group of four characters. */
  lemma GroupBytes(done: seq<Byte>, src: string, i: nat, a: int, b: int, c: int, d: int)
    requires i + 4 <= |src| && src[i] != '\n'
    requires a == DecodeBits(src[i]) && b == DecodeBits(src[i + 1]) && c == DecodeBits(src[i + 2]) && d == DecodeBits(src[i + 3])
    requires a >= 0 && b >= 0 && c >= 0 && d >= 0
    ensures var x, y, z := a * 4 + b / 16, b % 16 * 16 + c / 4, c % 4 * 64 + d;
            After(done, src[i..]) ==
            if src[i + 2] == '=' then Good(done + [x, y, z][..1])
            else if src[i + 3] == '=' then Good(done + [x, y, z][..2])
            else After(done + [x, y, z][..3], src[i + 4..])
  {
    var s := src[i..];
    assert s[0] == src[i] && s[1] == src[i + 1] && s[2] == src[i + 2] && s[3] == src[i + 3] && s[4..] == src[i + 4..];
    var g := [a * 4 + b / 16, b % 16 * 16 + c / 4, c % 4 * 64 + d];
    assert g[..1] == [g[0]] && g[..2] == [g[0], g[1]] && g[..3] == g;
    if Decode(src[i + 4..]).Good? {
      Joined(done, [a * 4 + b / 16, b % 16 * 16 + c / 4, c % 4 * 64 + d], Decode(src[i + 4..]).bytes);
    }
  }

  lemma Joined(a: seq<Byte>, b: seq<Byte>, c: seq<Byte>)
    ensures a + (b + c) == (a + b) + c
  {
  }
}
