/**
 * White space in configuration text: trimming, and the normal form of key names.
 */
module ConfText {

  predicate IsSpace(c: char) {
    c == ' ' || c == '\t' || c == '\n' || c == '\r' || c as int == 11 || c as int == 12
  }

  function TrimLeft(s: string): string {
    if s != [] && IsSpace(s[0]) then TrimLeft(s[1..]) else s
  }

  function TrimRight(s: string): string {
    if s != [] && IsSpace(s[|s| - 1]) then TrimRight(s[..|s| - 1]) else s
  }

  /** Of each run of white space only the first character is kept. */
  function Squeeze(s: string, prevWasSpace: bool): string {
    if s == [] then []
    else if IsSpace(s[0]) then (if prevWasSpace then [] else [s[0]]) + Squeeze(s[1..], true)
    else [s[0]] + Squeeze(s[1..], false)
  }

  function Trim(s: string, stripInternal: bool): string {
    var t := TrimRight(TrimLeft(s));
    if stripInternal then Squeeze(t, false) else t
  }

  function Underscored(s: string): (r: string)
    ensures |r| == |s|
  {
    if s == [] then [] else [if s[0] == ' ' then '_' else s[0]] + Underscored(s[1..])
  }

  function Normalize(s: string): string { Underscored(Trim(s, true)) }

  // ---------------------------------------------------------------- normal forms

  predicate Trimmed(s: string) {
    s == [] || (!IsSpace(s[0]) && !IsSpace(s[|s| - 1]))
  }

  /** No two white space characters in a row. */
  predicate Single(s: string) {
    forall i {:trigger s[i]} | 0 <= i < |s| - 1 :: !(IsSpace(s[i]) && IsSpace(s[i + 1]))
  }

  lemma {:induction false} TrimLeftStarts(s: string)
    ensures TrimLeft(s) == [] || !IsSpace(TrimLeft(s)[0])
    ensures TrimLeft(s) != [] ==> |TrimLeft(s)| <= |s| && s[|s| - 1] == TrimLeft(s)[|TrimLeft(s)| - 1]
  {
    if s != [] && IsSpace(s[0]) { TrimLeftStarts(s[1..]); }
  }

  lemma {:induction false} TrimRightEnds(s: string)
    ensures TrimRight(s) == [] || !IsSpace(TrimRight(s)[|TrimRight(s)| - 1])
    ensures TrimRight(s) <= s
  {
    if s != [] && IsSpace(s[|s| - 1]) { TrimRightEnds(s[..|s| - 1]); }
  }

  lemma TrimTrimmed(s: string)
    ensures Trimmed(Trim(s, false))
  {
    TrimLeftStarts(s);
    TrimRightEnds(TrimLeft(s));
  }

  lemma TrimmedStays(s: string)
    requires Trimmed(s)
    ensures Trim(s, false) == s
  {
  }

  lemma {:induction false} SqueezeSingle(s: string, prev: bool)
    ensures Single(Squeeze(s, prev))
    ensures Squeeze(s, prev) != [] && prev ==> !IsSpace(Squeeze(s, prev)[0])
    ensures Squeeze(s, prev) != [] && s != [] && !prev ==> Squeeze(s, prev)[0] == s[0]
    ensures s != [] && !IsSpace(s[|s| - 1]) ==> Squeeze(s, prev) != [] && Squeeze(s, prev)[|Squeeze(s, prev)| - 1] == s[|s| - 1]
  {
    if s != [] {
      var rest := Squeeze(s[1..], IsSpace(s[0]));
      SqueezeSingle(s[1..], IsSpace(s[0]));
      if !(IsSpace(s[0]) && prev) { ConsSingle(s[0], rest); }
    }
  }

  lemma ConsSingle(c: char, s: string)
    requires Single(s) && (IsSpace(c) && s != [] ==> !IsSpace(s[0]))
    ensures Single([c] + s)
  {
    forall i | 0 <= i < |[c] + s| - 1 ensures !(IsSpace(([c] + s)[i]) && IsSpace(([c] + s)[i + 1])) {
      if i > 0 { assert s[i - 1] == ([c] + s)[i]; }
    }
  }

  lemma {:induction false} SqueezeStays(s: string, prev: bool)
    requires Single(s) && (prev && s != [] ==> !IsSpace(s[0]))
    ensures Squeeze(s, prev) == s
  {
    if s != [] {
      assert Single(s[1..]) by {
        forall i | 0 <= i < |s[1..]| - 1 ensures !(IsSpace(s[1..][i]) && IsSpace(s[1..][i + 1])) { assert s[i + 1] == s[1..][i]; }
      }
      assert s[0] == s[0] && (|s| > 1 ==> !(IsSpace(s[0]) && IsSpace(s[0 + 1])));
      SqueezeStays(s[1..], IsSpace(s[0]));
      assert s == [s[0]] + s[1..];
    }
  }

  lemma {:induction false} UnderscoredAt(s: string)
    ensures forall i {:trigger Underscored(s)[i]} | 0 <= i < |s| :: Underscored(s)[i] == if s[i] == ' ' then '_' else s[i]
  {
    if s != [] {
      UnderscoredAt(s[1..]);
      forall i | 0 <= i < |s| ensures Underscored(s)[i] == if s[i] == ' ' then '_' else s[i] {
        if i > 0 { assert Underscored(s)[i] == Underscored(s[1..])[i - 1]; }
      }
    }
  }

  /** The normal form: trimmed, single white space, no blanks. */
  predicate Normal(s: string) {
    Trimmed(s) && Single(s) && ' ' !in s
  }

  lemma NormalizeNormal(s: string)
    ensures Normal(Normalize(s))
  {
    var t, u := Trim(s, false), Trim(s, true);
    TrimTrimmed(s);
    SqueezeSingle(t, false);
    UnderscoredAt(u);
    forall i | 0 <= i < |u| - 1 ensures !(IsSpace(Normalize(s)[i]) && IsSpace(Normalize(s)[i + 1])) {
      assert !(IsSpace(u[i]) && IsSpace(u[i + 1]));
    }
  }

  lemma {:induction false} UnderscoredStays(s: string)
    requires ' ' !in s
    ensures Underscored(s) == s
  {
    if s != [] {
      UnderscoredStays(s[1..]);
      assert s == [s[0]] + s[1..];
    }
  }

  lemma NormalStays(s: string)
    requires Normal(s)
    ensures Normalize(s) == s
  {
    TrimmedStays(s);
    SqueezeStays(s, false);
    UnderscoredStays(s);
  }

  /** Normalizing twice is normalizing once; the normal forms are exactly the names that stay. */
  lemma NormalizeIdempotent(s: string)
    ensures Normalize(Normalize(s)) == Normalize(s)
    ensures Normalize(s) == s <==> Normal(s)
  {
    NormalizeNormal(s);
    NormalStays(Normalize(s));
    if Normal(s) { NormalStays(s); }
  }

  /** A blank after a name does not matter. */
  lemma TrailingBlank(s: string, c: char)
    requires IsSpace(c) && Trimmed(s)
    ensures Trim(s + [c], true) == Trim(s, true)
  {
    if s == [] {
      assert s + [c] == [c] && [c][1..] == [];
    } else {
      assert (s + [c])[..|s|] == s;
    }
  }

  // ---------------------------------------------------------------- lengths

  lemma {:induction false} TrimLeftShorter(s: string)
    ensures |TrimLeft(s)| <= |s|
  {
    if s != [] && IsSpace(s[0]) { TrimLeftShorter(s[1..]); }
  }

  lemma {:induction false} SqueezeShorter(s: string, prev: bool)
    ensures |Squeeze(s, prev)| <= |s|
  {
    if s != [] { SqueezeShorter(s[1..], IsSpace(s[0])); }
  }

  /** Trimming never makes a text longer, and makes one that ends with white space shorter. */
  lemma TrimShorter(s: string, stripInternal: bool)
    ensures |Trim(s, stripInternal)| <= |s|
    ensures s != [] && IsSpace(s[|s| - 1]) ==> |Trim(s, stripInternal)| < |s|
  {
    TrimLeftShorter(s);
    TrimLeftStarts(s);
    TrimRightEnds(TrimLeft(s));
    SqueezeShorter(Trim(s, false), false);
  }

  // ---------------------------------------------------------------- as it is computed

  method TrimWhitespace(str: string, stripInternal: bool) returns (out: string)
    ensures out == Trim(str, stripInternal)
  {
    var i := 0;
    while i < |str| && IsSpace(str[i])
      invariant 0 <= i <= |str| && TrimLeft(str) == TrimLeft(str[i..])
    {
      assert str[i..][1..] == str[i + 1..];
      i := i + 1;
    }
    var output := str[i..];
    var o := |output|;
    assert output[..o] == output;
    while o > 0 && IsSpace(output[o - 1])
      invariant 0 <= o <= |output| && TrimRight(output) == TrimRight(output[..o])
    {
      assert output[..o][..o - 1] == output[..o - 1];
      o := o - 1;
    }
    output := output[..o];
    if !stripInternal { return output; }
    out := SqueezeAll(output);
  }

  method SqueezeAll(s: string) returns (out: string)
    ensures out == Squeeze(s, false)
  {
    out := [];
    var prevWasSpace := false;
    var u := 0;
    assert s[0..] == s;
    ghost var goal := Squeeze(s, false);
    while u < |s|
      invariant 0 <= u <= |s| && out + Squeeze(s[u..], prevWasSpace) == goal
    {
      var c := s[u];
      SqueezeNext(s, u, prevWasSpace);
      var keep := !(IsSpace(c) && prevWasSpace);
      if keep {
        Regroup(out, [c], Squeeze(s[u + 1..], IsSpace(c)));
        out := out + [c];
      }
      prevWasSpace := IsSpace(c);
      u := u + 1;
    }
    assert Squeeze(s[u..], prevWasSpace) == [];
  }

  lemma SqueezeNext(s: string, u: nat, prev: bool)
    requires u < |s|
    ensures IsSpace(s[u]) && prev ==> Squeeze(s[u..], prev) == Squeeze(s[u + 1..], true)
    ensures !(IsSpace(s[u]) && prev) ==> Squeeze(s[u..], prev) == [s[u]] + Squeeze(s[u + 1..], IsSpace(s[u]))
  {
    assert s[u..][1..] == s[u + 1..];
  }

  lemma Regroup(a: string, b: string, c: string)
    ensures a + (b + c) == (a + b) + c
  {
  }
}
