/**
 * Least and greatest elements of finite sets of numbers, such as the keys of an ordered map.
 */
module NatSets {

  ghost predicate IsLeast(m: nat, s: set<nat>) { m in s && forall k | k in s :: m <= k }

  lemma LeastExists(s: set<nat>)
    requires s != {}
    ensures exists m :: IsLeast(m, s)
  {
    var x :| x in s;
    if s == {x} { assert IsLeast(x, s); }
    else {
      LeastExists(s - {x});
      var m :| IsLeast(m, s - {x});
      var best := if x < m then x else m;
      assert s == (s - {x}) + {x};
      assert IsLeast(best, s);
    }
  }

  ghost function Least(s: set<nat>): (m: nat)
    requires s != {}
    ensures IsLeast(m, s)
  {
    LeastExists(s);
    var m :| IsLeast(m, s); m
  }

  ghost function Max(s: set<nat>): (m: nat)
    requires s != {}
    ensures m in s && forall x | x in s :: x <= m
  {
    var x :| x in s;
    var rest := s - {x};
    assert forall y | y in s :: y == x || y in rest;
    if rest == {} then x
    else
      var m := Max(rest);
      if x > m then x else m
  }

  method LeastKey(s: set<nat>) returns (p: nat)
    requires s != {}
    ensures p in s && forall x | x in s :: p <= x
  {
    p :| p in s;
    var rest := s - {p};
    while rest != {}
      invariant rest <= s && p in s && forall x | x in s && x !in rest :: p <= x
    {
      var x :| x in rest;
      if x < p { p := x; }
      rest := rest - {x};
    }
  }

  method GreatestKey(s: set<nat>) returns (p: nat)
    requires s != {}
    ensures p in s && forall x | x in s :: x <= p
  {
    p :| p in s;
    var rest := s - {p};
    while rest != {}
      invariant rest <= s && p in s && forall x | x in s && x !in rest :: x <= p
    {
      var x :| x in rest;
      if x > p { p := x; }
      rest := rest - {x};
    }
  }
}
