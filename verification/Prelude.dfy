/** Small vocabulary shared by the component models: optional values, duplicate-free
    sequences, ascending sequences, cardinality facts and machine-integer bounds. */
module Prelude {

  datatype Option<+T> = None | Some(value: T) {
    function GetOr(default: T): (r: T) {
      if Some? then value else default
    }
  }

  const U32_LIMIT: int := 0x1_0000_0000
  const U64_LIMIT: int := 0x1_0000_0000_0000_0000

  function SaturatingSub(a: nat, b: nat): (r: nat) {
    if a < b then 0 else a - b
  }

  function Max(a: nat, b: nat): (r: nat) {
    if a < b then b else a
  }

  function Min(a: nat, b: nat): (r: nat) {
    if a < b then a else b
  }

  function Pow2(k: nat): (r: nat)
    ensures r > 0
  {
    if k == 0 then 1 else 2 * Pow2(k - 1)
  }

  lemma Scale(n: nat, d: int)
    ensures d >= 1 ==> n * d >= n
    ensures d <= -1 ==> n * d <= 0 - n
  {
  }

  /** A remainder below the modulus is the modulus's remainder. */
  lemma ModUnique(x: int, n: nat, q: int, r: nat)
    requires r < n && x == n * q + r
    ensures x % n == r && x / n == q
  {
    var d := q - x / n;
    assert n * d == n * q - n * (x / n);
    assert x == n * (x / n) + x % n;
    Scale(n, d);
  }

  function Elems<T>(s: seq<T>): (r: set<T>) {
    set x | x in s
  }

  lemma ConcatAssociates<T>(a: seq<T>, b: seq<T>, c: seq<T>)
    ensures (a + b) + c == a + (b + c)
  {
  }

  ghost predicate Distinct<T>(s: seq<T>) {
    forall i, j :: 0 <= i < j < |s| ==> s[i] != s[j]
  }

  ghost predicate Ascending(s: seq<nat>) {
    forall i, j :: 0 <= i < j < |s| ==> s[i] < s[j]
  }

  /** A sequence never has fewer positions than elements, and has exactly as many when it
      repeats nothing. */
  lemma {:induction false} ElemsCardinality<T>(s: seq<T>)
    ensures |Elems(s)| <= |s|
    ensures |Elems(s)| == |s| <==> Distinct(s)
  {
    if s == [] {
      assert Elems(s) == {};
    } else {
      var init, last := s[..|s| - 1], s[|s| - 1];
      ElemsCardinality(init);
      assert s == init + [last];
      if last in init {
        assert Elems(s) == Elems(init);
        var i :| 0 <= i < |init| && init[i] == last;
        assert s[i] == s[|s| - 1];
      } else {
        assert Elems(s) == Elems(init) + {last};
        assert Distinct(init) ==> Distinct(s);
        assert Distinct(s) ==> Distinct(init) by {
          assert forall i :: 0 <= i < |init| ==> init[i] == s[i];
        }
      }
    }
  }

  lemma SubsetCardinality<T>(a: set<T>, b: set<T>)
    requires a <= b
    ensures |a| <= |b|
    ensures |a| == |b| ==> a == b
  {
    assert b == a + (b - a);
  }

  /** The overlap of two sets inside a common set is at least the excess of their sizes. */
  lemma OverlapCardinality<T>(a: set<T>, b: set<T>, whole: set<T>)
    requires a <= whole && b <= whole
    ensures |a * b| >= |a| + |b| - |whole|
  {
    assert |a + b| == |a| + |b| - |a * b|;
    SubsetCardinality(a + b, whole);
  }

  lemma AscendingAppend(s: seq<nat>, x: nat)
    ensures Ascending(s + [x]) <==> Ascending(s) && forall y :: y in s ==> y < x
  {
    var t := s + [x];
    assert t[|s|] == x && forall i :: 0 <= i < |s| ==> t[i] == s[i];
    if Ascending(t) {
      forall y | y in s ensures y < x {
        var i :| 0 <= i < |s| && s[i] == y;
        assert t[i] < t[|s|];
      }
    }
    if Ascending(s) && forall y :: y in s ==> y < x {
      forall i, j | 0 <= i < j < |t| ensures t[i] < t[j] {
        assert s[i] in s;
      }
    }
  }

  lemma AscendingLast(s: seq<nat>)
    requires Ascending(s) && s != []
    ensures var last := s[|s| - 1];
            && last in Elems(s) && (forall x :: x in Elems(s) ==> x <= last)
            && Ascending(s[..|s| - 1]) && Elems(s[..|s| - 1]) == Elems(s) - {last}
  {
    var init, last := s[..|s| - 1], s[|s| - 1];
    assert s == init + [last];
    assert last !in init;
  }

  /** An ascending sequence is determined by its elements. */
  lemma {:induction false} AscendingUnique(a: seq<nat>, b: seq<nat>)
    requires Ascending(a) && Ascending(b) && Elems(a) == Elems(b)
    ensures a == b
    decreases |a|
  {
    assert |a| > 0 ==> a[0] in Elems(a);
    assert |b| > 0 ==> b[0] in Elems(b);
    if a != [] {
      AscendingLast(a);
      AscendingLast(b);
      AscendingUnique(a[..|a| - 1], b[..|b| - 1]);
      assert a == a[..|a| - 1] + [a[|a| - 1]] && b == b[..|b| - 1] + [b[|b| - 1]];
    }
  }

  /** Keys in the order an ordered map yields them. */
  method InOrder(keys: set<nat>) returns (s: seq<nat>)
    ensures Ascending(s) && Elems(s) == keys
  {
    s := [];
    var rest := keys;
    while rest != {}
      invariant Ascending(s) && rest !! Elems(s) && rest + Elems(s) == keys
      invariant forall x, y :: x in s && y in rest ==> x < y
      decreases rest
    {
      var m := Smallest(rest);
      assert Elems(s + [m]) == Elems(s) + {m};
      AscendingAppend(s, m);
      s := s + [m];
      rest := rest - {m};
    }
  }

  method Smallest(keys: set<nat>) returns (m: nat)
    requires keys != {}
    ensures m in keys && forall x :: x in keys ==> m <= x
  {
    m :| m in keys;
    var rest := keys - {m};
    while rest != {}
      invariant rest <= keys && m in keys && forall x :: x in keys && x !in rest ==> m <= x
      decreases rest
    {
      var x :| x in rest;
      if x < m {
        m := x;
      }
      rest := rest - {x};
    }
  }
}
