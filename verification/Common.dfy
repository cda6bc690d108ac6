/** Small vocabulary shared by the other modules. */
module Common {

  type Params = map<string, string>

  datatype Option<+T> = None | Some(value: T) {
    function GetOr(default: T): T {
      if Some? then value else default
    }
  }

  /** The elements of `s` that satisfy `p`, in order. */
  function Filter<T>(s: seq<T>, p: T -> bool): (r: seq<T>)
    ensures |r| <= |s|
  {
    if s == [] then []
    else
      var rest := Filter(s[..|s| - 1], p);
      if p(s[|s| - 1]) then rest + [s[|s| - 1]] else rest
  }

  /** `f` applied to every element of `s`, in order. */
  function Map<T, U>(s: seq<T>, f: T -> U): (r: seq<U>)
    ensures |r| == |s| && forall i :: 0 <= i < |s| ==> r[i] == f(s[i])
  {
    seq(|s|, i requires 0 <= i < |s| => f(s[i]))
  }

  /** Python's `int(x)`: truncation toward zero. */
  function Truncate(x: real): (k: int)
    ensures x >= 0.0 ==> k as real <= x < k as real + 1.0
    ensures x <= 0.0 ==> k as real - 1.0 < x <= k as real
  {
    if x >= 0.0 then x.Floor else -((-x).Floor)
  }

  lemma {:induction false} FilterMembers<T>(s: seq<T>, p: T -> bool)
    ensures forall x :: x in Filter(s, p) <==> x in s && p(x)
  {
    if s != [] {
      FilterMembers(s[..|s| - 1], p);
      assert s == s[..|s| - 1] + [s[|s| - 1]];
    }
  }

  /** Where the elements that satisfy `p` stand. */
  function Positions<T>(s: seq<T>, p: T -> bool): set<int> {
    set i | 0 <= i < |s| && p(s[i])
  }

  /** As many elements are kept as there are positions at which they stand. */
  lemma {:induction false} FilterCountsPositions<T>(s: seq<T>, p: T -> bool)
    ensures |Filter(s, p)| == |Positions(s, p)|
  {
    if s == [] {
      assert Positions(s, p) == {};
    } else {
      var front, last := s[..|s| - 1], |s| - 1;
      FilterCountsPositions(front, p);
      assert Positions(s, p) == Positions(front, p) + if p(s[last]) then {last} else {};
    }
  }

  lemma FilterSnoc<T>(s: seq<T>, x: T, p: T -> bool)
    ensures Filter(s + [x], p) == Filter(s, p) + (if p(x) then [x] else [])
  {
    assert (s + [x])[..|s + [x]| - 1] == s;
  }

  lemma {:induction false} FilterConcat<T>(s: seq<T>, t: seq<T>, p: T -> bool)
    ensures Filter(s + t, p) == Filter(s, p) + Filter(t, p)
  {
    if t == [] {
      assert s + t == s;
    } else {
      var front, x := t[..|t| - 1], t[|t| - 1];
      assert s + t == (s + front) + [x] && t == front + [x];
      FilterConcat(s, front, p);
      FilterSnoc(s + front, x, p);
      FilterSnoc(front, x, p);
    }
  }

  lemma {:induction false} FilterOfMap<T, U>(s: seq<T>, f: T -> U, p: U -> bool, q: T -> bool)
    requires forall x :: x in s ==> (p(f(x)) <==> q(x))
    ensures |Filter(Map(s, f), p)| == |Filter(s, q)|
  {
    if s != [] {
      var front, x := s[..|s| - 1], s[|s| - 1];
      assert x in s;
      FilterOfMap(front, f, p, q);
      assert Map(s, f) == Map(front, f) + [f(x)];
      FilterSnoc(Map(front, f), f(x), p);
    }
  }

  lemma FilterOfPrefix<T>(s: seq<T>, i: nat, p: T -> bool)
    requires i <= |s|
    ensures |Filter(s[..i], p)| <= |Filter(s, p)|
  {
    assert s == s[..i] + s[i..];
    FilterConcat(s[..i], s[i..], p);
  }

  /** A narrower test keeps no more elements. */
  lemma {:induction false} FilterMonotone<T>(s: seq<T>, p: T -> bool, q: T -> bool)
    requires forall x :: x in s && p(x) ==> q(x)
    ensures |Filter(s, p)| <= |Filter(s, q)|
  {
    if s != [] {
      FilterMonotone(s[..|s| - 1], p, q);
      assert s[|s| - 1] in s;
    }
  }

  lemma {:induction false} FilterNone<T>(s: seq<T>, p: T -> bool)
    requires forall x :: x in s ==> !p(x)
    ensures Filter(s, p) == []
  {
    if s != [] {
      assert s[|s| - 1] in s;
      FilterNone(s[..|s| - 1], p);
    }
  }

  lemma {:induction false} FilterAll<T>(s: seq<T>, p: T -> bool)
    requires forall x :: x in s ==> p(x)
    ensures Filter(s, p) == s
  {
    if s != [] {
      assert s[|s| - 1] in s;
      FilterAll(s[..|s| - 1], p);
      assert s == s[..|s| - 1] + [s[|s| - 1]];
    }
  }

  function Without<T>(s: seq<T>, j: nat): seq<T>
    requires j < |s|
  {
    s[..j] + s[j + 1..]
  }

  lemma FilterWithout<T>(s: seq<T>, j: nat, p: T -> bool)
    requires j < |s|
    ensures |Filter(s, p)| == |Filter(Without(s, j), p)| + if p(s[j]) then 1 else 0
  {
    var before, after := s[..j], s[j + 1..];
    assert s == before + [s[j]] + after;
    FilterConcat(before + [s[j]], after, p);
    FilterSnoc(before, s[j], p);
    FilterConcat(before, after, p);
  }

  lemma MultisetWithout<T>(s: seq<T>, j: nat)
    requires j < |s|
    ensures multiset(s) == multiset(Without(s, j)) + multiset{s[j]}
  {
    assert s == s[..j] + [s[j]] + s[j + 1..];
  }

  lemma CancelElement<T>(a: multiset<T>, b: multiset<T>, x: T)
    requires a + multiset{x} == b + multiset{x}
    ensures a == b
  {
    forall z
      ensures a[z] == b[z]
    {
      assert (a + multiset{x})[z] == (b + multiset{x})[z];
    }
  }

  /** How many elements pass a test does not depend on their order. */
  lemma {:induction false} FilterIgnoresOrder<T>(s: seq<T>, t: seq<T>, p: T -> bool)
    requires multiset(s) == multiset(t)
    ensures |Filter(s, p)| == |Filter(t, p)|
    decreases |s|
  {
    if s == [] {
      assert |t| == |multiset(t)|;
    } else {
      var last := |s| - 1;
      assert s[last] in multiset(t);
      var j :| 0 <= j < |t| && t[j] == s[last];
      MultisetWithout(s, last);
      MultisetWithout(t, j);
      CancelElement(multiset(Without(s, last)), multiset(Without(t, j)), s[last]);
      FilterIgnoresOrder(Without(s, last), Without(t, j), p);
      FilterWithout(s, last, p);
      FilterWithout(t, j, p);
    }
  }

  function Min(s: seq<real>): real
    requires s != []
  {
    if |s| == 1 then s[0]
    else
      var m := Min(s[..|s| - 1]);
      if s[|s| - 1] < m then s[|s| - 1] else m
  }

  lemma {:induction false} MinIsLeast(s: seq<real>)
    requires s != []
    ensures Min(s) in s && forall x :: x in s ==> Min(s) <= x
  {
    if |s| > 1 {
      MinIsLeast(s[..|s| - 1]);
      assert s == s[..|s| - 1] + [s[|s| - 1]];
    }
  }
}
