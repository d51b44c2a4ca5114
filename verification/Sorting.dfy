/** A set listed in ascending order, as a query's ORDER BY lists it. */
module Sorting {

  type Order<!T> = (T, T) -> bool

  // A strict total order of the set.
  ghost predicate IsOrder<T>(lt: Order<T>, ids: set<T>) {
    && (forall a, b :: a in ids && b in ids && a != b ==> lt(a, b) || lt(b, a))
    && (forall a, b :: a in ids && b in ids && lt(a, b) ==> !lt(b, a))
    && (forall a, b, c :: a in ids && b in ids && c in ids && lt(a, b) && lt(b, c) ==> lt(a, c))
  }

  predicate IsLeast<T(==)>(lt: Order<T>, ids: set<T>, m: T) {
    m in ids && forall x :: x in ids && x != m ==> lt(m, x)
  }

  lemma {:induction false} LeastExists<T>(lt: Order<T>, ids: set<T>)
    requires IsOrder(lt, ids) && ids != {}
    ensures exists m :: m in ids && IsLeast(lt, ids, m)
    decreases ids
  {
    var x :| x in ids;
    var rest := ids - {x};
    if rest == {} {
      assert ids == {x} && IsLeast(lt, ids, x);
    } else {
      LeastExists(lt, rest);
      var m :| m in rest && IsLeast(lt, rest, m);
      assert IsLeast(lt, ids, if lt(x, m) then x else m);
    }
  }

  lemma LeastUnique<T>(lt: Order<T>, ids: set<T>)
    requires IsOrder(lt, ids)
    ensures forall m, n :: m in ids && n in ids && IsLeast(lt, ids, m) && IsLeast(lt, ids, n) ==> m == n
  {
  }

  // Ascending.
  ghost predicate Chain<T(!new)>(lt: Order<T>, s: seq<T>) {
    s == [] || ((forall x :: x in s[1..] ==> lt(s[0], x)) && Chain(lt, s[1..]))
  }

  function SetOf<T(==)>(s: seq<T>): set<T> { set x | x in s }

  function Sorted<T(==,!new)>(lt: Order<T>, ids: set<T>): (s: seq<T>)
    requires IsOrder(lt, ids)
    ensures Chain(lt, s) && SetOf(s) == ids
    decreases ids
  {
    if ids == {} then []
    else
      LeastExists(lt, ids);
      LeastUnique(lt, ids);
      var m :| m in ids && IsLeast(lt, ids, m);
      var rest := Sorted(lt, ids - {m});
      assert ([m] + rest)[1..] == rest && SetOf([m] + rest) == {m} + SetOf(rest);
      [m] + rest
  }

  lemma HeadApart<T(!new)>(lt: Order<T>, s: seq<T>)
    requires IsOrder(lt, SetOf(s)) && Chain(lt, s) && s != []
    ensures SetOf(s[1..]) == SetOf(s) - {s[0]}
  {
    assert s == [s[0]] + s[1..];
    if s[0] in s[1..] {
      assert false;
    }
  }

  lemma Inhabited<T(!new)>(s: seq<T>)
    ensures SetOf(s) == {} <==> s == []
  {
    if s != [] {
      assert s[0] in SetOf(s);
    }
  }

  // There is only one way to list a set in order.
  lemma {:induction false} ChainUnique<T(!new)>(lt: Order<T>, s: seq<T>, t: seq<T>)
    requires IsOrder(lt, SetOf(s)) && Chain(lt, s) && Chain(lt, t) && SetOf(s) == SetOf(t)
    ensures s == t
  {
    Inhabited(s);
    Inhabited(t);
    if s != [] {
      assert s[0] in SetOf(t) && t[0] in SetOf(s);
      assert s[0] == t[0];
      HeadApart(lt, s);
      HeadApart(lt, t);
      ChainUnique(lt, s[1..], t[1..]);
      assert s == [s[0]] + s[1..] && t == [t[0]] + t[1..];
    }
  }

  lemma {:induction false} ChainAt<T(!new)>(lt: Order<T>, s: seq<T>, i: nat, j: nat)
    requires Chain(lt, s) && i < j < |s|
    ensures lt(s[i], s[j])
  {
    if i > 0 {
      ChainAt(lt, s[1..], i - 1, j - 1);
    } else {
      assert s[1..][j - 1] == s[j];
    }
  }

  lemma {:induction false} ChainSplit<T(!new)>(lt: Order<T>, s: seq<T>, k: nat)
    requires Chain(lt, s) && k <= |s|
    ensures Chain(lt, s[..k]) && Chain(lt, s[k..])
  {
    if k > 0 {
      ChainSplit(lt, s[1..], k - 1);
      assert s[..k][1..] == s[1..][..k - 1] && s[1..][k - 1..] == s[k..];
      forall x | x in s[..k][1..] ensures lt(s[0], x) {
        assert x in s[1..];
      }
    }
  }

  lemma {:induction false} ChainJoin<T(!new)>(lt: Order<T>, a: seq<T>, b: seq<T>)
    requires Chain(lt, a) && Chain(lt, b) && forall x, y :: x in a && y in b ==> lt(x, y)
    ensures Chain(lt, a + b)
  {
    if a == [] {
      assert a + b == b;
    } else {
      ChainJoin(lt, a[1..], b);
      assert (a + b)[1..] == a[1..] + b && a[0] in a;
    }
  }

  // Orders that agree on a set list it alike.
  lemma SortedAgree<T(!new)>(lt: Order<T>, le: Order<T>, ids: set<T>)
    requires IsOrder(lt, ids) && IsOrder(le, ids)
    requires forall a, b :: a in ids && b in ids ==> lt(a, b) == le(a, b)
    ensures Sorted(lt, ids) == Sorted(le, ids)
  {
    ChainAgree(lt, le, Sorted(lt, ids));
    ChainUnique(le, Sorted(lt, ids), Sorted(le, ids));
  }

  lemma {:induction false} ChainAgree<T(!new)>(lt: Order<T>, le: Order<T>, s: seq<T>)
    requires Chain(lt, s) && forall a, b :: a in s && b in s ==> lt(a, b) == le(a, b)
    ensures Chain(le, s)
  {
    if s != [] {
      ChainAgree(lt, le, s[1..]);
      assert s[0] in s;
    }
  }

  lemma SubOrder<T(!new)>(lt: Order<T>, ids: set<T>, sub: set<T>)
    requires IsOrder(lt, ids) && sub <= ids
    ensures IsOrder(lt, sub)
  {
  }

  // Elements below all others come first.
  lemma LowerFirst<T(!new)>(lt: Order<T>, ids: set<T>, sub: set<T>)
    requires IsOrder(lt, ids) && sub <= ids
    requires forall x, y :: x in sub && y in ids && y !in sub ==> lt(x, y)
    ensures Sorted(lt, ids) == Sorted(lt, sub) + Sorted(lt, ids - sub)
  {
    SubOrder(lt, ids, sub);
    SubOrder(lt, ids, ids - sub);
    var a, b := Sorted(lt, sub), Sorted(lt, ids - sub);
    assert forall x, y :: x in a && y in b ==> x in SetOf(a) && y in SetOf(b);
    ChainJoin(lt, a, b);
    assert SetOf(a + b) == SetOf(a) + SetOf(b) == ids;
    ChainUnique(lt, Sorted(lt, ids), a + b);
  }

  lemma {:induction false} ChainSize<T(!new)>(lt: Order<T>, s: seq<T>)
    requires IsOrder(lt, SetOf(s)) && Chain(lt, s)
    ensures |SetOf(s)| == |s|
  {
    if s == [] {
      assert SetOf(s) == {};
    } else {
      HeadApart(lt, s);
      ChainSize(lt, s[1..]);
      assert s[0] in SetOf(s);
    }
  }

  lemma Across<T(!new)>(lt: Order<T>, s: seq<T>, k: nat, x: T, y: T)
    requires Chain(lt, s) && k <= |s| && x in s[..k] && y in s[k..]
    ensures lt(x, y)
  {
    var i :| 0 <= i < k && s[i] == x;
    var j :| k <= j < |s| && s[j] == y;
    ChainAt(lt, s, i, j);
  }

  lemma Apart<T(!new)>(lt: Order<T>, a: seq<T>, b: seq<T>, ids: set<T>)
    requires IsOrder(lt, ids) && ids == SetOf(a) + SetOf(b) && forall x, y :: x in a && y in b ==> lt(x, y)
    ensures SetOf(b) == ids - SetOf(a)
  {
    forall x | x in SetOf(b) ensures x !in SetOf(a) {
      if x in SetOf(a) {
        assert false;
      }
    }
  }

  lemma Listed<T(!new)>(lt: Order<T>, s: seq<T>, ids: set<T>)
    requires IsOrder(lt, ids) && Chain(lt, s) && SetOf(s) == ids
    ensures Sorted(lt, ids) == s
  {
    ChainUnique(lt, Sorted(lt, ids), s);
  }

  // The elements before position k, and those from k on.
  lemma SortedSplit<T(!new)>(lt: Order<T>, ids: set<T>, k: nat)
    requires IsOrder(lt, ids) && k <= |Sorted(lt, ids)|
    ensures
      var s := Sorted(lt, ids);
      && SetOf(s[..k]) <= ids && IsOrder(lt, SetOf(s[..k])) && IsOrder(lt, ids - SetOf(s[..k]))
      && Sorted(lt, SetOf(s[..k])) == s[..k] && Sorted(lt, ids - SetOf(s[..k])) == s[k..]
  {
    var s := Sorted(lt, ids);
    var a, b := s[..k], s[k..];
    ChainSplit(lt, s, k);
    forall x, y | x in a && y in b ensures lt(x, y) {
      Across(lt, s, k, x, y);
    }
    Union(a, b, s);
    Apart(lt, a, b, ids);
    SubOrder(lt, ids, SetOf(a));
    SubOrder(lt, ids, SetOf(b));
    Listed(lt, a, SetOf(a));
    Listed(lt, b, SetOf(b));
  }

  lemma Union<T(!new)>(a: seq<T>, b: seq<T>, s: seq<T>)
    requires |a| <= |s| && a == s[..|a|] && b == s[|a|..]
    ensures SetOf(s) == SetOf(a) + SetOf(b)
  {
    assert s == a + b;
  }
}
