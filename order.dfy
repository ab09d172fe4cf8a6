/**
 * Python's ordering of `str` values (code point by code point, a proper
 * prefix first) and the two sorts the scripts use: `sorted` of a set, which
 * yields each element once in ascending order, and the stable
 * `sort(key=...)` / `sorted(...)` of a list.
 */
module Order {

  /** `a < b` on Python strings. */
  predicate Less(a: string, b: string)
    decreases |a|
  {
    b != [] && (a == [] || a[0] < b[0] || (a[0] == b[0] && Less(a[1..], b[1..])))
  }

  predicate LessEq(a: string, b: string) { a == b || Less(a, b) }

  lemma {:induction false} LessIrreflexive(a: string)
    ensures !Less(a, a)
    decreases |a|
  {
    if a != [] {
      LessIrreflexive(a[1..]);
    }
  }

  lemma {:induction false} LessTransitive(a: string, b: string, c: string)
    requires Less(a, b) && Less(b, c)
    ensures Less(a, c)
    decreases |a|
  {
    if a != [] && a[0] == b[0] && b[0] == c[0] {
      LessTransitive(a[1..], b[1..], c[1..]);
    }
  }

  lemma {:induction false} LessTotal(a: string, b: string)
    ensures a == b || Less(a, b) || Less(b, a)
    decreases |a|
  {
    if a != [] && b != [] && a[0] == b[0] {
      LessTotal(a[1..], b[1..]);
      if a[1..] == b[1..] {
        assert a == [a[0]] + a[1..] && b == [b[0]] + b[1..];
      }
    }
  }

  lemma LessAsymmetric(a: string, b: string)
    requires Less(a, b)
    ensures !Less(b, a)
  {
    if Less(b, a) {
      LessTransitive(a, b, a);
      LessIrreflexive(a);
    }
  }

  /** A proper prefix sorts first: `"2024" < "20240101"`. */
  lemma {:induction false} PrefixLess(a: string, b: string)
    requires |a| < |b| && b[..|a|] == a
    ensures Less(a, b)
    decreases |a|
  {
    if a != [] {
      assert b[1..][..|a| - 1] == a[1..];
      PrefixLess(a[1..], b[1..]);
    }
  }

  predicate StrictlySorted(xs: seq<string>)
  {
    forall i, j :: 0 <= i < j < |xs| ==> Less(xs[i], xs[j])
  }

  predicate IsLeast(m: string, s: set<string>)
  {
    m in s && forall y :: y in s ==> LessEq(m, y)
  }

  lemma {:induction false} LeastExists(s: set<string>)
    requires s != {}
    ensures exists m :: IsLeast(m, s)
    decreases s
  {
    var x :| x in s;
    if s - {x} == {} {
      assert s == {x};
      assert IsLeast(x, s);
    } else {
      LeastExists(s - {x});
      var m :| IsLeast(m, s - {x});
      LessTotal(x, m);
      if Less(x, m) {
        forall y | y in s ensures LessEq(x, y) {
          if y != x && y != m {
            assert y in s - {x};
            LessTransitive(x, m, y);
          }
        }
        assert IsLeast(x, s);
      } else {
        assert IsLeast(m, s);
      }
    }
  }

  lemma LeastUnique(s: set<string>)
    ensures forall m, n :: IsLeast(m, s) && IsLeast(n, s) ==> m == n
  {
    forall m, n | IsLeast(m, s) && IsLeast(n, s) ensures m == n {
      if m != n {
        LessAsymmetric(m, n);
      }
    }
  }

  /** `sorted(s)` for a set of strings: every element once, ascending. */
  function SortedSet(s: set<string>): (r: seq<string>)
    ensures StrictlySorted(r)
    ensures forall x :: x in r <==> x in s
    ensures |r| == |s|
    decreases s
  {
    if s == {} then []
    else
      LeastExists(s);
      LeastUnique(s);
      var m :| IsLeast(m, s);
      var rest := SortedSet(s - {m});
      assert forall y :: y in rest ==> Less(m, y);
      [m] + rest
  }

  /** Two strictly sorted sequences with the same elements are the same sequence. */
  lemma {:induction false} StrictlySortedUnique(xs: seq<string>, ys: seq<string>)
    requires StrictlySorted(xs) && StrictlySorted(ys)
    requires forall x :: x in xs <==> x in ys
    ensures xs == ys
    decreases |xs|
  {
    if xs != [] && ys != [] {
      assert xs[0] in xs && ys[0] in ys;
      if xs[0] != ys[0] {
        var i :| 0 <= i < |ys| && ys[i] == xs[0];
        var j :| 0 <= j < |xs| && xs[j] == ys[0];
        assert Less(ys[0], xs[0]) by { assert i > 0; }
        assert Less(xs[0], ys[0]) by { assert j > 0; }
        LessAsymmetric(xs[0], ys[0]);
      }
      forall x | x in xs[1..] ensures x in ys[1..] {
        TailMember(xs, ys, x);
      }
      forall x | x in ys[1..] ensures x in xs[1..] {
        TailMember(ys, xs, x);
      }
      StrictlySortedUnique(xs[1..], ys[1..]);
    } else if xs == [] {
      NoMembers(ys);
    } else {
      NoMembers(xs);
    }
  }

  lemma NoMembers(xs: seq<string>)
    requires forall x :: x !in xs
    ensures xs == []
  {
    forall x ensures x !in multiset(xs) {
      assert x !in xs;
    }
    assert multiset(xs) == multiset{};
  }

  lemma TailMember(xs: seq<string>, ys: seq<string>, x: string)
    requires StrictlySorted(xs) && StrictlySorted(ys)
    requires xs != [] && ys != [] && xs[0] == ys[0]
    requires forall z :: z in xs <==> z in ys
    requires x in xs[1..]
    ensures x in ys[1..]
  {
    var k :| 1 <= k < |xs| && xs[k] == x;
    LessIrreflexive(x);
    assert x in ys;
    var l :| 0 <= l < |ys| && ys[l] == x;
    assert l != 0;
    assert ys[1..][l - 1] == x;
  }

  /** `sorted(set(xs))` is determined by its elements alone. */
  lemma SortedSetOf(s: set<string>, xs: seq<string>)
    requires StrictlySorted(xs)
    requires forall x :: x in xs <==> x in s
    ensures SortedSet(s) == xs
  {
    StrictlySortedUnique(SortedSet(s), xs);
  }

  predicate SortedBy(xs: seq<string>, key: string -> string)
  {
    forall i, j :: 0 <= i < j < |xs| ==> LessEq(key(xs[i]), key(xs[j]))
  }

  /** Puts `x` after every element whose key is at most its own. */
  function InsertBy(x: string, ys: seq<string>, key: string -> string): (r: seq<string>)
    ensures multiset(r) == multiset(ys) + multiset{x}
  {
    if ys == [] then [x]
    else if Less(key(x), key(ys[0])) then [x] + ys
    else
      assert ys == [ys[0]] + ys[1..];
      [ys[0]] + InsertBy(x, ys[1..], key)
  }

  lemma {:induction false} InsertBySorted(x: string, ys: seq<string>, key: string -> string)
    requires SortedBy(ys, key)
    ensures SortedBy(InsertBy(x, ys, key), key)
    decreases |ys|
  {
    if ys == [] {
    } else if Less(key(x), key(ys[0])) {
      forall z | z in ys ensures LessEq(key(x), key(z)) {
        var k :| 0 <= k < |ys| && ys[k] == z;
        if k > 0 && key(z) != key(ys[0]) {
          LessTransitive(key(x), key(ys[0]), key(z));
        }
      }
      ConsSorted(x, ys, key);
    } else {
      var rest := InsertBy(x, ys[1..], key);
      InsertBySorted(x, ys[1..], key);
      LessTotal(key(x), key(ys[0]));
      forall z | z in rest ensures LessEq(key(ys[0]), key(z)) {
        assert z in multiset(rest);
        if z != x {
          assert z in multiset(ys[1..]);
          var k :| 0 <= k < |ys[1..]| && ys[1..][k] == z;
          assert ys[k + 1] == z;
        }
      }
      ConsSorted(ys[0], rest, key);
    }
  }

  lemma ConsSorted(y: string, rest: seq<string>, key: string -> string)
    requires SortedBy(rest, key)
    requires forall z :: z in rest ==> LessEq(key(y), key(z))
    ensures SortedBy([y] + rest, key)
  {
    var r := [y] + rest;
    forall i, j | 0 <= i < j < |r| ensures LessEq(key(r[i]), key(r[j])) {
      assert r[j] == rest[j - 1];
      if i > 0 {
        assert r[i] == rest[i - 1];
      }
    }
  }

  /** `sorted(xs, key=key)`: ascending by key, equal keys in their input order. */
  function SortBy(xs: seq<string>, key: string -> string): (r: seq<string>)
    ensures SortedBy(r, key)
    ensures multiset(r) == multiset(xs)
  {
    if xs == [] then []
    else
      var init := SortBy(xs[..|xs| - 1], key);
      InsertBySorted(xs[|xs| - 1], init, key);
      assert xs == xs[..|xs| - 1] + [xs[|xs| - 1]];
      InsertBy(xs[|xs| - 1], init, key)
  }

  function Id(s: string): string { s }
}
