/** Strings as the library and the kernel order them, and the name lists built from that order. */
module Text {

  /** `strcmp(a, b) < 0`. */
  predicate Below(a: string, b: string) {
    b != [] && (a == [] || a[0] < b[0] || (a[0] == b[0] && Below(a[1..], b[1..])))
  }

  /** At the first difference the smaller character comes first; a proper beginning comes before the whole. */
  lemma {:induction false} BelowMeans(a: string, b: string)
    ensures Below(a, b) <==> a < b || exists i :: 0 <= i < |a| && i < |b| && a[..i] == b[..i] && a[i] < b[i]
  {
    if a != [] && b != [] {
      if a[0] == b[0] {
        BelowMeans(a[1..], b[1..]);
        assert a < b <==> a[1..] < b[1..];
        if i :| 0 <= i < |a[1..]| && i < |b[1..]| && a[1..][..i] == b[1..][..i] && a[1..][i] < b[1..][i] {
          assert a[..i + 1] == [a[0]] + a[1..][..i] && b[..i + 1] == [b[0]] + b[1..][..i];
          assert a[i + 1] < b[i + 1];
        }
        if i :| 0 <= i < |a| && i < |b| && a[..i] == b[..i] && a[i] < b[i] {
          assert a[..i][1..] == a[1..][..i - 1] && b[..i][1..] == b[1..][..i - 1];
          assert a[1..][i - 1] < b[1..][i - 1];
        }
      } else {
        assert a[..0] == b[..0];
        if i :| 0 < i < |a| && i < |b| && a[..i] == b[..i] { assert a[..i][0] == b[..i][0]; }
      }
    }
  }

  lemma BelowIrreflexive(a: string)
    ensures !Below(a, a)
  {}

  lemma BelowTransitive(a: string, b: string, c: string)
    requires Below(a, b) && Below(b, c)
    ensures Below(a, c)
  {}

  lemma BelowTotal(a: string, b: string)
    ensures a == b || Below(a, b) || Below(b, a)
  {
    if a != [] && b != [] && a[0] == b[0] {
      BelowTotal(a[1..], b[1..]);
      assert a[1..] == b[1..] ==> a == [a[0]] + a[1..] == b;
    }
  }

  /** Strictly increasing: the order of `scandir` with `alphasort` under C collation. */
  ghost predicate Sorted(names: seq<string>) {
    forall i, j :: 0 <= i < j < |names| ==> Below(names[i], names[j])
  }

  ghost function Elements<T>(s: seq<T>): set<T> {
    set x <- s
  }

  ghost predicate IsLeast(keys: set<string>, m: string) {
    m in keys && forall k <- keys :: k == m || Below(m, k)
  }

  lemma {:induction false} LeastExists(keys: set<string>)
    requires keys != {}
    ensures exists m :: IsLeast(keys, m)
  {
    var x :| x in keys;
    if keys == {x} {
      assert IsLeast(keys, x);
    } else {
      var rest := keys - {x};
      LeastExists(rest);
      var m :| IsLeast(rest, m);
      assert IsLeast(keys, if Below(x, m) then x else m) by {
        BelowTotal(x, m);
        forall k | k in keys && Below(x, m) ensures k == x || Below(x, k) {
          if k != x && k != m { BelowTransitive(x, m, k); }
        }
      }
    }
  }

  lemma LeastUnique(keys: set<string>, m: string, n: string)
    requires IsLeast(keys, m) && IsLeast(keys, n)
    ensures m == n
  {
    if m != n {
      BelowTransitive(m, n, m);
      BelowIrreflexive(m);
    }
  }

  ghost function Least(keys: set<string>): (m: string)
    requires keys != {}
    ensures IsLeast(keys, m)
  {
    LeastExists(keys);
    var m :| IsLeast(keys, m);
    m
  }

  /** The directory listing: every name once, in increasing order. */
  ghost function SortedKeys(keys: set<string>): (names: seq<string>)
    ensures Sorted(names)
    ensures Elements(names) == keys
  {
    if keys == {} then []
    else
      var m := Least(keys);
      var names := [m] + SortedKeys(keys - {m});
      assert forall i | 1 <= i < |names| :: names[i] in keys - {m};
      assert Elements(names) == {m} + Elements(names[1..]);
      names
  }

  /** Puts `x` at its place in a sorted list. */
  function Placed(names: seq<string>, x: string): (r: seq<string>)
    requires Sorted(names) && x !in names
    ensures Sorted(r)
    ensures Elements(r) == Elements(names) + {x}
  {
    if names == [] then [x]
    else
      BelowTotal(x, names[0]);
      TailElements(names);
      if Below(x, names[0]) then
        assert forall k | 0 < k < |names| :: Below(x, names[k]) by {
          forall k | 0 < k < |names| ensures Below(x, names[k]) { BelowTransitive(x, names[0], names[k]); }
        }
        [x] + names
      else
        var rest := Placed(names[1..], x);
        var r := [names[0]] + rest;
        assert forall k | 0 < k < |r| :: r[k] in Elements(rest);
        assert Elements(r) == {names[0]} + Elements(rest);
        r
  }

  /** A strictly sorted list is determined by its elements. */
  lemma {:induction false} SortedUnique(a: seq<string>, b: seq<string>)
    requires Sorted(a) && Sorted(b)
    requires Elements(a) == Elements(b)
    ensures a == b
  {
    assert |b| > 0 ==> b[0] in Elements(b);
    if a != [] {
      assert a[0] in Elements(a);
      if a[0] != b[0] {
        BelowTransitive(a[0], b[0], a[0]);
        BelowIrreflexive(a[0]);
      }
      TailElements(a);
      TailElements(b);
      SortedUnique(a[1..], b[1..]);
      assert a == [a[0]] + a[1..] && b == [b[0]] + b[1..];
    }
  }

  lemma TailElements(a: seq<string>)
    requires a != [] && Sorted(a)
    ensures Elements(a[1..]) == Elements(a) - {a[0]}
    ensures Sorted(a[1..])
  {
    BelowIrreflexive(a[0]);
    forall x | x in Elements(a) - {a[0]} ensures x in a[1..] {
      var i :| 0 <= i < |a| && a[i] == x;
      assert a[1..][i - 1] == x;
    }
  }

  /** Removing one element from a tail queue: the others keep their order. */
  function Without<T(==)>(s: seq<T>, x: T): (r: seq<T>)
    ensures forall y <- r :: y in s
    ensures forall y <- s :: y == x || y in r
    ensures x !in s ==> r == s
    ensures x in s ==> |r| == |s| - 1
  {
    if s == [] then []
    else if s[0] == x then s[1..]
    else [s[0]] + Without(s[1..], x)
  }

  ghost predicate Suffix<T>(a: seq<T>, b: seq<T>) { |a| <= |b| && a == b[|b| - |a|..] }

  lemma SuffixTail<T>(a: seq<T>, b: seq<T>)
    requires Suffix(a, b) && a != []
    ensures Suffix(a[1..], b) && Without(a, a[0]) == a[1..]
  {}

  /** Where the elements of `Without(s, x)` come from, when `x` occurs at `k` for the first time. */
  lemma {:induction false} WithoutAt<T>(s: seq<T>, x: T, k: nat)
    requires k < |s| && s[k] == x && x !in s[..k]
    ensures Without(s, x) == s[..k] + s[k + 1..]
  {
    if k > 0 {
      assert s[0] in s[..k];
      assert s[1..][..k - 1] == s[..k][1..];
      WithoutAt(s[1..], x, k - 1);
      assert s[..k] + s[k + 1..] == [s[0]] + (s[1..][..k - 1] + s[1..][k..]);
    }
  }

  /** A list whose elements are pairwise related stays so when one element is taken out,
      and no longer contains it. */
  lemma {:induction false} WithoutPairwise<T>(s: seq<T>, x: T, r: (T, T) -> bool)
    requires Pairwise(s, r)
    ensures Pairwise(Without(s, x), r)
    ensures !r(x, x) ==> x !in Without(s, x)
  {
    if s != [] {
      assert Pairwise(s[1..], r);
      WithoutPairwise(s[1..], x, r);
      if s[0] != x {
        var w := Without(s[1..], x);
        forall y | y in w ensures r(s[0], y) {
          var m :| 0 <= m < |s[1..]| && s[1..][m] == y;
          assert s[m + 1] == y;
        }
        PairwiseCons(s[0], w, r);
      }
    }
  }

  ghost predicate Pairwise<T>(s: seq<T>, r: (T, T) -> bool) {
    forall i, j :: 0 <= i < j < |s| ==> r(s[i], s[j])
  }

  lemma PairwiseCons<T>(x: T, w: seq<T>, r: (T, T) -> bool)
    requires Pairwise(w, r) && forall y <- w :: r(x, y)
    ensures Pairwise([x] + w, r)
  {}

  function IndexOf<T(==)>(s: seq<T>, x: T): (k: nat)
    requires x in s
    ensures k < |s| && s[k] == x && x !in s[..k]
  {
    if s[0] == x then 0 else
      var r := IndexOf(s[1..], x) + 1;
      assert s[..r] == [s[0]] + s[1..][..r - 1];
      r
  }

  /** Keep the elements that satisfy `p`, in order. */
  function Filter<T>(s: seq<T>, p: T -> bool): (r: seq<T>)
    ensures forall x <- r :: x in s && p(x)
    ensures forall x <- s :: p(x) ==> x in r
  {
    if s == [] then [] else (if p(s[0]) then [s[0]] else []) + Filter(s[1..], p)
  }
}
