/** Shared value types and the few facts about sequences and strings that the
    rest of the model leans on. */
module Collections {

  datatype Option<+T> = None | Some(value: T)

  /** The elements of `xs` that satisfy `keep`, in order: a Python list
      comprehension with a condition. */
  function Keep<T(!new)>(xs: seq<T>, keep: T -> bool): (kept: seq<T>)
    ensures |kept| <= |xs|
    ensures forall x :: x in kept <==> x in xs && keep(x)
  {
    if xs == [] then []
    else
      var rest := Keep(xs[..|xs| - 1], keep);
      var last := xs[|xs| - 1];
      assert forall x :: x in xs <==> x in xs[..|xs| - 1] || x == last;
      if keep(last) then rest + [last] else rest
  }

  lemma KeepSnoc<T(!new)>(xs: seq<T>, i: nat, keep: T -> bool)
    requires i < |xs|
    ensures Keep(xs[..i + 1], keep) == if keep(xs[i]) then Keep(xs[..i], keep) + [xs[i]] else Keep(xs[..i], keep)
  {
    assert xs[..i + 1][..i] == xs[..i];
  }

  lemma {:induction false} KeepConcat<T(!new)>(xs: seq<T>, ys: seq<T>, keep: T -> bool)
    ensures Keep(xs + ys, keep) == Keep(xs, keep) + Keep(ys, keep)
  {
    if ys == [] {
      assert xs + ys == xs;
    } else {
      var n := |ys| - 1;
      assert (xs + ys)[..|xs + ys| - 1] == xs + ys[..n];
      KeepConcat(xs, ys[..n], keep);
    }
  }

  /** Erasing first what the second pass would drop anyway changes nothing. */
  lemma {:induction false} KeepKeep<T(!new)>(xs: seq<T>, outer: T -> bool, inner: T -> bool)
    requires forall x :: x in xs && outer(x) ==> inner(x)
    ensures Keep(Keep(xs, inner), outer) == Keep(xs, outer)
  {
    if xs == [] {
    } else {
      var n := |xs| - 1;
      KeepKeep(xs[..n], outer, inner);
      if inner(xs[n]) {
        var kept := Keep(xs[..n], inner);
        assert (kept + [xs[n]])[..|kept|] == kept;
      }
    }
  }

  lemma {:induction false} KeepAll<T(!new)>(xs: seq<T>, keep: T -> bool)
    requires forall x :: x in xs ==> keep(x)
    ensures Keep(xs, keep) == xs
  {
    if xs == [] {
    } else {
      KeepAll(xs[..|xs| - 1], keep);
    }
  }

  /** Two filters that agree on every element keep the same list. */
  lemma {:induction false} KeepAgree<T(!new)>(xs: seq<T>, p: T -> bool, q: T -> bool)
    requires forall x :: x in xs ==> p(x) == q(x)
    ensures Keep(xs, p) == Keep(xs, q)
  {
    if xs == [] {
    } else {
      KeepAgree(xs[..|xs| - 1], p, q);
    }
  }

  /** `kept` is what is left of `xs` when the elements that are not good are struck out, in
      order and as often as they occur. */
  predicate Selects<T(==)>(kept: seq<T>, xs: seq<T>, good: T -> bool) {
    if xs == [] then kept == []
    else if good(xs[0]) then kept != [] && kept[0] == xs[0] && Selects(kept[1..], xs[1..], good)
    else Selects(kept, xs[1..], good)
  }

  lemma KeepOne<T(!new)>(x: T, keep: T -> bool)
    ensures Keep([x], keep) == if keep(x) then [x] else []
  {
    assert [x][..0] == [];
  }

  lemma {:induction false} KeepSelects<T(!new)>(xs: seq<T>, keep: T -> bool)
    ensures Selects(Keep(xs, keep), xs, keep)
  {
    if xs == [] {
    } else {
      KeepSelects(xs[1..], keep);
      KeepHead(xs, keep);
      var kept, rest := Keep(xs, keep), Keep(xs[1..], keep);
      if keep(xs[0]) { assert kept == [xs[0]] + rest && kept[1..] == rest; }
    }
  }

  lemma KeepHead<T(!new)>(xs: seq<T>, keep: T -> bool)
    requires xs != []
    ensures Keep(xs, keep) == if keep(xs[0]) then [xs[0]] + Keep(xs[1..], keep) else Keep(xs[1..], keep)
  {
    var head, tail := [xs[0]], xs[1..];
    assert xs == head + tail;
    KeepConcat(head, tail, keep);
    KeepOne(xs[0], keep);
    NothingBefore(Keep(tail, keep));
  }

  lemma NothingBefore<T>(xs: seq<T>)
    ensures [] + xs == xs
  {}

  /** Code-point order on strings, which is what Python's `sorted` uses. */
  predicate StrLe(a: string, b: string) {
    a == "" || (b != "" && (a[0] < b[0] || (a[0] == b[0] && StrLe(a[1..], b[1..]))))
  }

  /** The strings agree up to `i`, and there the first one ends or has the smaller character. */
  predicate ComesFirst(a: string, b: string, i: nat) {
    i <= |a| && i <= |b| && a[..i] == b[..i] && (i == |a| || (i < |b| && a[i] < b[i]))
  }

  lemma {:induction false} StrLeExactly(a: string, b: string)
    ensures StrLe(a, b) <==> exists i: nat :: ComesFirst(a, b, i)
  {
    if a == "" {
      assert ComesFirst(a, b, 0);
    } else if b == "" {
    } else {
      StrLeExactly(a[1..], b[1..]);
      if a[0] < b[0] {
        assert ComesFirst(a, b, 0);
      } else if a[0] == b[0] {
        forall i: nat
          ensures ComesFirst(a[1..], b[1..], i) ==> ComesFirst(a, b, i + 1)
          ensures ComesFirst(a, b, i + 1) ==> ComesFirst(a[1..], b[1..], i)
        {
          SameHead(a, b, i);
        }
        if i: nat :| ComesFirst(a, b, i) { assert ComesFirst(a[1..], b[1..], i - 1); }
        if i: nat :| ComesFirst(a[1..], b[1..], i) { assert ComesFirst(a, b, i + 1); }
      } else {
        forall i: nat
          ensures !ComesFirst(a, b, i)
        {
          if 0 < i <= |a| && i <= |b| { assert a[..i][0] == a[0] && b[..i][0] == b[0]; }
        }
      }
    }
  }

  lemma SameHead(a: string, b: string, i: nat)
    requires a != "" && b != "" && a[0] == b[0]
    ensures ComesFirst(a[1..], b[1..], i) <==> ComesFirst(a, b, i + 1)
  {
    if i + 1 <= |a| && i + 1 <= |b| {
      assert a[..i + 1] == [a[0]] + a[1..][..i] && b[..i + 1] == [b[0]] + b[1..][..i];
      if a[..i + 1] == b[..i + 1] { assert a[..i + 1][1..] == a[1..][..i] && b[..i + 1][1..] == b[1..][..i]; }
    }
  }

  lemma StrLeTotal(a: string, b: string)
    ensures StrLe(a, b) || StrLe(b, a)
  {}

  lemma {:induction false} StrLeAntisymmetric(a: string, b: string)
    requires StrLe(a, b) && StrLe(b, a)
    ensures a == b
  {
    if a == "" || b == "" {
    } else {
      StrLeAntisymmetric(a[1..], b[1..]);
      assert a == [a[0]] + a[1..] && b == [b[0]] + b[1..];
    }
  }

  lemma StrLeTransitive(a: string, b: string, c: string)
    requires StrLe(a, b) && StrLe(b, c)
    ensures StrLe(a, c)
  {}

  predicate IsLeast(s: set<string>, m: string) {
    m in s && forall x :: x in s ==> StrLe(m, x)
  }

  lemma {:induction false} LeastExists(s: set<string>)
    requires s != {}
    ensures exists m :: IsLeast(s, m)
  {
    var a :| a in s;
    var rest := s - {a};
    StrLeTotal(a, a);
    if rest == {} {
      assert s == {a};
      assert IsLeast(s, a);
    } else {
      LeastExists(rest);
      var b :| IsLeast(rest, b);
      StrLeTotal(a, b);
      var m := if StrLe(a, b) then a else b;
      forall x | x in s
        ensures StrLe(m, x)
      {
        if x in rest && m == a { StrLeTransitive(a, b, x); }
      }
      assert IsLeast(s, m);
    }
  }

  function Least(s: set<string>): (m: string)
    requires s != {}
    ensures m in s && forall x :: x in s ==> StrLe(m, x)
  {
    LeastExists(s);
    assert forall m, n | IsLeast(s, m) && IsLeast(s, n) :: m == n by {
      forall m, n | IsLeast(s, m) && IsLeast(s, n)
        ensures m == n
      {
        StrLeAntisymmetric(m, n);
      }
    }
    var m :| IsLeast(s, m);
    m
  }

  /** Python's `sorted` of a set of strings. */
  function Sorted(s: set<string>): (r: seq<string>)
    ensures |r| == |s|
    ensures forall x :: x in r <==> x in s
  {
    if s == {} then []
    else
      var m := Least(s);
      [m] + Sorted(s - {m})
  }

  predicate Increasing(xs: seq<string>) {
    forall i, j :: 0 <= i < j < |xs| ==> StrLe(xs[i], xs[j]) && xs[i] != xs[j]
  }

  lemma {:induction false} SortedIncreasing(s: set<string>)
    ensures Increasing(Sorted(s))
  {
    if s == {} {
    } else {
      var m := Least(s);
      SortedIncreasing(s - {m});
      var r := Sorted(s - {m});
      forall i, j | 0 <= i < j < |[m] + r|
        ensures StrLe(([m] + r)[i], ([m] + r)[j]) && ([m] + r)[i] != ([m] + r)[j]
      {
        assert r[j - 1] in s - {m};
        if i > 0 { assert StrLe(r[i - 1], r[j - 1]); }
      }
    }
  }

  lemma {:induction false} KeepIncreasing(xs: seq<string>, keep: string -> bool)
    requires Increasing(xs)
    ensures Increasing(Keep(xs, keep))
  {
    if xs == [] {
    } else {
      var n := |xs| - 1;
      KeepIncreasing(xs[..n], keep);
      var kept := Keep(xs[..n], keep);
      if keep(xs[n]) {
        forall i | 0 <= i < |kept|
          ensures StrLe(kept[i], xs[n]) && kept[i] != xs[n]
        {
          assert kept[i] in xs[..n];
          var k :| 0 <= k < n && xs[k] == kept[i];
        }
      }
    }
  }
}
