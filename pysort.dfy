/** Python's `list.sort()` on a list of `str`: ascending order of code points, compared
    lexicographically, a shorter prefix first. */
module PySort {
  /** `a <= b` on Python strings. */
  predicate LexLe(a: string, b: string)
    decreases |a|
  {
    a == [] || (b != [] && (a[0] < b[0] || (a[0] == b[0] && LexLe(a[1..], b[1..]))))
  }

  lemma {:induction false} LexTotal(a: string, b: string)
    ensures LexLe(a, b) || LexLe(b, a)
    decreases |a|
  {
    if a != [] && b != [] && a[0] == b[0] {
      LexTotal(a[1..], b[1..]);
    }
  }

  lemma {:induction false} LexTrans(a: string, b: string, c: string)
    requires LexLe(a, b) && LexLe(b, c)
    ensures LexLe(a, c)
    decreases |a|
  {
    if a != [] && b != [] && c != [] && a[0] == b[0] == c[0] {
      LexTrans(a[1..], b[1..], c[1..]);
    }
  }

  lemma {:induction false} LexAntisym(a: string, b: string)
    requires LexLe(a, b) && LexLe(b, a)
    ensures a == b
    decreases |a|
  {
    if a != [] {
      LexAntisym(a[1..], b[1..]);
      assert a == [a[0]] + a[1..] && b == [b[0]] + b[1..];
    }
  }

  predicate Sorted(xs: seq<string>) {
    forall i, j :: 0 <= i < j < |xs| ==> LexLe(xs[i], xs[j])
  }

  /** Every element of `xs` is at least `x`. */
  predicate AllAbove(x: string, xs: seq<string>) {
    forall i :: 0 <= i < |xs| ==> LexLe(x, xs[i])
  }

  function Insert(x: string, xs: seq<string>): (r: seq<string>)
    ensures multiset(r) == multiset(xs) + multiset{x}
  {
    if xs == [] then [x]
    else if LexLe(x, xs[0]) then [x] + xs
    else
      assert xs == [xs[0]] + xs[1..];
      [xs[0]] + Insert(x, xs[1..])
  }

  /** The sorted copy that `sorted(xs)` returns and `xs.sort()` leaves in place. */
  function Sort(xs: seq<string>): (r: seq<string>)
    ensures multiset(r) == multiset(xs)
  {
    if xs == [] then []
    else
      assert xs == [xs[0]] + xs[1..];
      Insert(xs[0], Sort(xs[1..]))
  }

  lemma {:induction false} InsertAbove(y: string, x: string, xs: seq<string>)
    requires LexLe(y, x) && AllAbove(y, xs)
    ensures AllAbove(y, Insert(x, xs))
  {
    var r := Insert(x, xs);
    forall i | 0 <= i < |r|
      ensures LexLe(y, r[i])
    {
      assert r[i] in multiset(r);
      assert r[i] == x || r[i] in multiset(xs);
      if r[i] != x {
        var k :| 0 <= k < |xs| && xs[k] == r[i];
      }
    }
  }

  lemma {:induction false} InsertSorted(x: string, xs: seq<string>)
    requires Sorted(xs)
    ensures Sorted(Insert(x, xs))
  {
    if xs != [] && !LexLe(x, xs[0]) {
      var t := xs[1..];
      assert Sorted(t) by {
        forall i, j | 0 <= i < j < |t|
          ensures LexLe(t[i], t[j])
        {
          assert t[i] == xs[i + 1] && t[j] == xs[j + 1];
        }
      }
      InsertSorted(x, t);
      LexTotal(x, xs[0]);
      assert AllAbove(xs[0], t) by {
        forall i | 0 <= i < |t|
          ensures LexLe(xs[0], t[i])
        {
          assert t[i] == xs[i + 1];
        }
      }
      InsertAbove(xs[0], x, t);
      ConsSorted(xs[0], Insert(x, t));
    } else if xs != [] {
      assert AllAbove(x, xs) by {
        forall i | 0 <= i < |xs|
          ensures LexLe(x, xs[i])
        {
          if i > 0 {
            LexTrans(x, xs[0], xs[i]);
          }
        }
      }
      ConsSorted(x, xs);
    }
  }

  lemma ConsSorted(x: string, xs: seq<string>)
    requires AllAbove(x, xs) && Sorted(xs)
    ensures Sorted([x] + xs)
  {
    var r := [x] + xs;
    forall i, j | 0 <= i < j < |r|
      ensures LexLe(r[i], r[j])
    {
      assert r[j] == xs[j - 1];
      if i > 0 {
        assert r[i] == xs[i - 1];
      }
    }
  }

  /** The sorted copy is in ascending order and holds the same strings, each as often. */
  lemma {:induction false} SortSorted(xs: seq<string>)
    ensures Sorted(Sort(xs)) && multiset(Sort(xs)) == multiset(xs)
  {
    if xs != [] {
      SortSorted(xs[1..]);
      InsertSorted(xs[0], Sort(xs[1..]));
    }
  }
}
