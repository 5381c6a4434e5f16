/**
 * The byte-wise order Go uses to compare strings. A Dafny string is a sequence of
 * Unicode scalar values, and UTF-8 preserves code-point order, so comparing the
 * characters one by one gives the same order as comparing the UTF-8 bytes.
 */
module StringOrder {

  /** `a` sorts before or equal to `b`. */
  predicate Le(a: string, b: string)
    decreases |a|
  {
    |a| == 0 || (|b| > 0 && (a[0] < b[0] || (a[0] == b[0] && Le(a[1..], b[1..]))))
  }

  /** `a` sorts strictly before `b`. */
  predicate Lt(a: string, b: string) {
    Le(a, b) && a != b
  }

  lemma {:induction false} LeReflexive(a: string)
    ensures Le(a, a)
    decreases |a|
  {
    if |a| > 0 {
      LeReflexive(a[1..]);
    }
  }

  lemma {:induction false} LeTotal(a: string, b: string)
    ensures Le(a, b) || Le(b, a)
    decreases |a|
  {
    if |a| > 0 && |b| > 0 && a[0] == b[0] {
      LeTotal(a[1..], b[1..]);
    }
  }

  lemma {:induction false} LeAntisymmetric(a: string, b: string)
    requires Le(a, b) && Le(b, a)
    ensures a == b
    decreases |a|
  {
    if |a| > 0 {
      LeAntisymmetric(a[1..], b[1..]);
      assert a == [a[0]] + a[1..] && b == [b[0]] + b[1..];
    }
  }

  lemma {:induction false} LeTransitive(a: string, b: string, c: string)
    requires Le(a, b) && Le(b, c)
    ensures Le(a, c)
    decreases |a|
  {
    if |a| > 0 && a[0] == b[0] && b[0] == c[0] {
      LeTransitive(a[1..], b[1..], c[1..]);
    }
  }

  /** `m` is the first of the strings in `s`. */
  predicate IsLeast(m: string, s: set<string>) {
    m in s && forall x :: x in s ==> Le(m, x)
  }

  lemma {:induction false} LeastExists(s: set<string>)
    requires s != {}
    ensures exists m :: IsLeast(m, s)
    decreases s
  {
    var y :| y in s;
    if s == {y} {
      LeReflexive(y);
      assert IsLeast(y, s);
    } else {
      LeastExists(s - {y});
      var m :| IsLeast(m, s - {y});
      LeTotal(m, y);
      if Le(m, y) {
        assert IsLeast(m, s);
      } else {
        forall x | x in s ensures Le(y, x) {
          if x == y {
            LeReflexive(y);
          } else {
            LeTransitive(y, m, x);
          }
        }
        assert IsLeast(y, s);
      }
    }
  }

  lemma LeastUnique(s: set<string>)
    ensures forall m, n :: IsLeast(m, s) && IsLeast(n, s) ==> m == n
  {
    forall m, n | IsLeast(m, s) && IsLeast(n, s) ensures m == n {
      LeAntisymmetric(m, n);
    }
  }

  /** Strictly increasing, hence also free of duplicates. */
  predicate StrictlySorted(r: seq<string>) {
    forall i, j :: 0 <= i < j < |r| ==> Lt(r[i], r[j])
  }

  /** Putting the least element in front of the sorted others sorts the whole set. */
  lemma PrependLeast(m: string, s: set<string>, rest: seq<string>)
    requires IsLeast(m, s)
    requires forall x :: x in s - {m} <==> x in rest
    requires StrictlySorted(rest)
    ensures forall x :: x in s <==> x in [m] + rest
    ensures StrictlySorted([m] + rest)
  {
    var r := [m] + rest;
    assert forall i :: 1 <= i < |r| ==> r[i] == rest[i - 1];
    forall i, j | 0 <= i < j < |r| ensures Lt(r[i], r[j]) {
      if i == 0 {
        assert rest[j - 1] in s - {m};
      } else {
        assert Lt(rest[i - 1], rest[j - 1]);
      }
    }
  }

  /**
   * The elements of a finite set of strings in increasing order: the keys that
   * `url.Values.Encode` collects and sorts before it writes any pair.
   */
  function SortedKeys(s: set<string>): (r: seq<string>)
    ensures forall x :: x in s <==> x in r
    ensures StrictlySorted(r)
    ensures |r| == |s|
    decreases s
  {
    if s == {} then []
    else
      LeastExists(s);
      LeastUnique(s);
      var m :| IsLeast(m, s);
      var rest := SortedKeys(s - {m});
      PrependLeast(m, s, rest);
      [m] + rest
  }
}
