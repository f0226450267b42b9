/** JavaScript array operations used by the settlement code: `indexOf`, the
    `filter((v, i, arr) => arr.indexOf(v) === i)` de-duplication idiom, and
    numeric `reduce((sum, x) => sum + x, 0)`. */
module Lists {

  predicate Distinct<T(==)>(s: seq<T>)
  {
    forall i, j | 0 <= i < j < |s| :: s[i] != s[j]
  }

  /** `s.indexOf(x)`: the first position of `x`, or -1. */
  function IndexOf<T(==)>(s: seq<T>, x: T): (r: int)
    ensures -1 <= r < |s|
    ensures r == -1 <==> x !in s
    ensures r >= 0 ==> s[r] == x && forall k | 0 <= k < r :: s[k] != x
  {
    if s == [] then -1
    else if s[0] == x then 0
    else
      var r := IndexOf(s[1..], x);
      if r < 0 then -1 else r + 1
  }

  /** The elements among the first `n` positions of `s` that sit at their
      first occurrence in `s`, in order. */
  function KeepFirst<T(==)>(s: seq<T>, n: nat): seq<T>
    requires n <= |s|
  {
    if n == 0 then []
    else KeepFirst(s, n - 1) + (if IndexOf(s, s[n - 1]) == n - 1 then [s[n - 1]] else [])
  }

  /** `s.filter((v, i, arr) => arr.indexOf(v) === i)`. */
  function FirstOccurrences<T(==)>(s: seq<T>): seq<T>
  {
    KeepFirst(s, |s|)
  }

  lemma {:induction false} KeepFirstProperties<T>(s: seq<T>, n: nat)
    requires n <= |s|
    ensures forall x :: x in KeepFirst(s, n) <==> x in s[..n]
    ensures forall x | x in KeepFirst(s, n) :: 0 <= IndexOf(s, x) < n
    ensures forall i, j | 0 <= i < j < |KeepFirst(s, n)| ::
              IndexOf(s, KeepFirst(s, n)[i]) < IndexOf(s, KeepFirst(s, n)[j])
  {
    if n > 0 {
      KeepFirstProperties(s, n - 1);
      var r := KeepFirst(s, n);
      var prev := KeepFirst(s, n - 1);
      forall x
        ensures x in r <==> x in s[..n]
      {
        if x in s[..n] && x !in s[..n - 1] {
          assert x == s[n - 1];
          assert IndexOf(s, x) == n - 1;
        }
        if x in s[..n - 1] {
          assert x in prev;
        }
      }
    }
  }

  /** The de-duplicated list holds exactly the elements of `s`, each once, in
      the order of their first occurrence in `s`. */
  lemma FirstOccurrencesProperties<T>(s: seq<T>)
    ensures forall x :: x in FirstOccurrences(s) <==> x in s
    ensures Distinct(FirstOccurrences(s))
    ensures forall i, j | 0 <= i < j < |FirstOccurrences(s)| ::
              IndexOf(s, FirstOccurrences(s)[i]) < IndexOf(s, FirstOccurrences(s)[j])
  {
    KeepFirstProperties(s, |s|);
    assert s[..|s|] == s;
  }

  // Standard sequence identities. They model nothing of their own: the
  // proofs elsewhere call them so that these facts are settled here, in a
  // small context, rather than inside a large proof.

  /** A non-empty list is its front followed by its last element. */
  lemma SplitLast<T>(s: seq<T>)
    requires s != []
    ensures s == s[..|s| - 1] + [s[|s| - 1]]
  {
  }

  lemma AppendAssoc<T>(a: seq<T>, b: seq<T>, c: seq<T>)
    ensures (a + b) + c == a + (b + c)
  {
  }

  lemma TailAppend<T>(a: seq<T>, c: seq<T>)
    requires a != []
    ensures (a + c)[0] == a[0] && (a + c)[1..] == a[1..] + c
  {
  }

  lemma FrontAppend<T>(a: seq<T>, c: seq<T>)
    requires c != []
    ensures (a + c)[|a + c| - 1] == c[|c| - 1] && (a + c)[..|a + c| - 1] == a + c[..|c| - 1]
  {
  }

  lemma ConsDisplay<T>(x: T, y: T, z: T)
    ensures [x] + [y] == [x, y] && [x] + [y, z] == [x, y, z]
  {
  }

  /** `s.reduce((sum, x) => sum + x, 0)` over exact reals. */
  function Sum(s: seq<real>): real
  {
    if s == [] then 0.0 else Sum(s[..|s| - 1]) + s[|s| - 1]
  }

  lemma {:induction false} SumAppend(a: seq<real>, b: seq<real>)
    ensures Sum(a + b) == Sum(a) + Sum(b)
  {
    if b != [] {
      SumAppend(a, b[..|b| - 1]);
      assert (a + b)[..|a + b| - 1] == a + b[..|b| - 1];
    } else {
      assert a + b == a;
    }
  }
}
