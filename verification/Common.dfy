/** Small shared vocabulary: options and facts about duplicate-free sequences. */
module Common {

  datatype Option<+T> = None | Some(value: T)

  ghost predicate NoDup<T>(s: seq<T>) {
    forall i, j :: 0 <= i < j < |s| ==> s[i] != s[j]
  }

  /** `s` without the first occurrence of `x`, the rest in order. */
  function Remove<T(==)>(s: seq<T>, x: T): seq<T> {
    if s == [] then [] else if s[0] == x then s[1..] else [s[0]] + Remove(s[1..], x)
  }

  lemma {:induction false} RemoveAbsent<T>(s: seq<T>, x: T)
    requires x !in s
    ensures Remove(s, x) == s
  {
    if s != [] {
      RemoveAbsent(s[1..], x);
    }
  }

  /** Removing the element at index `i` cuts exactly that position out. */
  lemma {:induction false} RemoveAt<T>(s: seq<T>, i: nat)
    requires NoDup(s) && i < |s|
    ensures Remove(s, s[i]) == s[..i] + s[i + 1..]
  {
    if i > 0 {
      RemoveAt(s[1..], i - 1);
      assert s[..i] == [s[0]] + s[1..][..i - 1];
    }
  }

  lemma RemoveNoDup<T>(s: seq<T>, x: T)
    requires NoDup(s)
    ensures NoDup(Remove(s, x))
    ensures forall y :: y in Remove(s, x) <==> y in s && y != x
  {
    hide Remove;
    if x in s {
      var i :| 0 <= i < |s| && s[i] == x;
      RemoveAt(s, i);
      CutNoDup(s, i);
    } else {
      RemoveAbsent(s, x);
    }
  }

  lemma CutNoDup<T>(s: seq<T>, i: nat)
    requires NoDup(s) && i < |s|
    ensures var r := s[..i] + s[i + 1..]; NoDup(r) && forall y :: y in r <==> y in s && y != s[i]
  {
    assert s == s[..i] + [s[i]] + s[i + 1..];
  }

  /** A duplicate-free sequence drawn from `dom` has at most |dom| elements. */
  lemma {:induction false} Pigeonhole<T>(s: seq<T>, dom: set<T>)
    requires NoDup(s) && forall x :: x in s ==> x in dom
    ensures |s| <= |dom|
  {
    if s != [] {
      var rest := s[..|s| - 1];
      Pigeonhole(rest, dom - {s[|s| - 1]});
    }
  }

  /** A quotient and a remainder that fit are the quotient and the remainder. */
  lemma DivMod(n: int, m: nat, q: int, r: nat)
    requires n == m * q + r && r < m
    ensures n / m == q && n % m == r
  {
    var k := n / m - q;
    assert m * k == r - n % m by {
      assert n == m * (n / m) + n % m;
      assert m * (n / m - q) == m * (n / m) - m * q;
    }
    MulBound(m, k);
  }

  lemma MulBound(m: nat, k: int)
    requires 0 < m
    ensures (k >= 1 ==> m * k >= m) && (k <= -1 ==> m * k + m <= 0)
  {
  }
}
