/** Shared vocabulary: optional values, string keys and their order, largest elements. */
module Basics {

  datatype Option<+T> = None | Some(value: T)

  type Key = string

  /** A user and a task. */
  datatype Pair = Pair(user: Key, task: Key)

  /** The order Python gives to strings: by code point, a proper prefix first. */
  predicate Precedes(a: Key, b: Key) {
    b != "" && (a == "" || a[0] < b[0] || (a[0] == b[0] && Precedes(a[1..], b[1..])))
  }

  lemma {:induction false} PrecedesIsTotal(a: Key, b: Key)
    ensures Precedes(a, b) || a == b || Precedes(b, a)
  {
    if a != "" && b != "" && a[0] == b[0] {
      PrecedesIsTotal(a[1..], b[1..]);
      assert a == [a[0]] + a[1..] && b == [b[0]] + b[1..];
    }
  }

  lemma {:induction false} PrecedesIsTransitive(a: Key, b: Key, c: Key)
    requires Precedes(a, b) && Precedes(b, c)
    ensures Precedes(a, c)
  {
    if a != "" && a[0] == b[0] == c[0] {
      PrecedesIsTransitive(a[1..], b[1..], c[1..]);
    }
  }

  lemma {:induction false} PrecedesIsIrreflexive(a: Key)
    ensures !Precedes(a, a)
  {
    if a != "" {
      PrecedesIsIrreflexive(a[1..]);
    }
  }

  /** No element stands twice in the list. */
  ghost predicate Distinct<T>(s: seq<T>) {
    forall i, j :: 0 <= i < j < |s| ==> s[i] != s[j]
  }

  function Min(a: nat, b: nat): nat {
    if a < b then a else b
  }

  lemma Pick<T>(s: set<T>) returns (x: T)
    requires s != {}
    ensures x in s
  {
    x :| x in s;
  }

  /** m is the largest element of s. */
  ghost predicate IsLargest(m: real, s: set<real>) {
    m in s && forall x :: x in s ==> x <= m
  }

  lemma {:induction false} LargestExists(s: set<real>)
    requires s != {}
    ensures exists m :: IsLargest(m, s)
  {
    var x := Pick(s);
    var rest := s - {x};
    assert forall y :: y in s ==> y == x || y in rest;
    if rest == {} {
      assert IsLargest(x, s);
    } else {
      LargestExists(rest);
      var m :| IsLargest(m, rest);
      assert IsLargest(if m < x then x else m, s);
    }
  }

  /** The largest element of s, or 0.0 when s is empty, like max(s, default=0.0). */
  ghost function Largest(s: set<real>): (m: real)
    ensures s == {} ==> m == 0.0
    ensures s != {} ==> IsLargest(m, s)
  {
    if s == {} then 0.0 else LargestExists(s); var m :| IsLargest(m, s); m
  }
}
