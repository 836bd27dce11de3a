/** Sequences without an element, in reverse, and regrouped. */
module Sequences {
  function Without<T>(s: seq<T>, at: nat): (r: seq<T>)
    requires at < |s|
    ensures |r| == |s| - 1
    ensures forall n :: 0 <= n < |r| ==> r[n] == s[if n < at then n else n + 1]
  {
    s[..at] + s[at + 1..]
  }

  predicate NoRepeats<T(==)>(s: seq<T>) {
    forall i, j :: 0 <= i < j < |s| ==> s[i] != s[j]
  }

  function Reverse<T>(s: seq<T>): (r: seq<T>)
    ensures |r| == |s|
    ensures forall i :: 0 <= i < |s| ==> r[i] == s[|s| - 1 - i]
  {
    seq(|s|, i requires 0 <= i < |s| => s[|s| - 1 - i])
  }

  lemma {:induction false} ReverseHas<T>(s: seq<T>)
    ensures forall x :: x in Reverse(s) <==> x in s
  {
    forall i | 0 <= i < |s|
      ensures s[i] in Reverse(s)
    {
      assert Reverse(s)[|s| - 1 - i] == s[i];
    }
  }

  lemma {:induction false} LastOfSlice<T>(s: seq<T>, lo: nat, hi: nat)
    requires lo < hi <= |s|
    ensures s[lo..hi][hi - lo - 1] == s[hi - 1] && s[lo..hi][..hi - lo - 1] == s[lo..hi - 1]
  {}

  lemma {:induction false} DropOfSum<T>(a: seq<T>, b: seq<T>, k: nat)
    requires k <= |a|
    ensures (a + b)[k..] == a[k..] + b
  {}

  lemma {:induction false} Associate<T>(a: seq<T>, b: seq<T>, c: seq<T>)
    ensures (a + b) + c == a + (b + c)
  {}
}
