/** Sequence filtering, the shape of every Django QuerySet.filter() in the model. */
module Seqs {

  /** The elements of s that satisfy p, in their original order. */
  function Filter<T(!new)>(s: seq<T>, p: T -> bool): (r: seq<T>)
    ensures |r| <= |s|
    ensures forall x :: x in r <==> x in s && p(x)
    ensures forall k :: 0 <= k < |r| ==> p(r[k])
  {
    if |s| == 0 then []
    else (if p(s[0]) then [s[0]] else []) + Filter(s[1..], p)
  }

  /** Filtering twice by the same condition is filtering once. */
  lemma {:induction false} FilterIdempotent<T(!new)>(s: seq<T>, p: T -> bool)
    ensures Filter(Filter(s, p), p) == Filter(s, p)
  {
    if |s| > 0 {
      FilterIdempotent(s[1..], p);
      var rest := Filter(s[1..], p);
      if p(s[0]) {
        var r := [s[0]] + rest;
        assert r[0] == s[0] && r[1..] == rest;
        assert Filter(r, p) == [s[0]] + Filter(rest, p);
      } else {
        assert Filter(s, p) == [] + rest == rest;
      }
    }
  }

  /** Two filters in a row give the same rows in either order. */
  lemma {:induction false} FilterCommute<T(!new)>(s: seq<T>, p: T -> bool, q: T -> bool)
    ensures Filter(Filter(s, p), q) == Filter(Filter(s, q), p)
  {
    if |s| > 0 {
      FilterCommute(s[1..], p, q);
      var rp, rq := Filter(s[1..], p), Filter(s[1..], q);
      if p(s[0]) {
        var r := [s[0]] + rp;
        assert r[0] == s[0] && r[1..] == rp;
        assert Filter(r, q) == (if q(s[0]) then [s[0]] else []) + Filter(rp, q);
      } else {
        assert Filter(s, p) == [] + rp == rp;
      }
      if q(s[0]) {
        var r := [s[0]] + rq;
        assert r[0] == s[0] && r[1..] == rq;
        assert Filter(r, p) == (if p(s[0]) then [s[0]] else []) + Filter(rq, p);
      } else {
        assert Filter(s, q) == [] + rq == rq;
      }
    }
  }

  /** Filtering by two conditions that agree on every element gives the same rows. */
  lemma {:induction false} FilterAgree<T(!new)>(s: seq<T>, p: T -> bool, q: T -> bool)
    requires forall x :: x in s ==> p(x) == q(x)
    ensures Filter(s, p) == Filter(s, q)
  {
    if |s| > 0 {
      FilterAgree(s[1..], p, q);
    }
  }

  /** A second filter by q after p is one filter by a condition that means "p and q". */
  lemma {:induction false} FilterThen<T(!new)>(s: seq<T>, p: T -> bool, q: T -> bool, both: T -> bool)
    requires forall x :: x in s ==> both(x) == (p(x) && q(x))
    ensures Filter(Filter(s, p), q) == Filter(s, both)
  {
    if |s| > 0 {
      FilterThen(s[1..], p, q, both);
      var rest := Filter(s[1..], p);
      if p(s[0]) {
        var r := [s[0]] + rest;
        assert r[0] == s[0] && r[1..] == rest;
        assert Filter(r, q) == (if q(s[0]) then [s[0]] else []) + Filter(rest, q);
      } else {
        assert Filter(s, p) == [] + rest == rest;
      }
    }
  }

  /** The first element kept is the first element of s that satisfies p. */
  lemma {:induction false} FilterFirst<T(!new)>(s: seq<T>, p: T -> bool)
    requires |Filter(s, p)| > 0
    ensures exists k :: 0 <= k < |s| && s[k] == Filter(s, p)[0] && p(s[k])
                        && forall j :: 0 <= j < k ==> !p(s[j])
  {
    if !p(s[0]) {
      assert Filter(s, p) == [] + Filter(s[1..], p);
      FilterFirst(s[1..], p);
      var k :| 0 <= k < |s[1..]| && s[1..][k] == Filter(s[1..], p)[0] && p(s[1..][k])
                && forall j :: 0 <= j < k ==> !p(s[1..][j]);
      assert s[k + 1] == s[1..][k];
      assert forall j :: 1 <= j < k + 1 ==> s[j] == s[1..][j - 1];
    } else {
      assert Filter(s, p)[0] == s[0];
    }
  }
}
