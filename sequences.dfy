/** Order-preserving selection from a sequence, the `Array.prototype.filter` that the project
    gallery applies to its catalog and that the skill grouping performs one category at a time.
    It is defined from the back, so that appending one more element to the input appends at
    most that element to the result, as a left-to-right loop does. */
module Sequences {

  /** The elements of `s` that `keep` accepts, in the order in which they occur in `s`. */
  function Select<T>(s: seq<T>, keep: T -> bool): (r: seq<T>)
    ensures |r| <= |s|
  {
    if s == [] then []
    else Select(s[..|s| - 1], keep) + (if keep(s[|s| - 1]) then [s[|s| - 1]] else [])
  }

  /** The positions in `s` of the elements that `keep` accepts, in increasing order. */
  function Positions<T>(s: seq<T>, keep: T -> bool): seq<nat>
  {
    if s == [] then []
    else Positions(s[..|s| - 1], keep) + (if keep(s[|s| - 1]) then [|s| - 1] else [])
  }

  /** An element is selected exactly when it occurs in the input and is accepted. */
  lemma {:induction false} SelectMembership<T>(s: seq<T>, keep: T -> bool, x: T)
    ensures x in Select(s, keep) <==> x in s && keep(x)
  {
    if s != [] {
      var init := s[..|s| - 1];
      SelectMembership(init, keep, x);
      assert s == init + [s[|s| - 1]];
    }
  }

  /** Everything selected comes from the input and is accepted. */
  lemma SelectSound<T>(s: seq<T>, keep: T -> bool)
    ensures forall x :: x in Select(s, keep) ==> x in s && keep(x)
  {
    forall x | x in Select(s, keep) ensures x in s && keep(x) {
      SelectMembership(s, keep, x);
    }
  }

  /** The selection is a subsequence of the input that keeps the relative order: its k-th
      element is the input's element at the k-th accepted position, the positions strictly
      increase, and every accepted position of the input is among them. */
  lemma {:induction false} SelectIsOrderedSubsequence<T>(s: seq<T>, keep: T -> bool)
    ensures var r, p := Select(s, keep), Positions(s, keep);
      && |p| == |r|
      && (forall k :: 0 <= k < |p| ==> p[k] < |s| && r[k] == s[p[k]] && keep(s[p[k]]))
      && (forall i, j :: 0 <= i < j < |p| ==> p[i] < p[j])
      && (forall j :: 0 <= j < |s| && keep(s[j]) ==> j in p)
  {
    if s != [] {
      var init := s[..|s| - 1];
      SelectIsOrderedSubsequence(init, keep);
      var r0, p0 := Select(init, keep), Positions(init, keep);
      var r, p := Select(s, keep), Positions(s, keep);
      assert forall k :: 0 <= k < |p0| ==> p0[k] < |init| && init[p0[k]] == s[p0[k]];
      if keep(s[|s| - 1]) {
        assert r == r0 + [s[|s| - 1]] && p == p0 + [|s| - 1];
      } else {
        assert r == r0 && p == p0;
      }
      forall j | 0 <= j < |s| && keep(s[j]) ensures j in p {
        if j < |s| - 1 {
          assert init[j] == s[j];
        }
      }
    }
  }

  /** Selecting twice with the same predicate selects nothing more. */
  lemma {:induction false} SelectIdempotent<T>(s: seq<T>, keep: T -> bool)
    ensures Select(Select(s, keep), keep) == Select(s, keep)
  {
    if s != [] {
      var init, last := s[..|s| - 1], s[|s| - 1];
      SelectIdempotent(init, keep);
      var r0 := Select(init, keep);
      if keep(last) {
        var r := r0 + [last];
        assert Select(s, keep) == r;
        assert r[..|r| - 1] == r0;
        assert Select(r, keep) == Select(r0, keep) + [last];
        assert Select(Select(s, keep), keep) == Select(r, keep);
      } else {
        assert Select(s, keep) == r0;
      }
    }
  }

  /** Selection distributes over concatenation. */
  lemma {:induction false} SelectAppend<T>(a: seq<T>, b: seq<T>, keep: T -> bool)
    ensures Select(a + b, keep) == Select(a, keep) + Select(b, keep)
  {
    if b != [] {
      var binit := b[..|b| - 1];
      SelectAppend(a, binit, keep);
      assert (a + b)[..|a + b| - 1] == a + binit;
    } else {
      assert a + b == a;
    }
  }
}
