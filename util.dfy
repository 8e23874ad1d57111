/** Small shared vocabulary: optional values (a C pointer that may be NULL),
    bytes, the runtime's status codes, and an order-preserving filter with
    the lemmas the loops over node arrays and interface lists need. */
module Util {

  /** A value that may be absent, the way a C pointer may be NULL. */
  datatype Option<+T> = None | Some(value: T)

  /** One octet of a payload or an address. */
  newtype byte = x: int | 0 <= x < 256

  /** The status codes returned by the modelled functions
      (PRTE_SUCCESS / PRRTE_SUCCESS, PRTE_ERROR, PRTE_ERR_BAD_PARAM, ...). */
  datatype Status =
    | Success
    | Error
    | ErrBadParam
    | ErrOutOfResource
    | ErrNotFound
    | ErrResourceBusy
    | ErrNotSupported
    | ErrTypeMismatch
    | ErrBuffer

  /** The elements of `s` that satisfy `keep`, in their original order. */
  function Filter<T>(s: seq<T>, keep: T -> bool): (r: seq<T>)
    ensures |r| <= |s|
    ensures forall k :: 0 <= k < |r| ==> keep(r[k])
  {
    if s == [] then []
    else Filter(s[..|s| - 1], keep) + (if keep(s[|s| - 1]) then [s[|s| - 1]] else [])
  }

  /** Extending the input by one element extends the filter by that element
      exactly when it is kept. */
  lemma FilterStep<T>(s: seq<T>, keep: T -> bool, i: nat)
    requires i < |s|
    ensures Filter(s[..i + 1], keep) == Filter(s[..i], keep) + (if keep(s[i]) then [s[i]] else [])
  {
    assert s[..i + 1][..i] == s[..i];
  }

  /** Filtering a prefix of `s` yields a prefix of the filter of `s`: the
      filter never reorders. */
  lemma {:induction false} FilterPrefix<T>(s: seq<T>, keep: T -> bool, i: nat)
    requires i <= |s|
    ensures |Filter(s[..i], keep)| <= |Filter(s, keep)|
    ensures Filter(s[..i], keep) == Filter(s, keep)[..|Filter(s[..i], keep)|]
  {
    if i < |s| {
      var n := |s| - 1;
      assert s[..n][..i] == s[..i];
      FilterPrefix(s[..n], keep, i);
      assert Filter(s, keep) == Filter(s[..n], keep) + (if keep(s[n]) then [s[n]] else []);
    } else {
      assert s[..i] == s;
    }
  }

  /** One step of a loop that walks `s` and tracks how much of the filter
      it has produced: a kept element is the next element of the filter,
      any other element leaves the produced prefix as it was. */
  lemma FilterNext<T>(s: seq<T>, keep: T -> bool, i: nat, e: nat)
    requires i < |s| && e <= |Filter(s, keep)|
    requires Filter(s[..i], keep) == Filter(s, keep)[..e]
    ensures keep(s[i]) ==>
              e < |Filter(s, keep)| && Filter(s, keep)[e] == s[i] && Filter(s[..i + 1], keep) == Filter(s, keep)[..e + 1]
    ensures !keep(s[i]) ==> Filter(s[..i + 1], keep) == Filter(s, keep)[..e]
  {
    FilterStep(s, keep, i);
    FilterPrefix(s, keep, i + 1);
    if keep(s[i]) {
      assert Filter(s[..i + 1], keep) == Filter(s, keep)[..e] + [s[i]];
      assert Filter(s[..i + 1], keep) == Filter(s, keep)[..e + 1];
    }
  }

  /** The filter only holds elements of `s`. */
  lemma {:induction false} FilterSound<T>(s: seq<T>, keep: T -> bool)
    ensures forall k :: 0 <= k < |Filter(s, keep)| ==> Filter(s, keep)[k] in s
  {
    if s != [] {
      var n := |s| - 1;
      FilterSound(s[..n], keep);
      var prev := Filter(s[..n], keep);
      assert Filter(s, keep) == prev + (if keep(s[n]) then [s[n]] else []);
      forall k | 0 <= k < |Filter(s, keep)|
        ensures Filter(s, keep)[k] in s
      {
        if k < |prev| {
          var x := prev[k];
          assert x in s[..n];
          var j :| 0 <= j < n && s[..n][j] == x;
          assert s[j] == x;
        }
      }
    }
  }

  /** When every element is kept, the filter is the whole sequence. */
  lemma {:induction false} FilterAll<T>(s: seq<T>, keep: T -> bool)
    requires forall k :: 0 <= k < |s| ==> keep(s[k])
    ensures Filter(s, keep) == s
  {
    if s != [] {
      var n := |s| - 1;
      var init := s[..n];
      forall k | 0 <= k < n ensures keep(init[k]) {
        assert init[k] == s[k];
      }
      FilterAll(init, keep);
      assert keep(s[n]);
      assert init + [s[n]] == s;
    }
  }

  /** When no element is kept, the filter is empty. */
  lemma {:induction false} FilterNone<T>(s: seq<T>, keep: T -> bool)
    requires forall k :: 0 <= k < |s| ==> !keep(s[k])
    ensures Filter(s, keep) == []
  {
    if s != [] {
      var n := |s| - 1;
      var init := s[..n];
      forall k | 0 <= k < n ensures !keep(init[k]) {
        assert init[k] == s[k];
      }
      FilterNone(init, keep);
    }
  }

  /** An element of `s` that satisfies `keep` appears in the filter: together
      with FilterSound and Filter's own postconditions this is "x in
      Filter(s) iff x in s and keep(x)". */
  lemma {:induction false} FilterComplete<T>(s: seq<T>, keep: T -> bool, x: T)
    requires x in s && keep(x)
    ensures x in Filter(s, keep)
  {
    var n := |s| - 1;
    if s[n] != x {
      assert x in s[..n] by {
        var k :| 0 <= k < |s| && s[k] == x;
        assert k < n && s[..n][k] == x;
      }
      FilterComplete(s[..n], keep, x);
    }
  }
}
