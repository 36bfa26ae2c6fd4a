/**
  `Array.prototype.filter`, which the services use to split `response.results`
  and the grids use for client-side search, with the facts the callers need:
  what is kept, that order is kept, and that a filter keeping everything is the
  identity.
 */
module Seqs {

  function Filter<T>(s: seq<T>, p: T -> bool): (r: seq<T>)
    ensures |r| <= |s|
    ensures forall i :: 0 <= i < |r| ==> p(r[i])
  {
    if s == [] then []
    else if p(s[0]) then [s[0]] + Filter(s[1..], p)
    else Filter(s[1..], p)
  }

  /** `idx` lists, in increasing order, positions of `b` holding the elements of `a`. */
  ghost predicate Embeds<T>(a: seq<T>, b: seq<T>, idx: seq<int>) {
    && |idx| == |a|
    && (forall i :: 0 <= i < |idx| ==> 0 <= idx[i] < |b| && a[i] == b[idx[i]])
    && (forall i, j :: 0 <= i < j < |idx| ==> idx[i] < idx[j])
  }

  /** `a` is obtained from `b` by deleting elements, without reordering. */
  ghost predicate IsSubsequence<T>(a: seq<T>, b: seq<T>) {
    exists idx :: Embeds(a, b, idx)
  }

  /** A filtered list is an order-preserving subsequence of its input. */
  lemma {:induction false} FilterIsSubsequence<T>(s: seq<T>, p: T -> bool)
    ensures IsSubsequence(Filter(s, p), s)
  {
    if s == [] {
      assert Embeds<T>([], s, []);
    } else {
      FilterIsSubsequence(s[1..], p);
      var rest := Filter(s[1..], p);
      var idx :| Embeds(rest, s[1..], idx);
      if p(s[0]) {
        var idx' := EmbedsHead(rest, s, idx);
        assert Filter(s, p) == [s[0]] + rest;
      } else {
        var idx' := EmbedsTail(rest, s, idx);
        assert Filter(s, p) == rest;
      }
    }
  }

  /** Positions in the tail of `s` are positions in `s`, one further on. */
  lemma EmbedsTail<T>(a: seq<T>, s: seq<T>, idx: seq<int>) returns (idx': seq<int>)
    requires s != [] && Embeds(a, s[1..], idx)
    ensures Embeds(a, s, idx')
    ensures forall i :: 0 <= i < |idx'| ==> 1 <= idx'[i]
  {
    idx' := seq(|idx|, i requires 0 <= i < |idx| => idx[i] + 1);
    forall i | 0 <= i < |idx'|
      ensures 0 <= idx'[i] < |s| && a[i] == s[idx'[i]]
    {
      assert s[idx'[i]] == s[1..][idx[i]];
    }
  }

  /** The head of `s` followed by a subsequence of its tail is a subsequence of `s`. */
  lemma EmbedsHead<T>(a: seq<T>, s: seq<T>, idx: seq<int>) returns (idx': seq<int>)
    requires s != [] && Embeds(a, s[1..], idx)
    ensures Embeds([s[0]] + a, s, idx')
  {
    var shifted := EmbedsTail(a, s, idx);
    idx' := [0] + shifted;
    forall i | 0 < i < |idx'|
      ensures 1 <= idx'[i] < |s| && ([s[0]] + a)[i] == s[idx'[i]]
    {
      assert idx'[i] == shifted[i - 1];
    }
  }

  /** An element is kept exactly when it is in the input and satisfies `p`. */
  lemma {:induction false} FilterMembership<T>(s: seq<T>, p: T -> bool, x: T)
    ensures x in Filter(s, p) <==> x in s && p(x)
  {
    if s != [] {
      FilterMembership(s[1..], p, x);
      assert s == [s[0]] + s[1..];
    }
  }

  /** When every element satisfies `p`, filtering returns the input unchanged. */
  lemma {:induction false} FilterAll<T>(s: seq<T>, p: T -> bool)
    requires forall i :: 0 <= i < |s| ==> p(s[i])
    ensures Filter(s, p) == s
  {
    if s != [] {
      FilterAll(s[1..], p);
    }
  }

  /** Filtering keeps nothing exactly when no element satisfies `p`. */
  lemma {:induction false} FilterEmpty<T>(s: seq<T>, p: T -> bool)
    ensures Filter(s, p) == [] <==> forall i :: 0 <= i < |s| ==> !p(s[i])
  {
    if s != [] {
      FilterEmpty(s[1..], p);
      if Filter(s, p) == [] {
        forall i | 0 <= i < |s| ensures !p(s[i]) {
          if i > 0 { assert s[i] == s[1..][i - 1]; }
        }
      }
    }
  }

  /** The first kept element is the earliest element of the input satisfying `p`. */
  lemma {:induction false} FilterHead<T>(s: seq<T>, p: T -> bool)
    requires Filter(s, p) != []
    ensures exists i :: 0 <= i < |s| && s[i] == Filter(s, p)[0] && p(s[i])
                        && forall j :: 0 <= j < i ==> !p(s[j])
  {
    if !p(s[0]) {
      FilterHead(s[1..], p);
      var i :| 0 <= i < |s[1..]| && s[1..][i] == Filter(s[1..], p)[0] && p(s[1..][i])
               && forall j :: 0 <= j < i ==> !p(s[1..][j]);
      assert s[i + 1] == Filter(s, p)[0];
      forall j | 0 <= j < i + 1 ensures !p(s[j]) {
        if j > 0 { assert s[j] == s[1..][j - 1]; }
      }
    } else {
      assert s[0] == Filter(s, p)[0];
    }
  }
}
