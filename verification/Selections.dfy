/** What a filtering loop returns, said by positions: the chosen items, in order, each once. */
module Selections {

  ghost predicate Ascending(indices: seq<nat>) {
    forall i, j :: 0 <= i < j < |indices| ==> indices[i] < indices[j]
  }

  /** `indices` are the positions of `s` that satisfy `p`. */
  ghost predicate Positions<T>(s: seq<T>, p: T -> bool, indices: seq<nat>) {
    && Ascending(indices)
    && forall i: nat :: i in indices <==> i < |s| && p(s[i])
  }

  ghost predicate ListedBy<T, U(!new)>(s: seq<T>, p: T -> bool, f: T -> U, out: seq<U>, indices: seq<nat>) {
    && Positions(s, p, indices)
    && |out| == |indices|
    && forall k :: 0 <= k < |out| ==> indices[k] < |s| && out[k] == f(s[indices[k]])
  }

  /** `[f(x) for x in s if p(x)]`. */
  ghost predicate Lists<T, U(!new)>(s: seq<T>, p: T -> bool, f: T -> U, out: seq<U>) {
    exists indices: seq<nat> :: ListedBy(s, p, f, out, indices)
  }

  lemma ListsNothing<T, U(!new)>(p: T -> bool, f: T -> U)
    ensures Lists([], p, f, [])
  {
    assert ListedBy([], p, f, [], []);
  }

  lemma PositionsAppend<T>(s: seq<T>, x: T, p: T -> bool, indices: seq<nat>)
    requires Positions(s, p, indices)
    ensures Positions(s + [x], p, if p(x) then indices + [|s|] else indices)
  {
    var longer, more := s + [x], if p(x) then indices + [|s|] else indices;
    forall i: nat ensures i in more <==> i < |longer| && p(longer[i]) {
      assert i in indices <==> i < |s| && p(s[i]);
    }
    forall i | 0 <= i < |indices| ensures indices[i] < |s| {
      assert indices[i] in indices;
    }
  }

  lemma ListedAppend<T, U(!new)>(s: seq<T>, x: T, p: T -> bool, f: T -> U, out: seq<U>, indices: seq<nat>)
    requires ListedBy(s, p, f, out, indices)
    ensures p(x) ==> ListedBy(s + [x], p, f, out + [f(x)], indices + [|s|])
    ensures !p(x) ==> ListedBy(s + [x], p, f, out, indices)
  {
    PositionsAppend(s, x, p, indices);
    forall k | 0 <= k < |indices| ensures (s + [x])[indices[k]] == s[indices[k]] {
    }
  }

  /** One more item is appended exactly when it is chosen. */
  lemma ListsAppend<T, U(!new)>(s: seq<T>, x: T, p: T -> bool, f: T -> U, out: seq<U>)
    requires Lists(s, p, f, out)
    ensures p(x) ==> Lists(s + [x], p, f, out + [f(x)])
    ensures !p(x) ==> Lists(s + [x], p, f, out)
  {
    var indices: seq<nat> :| ListedBy(s, p, f, out, indices);
    ListedAppend(s, x, p, f, out, indices);
  }

  /** The positions that satisfy `p`, as a set. */
  ghost function Chosen<T>(s: seq<T>, p: T -> bool): set<nat> {
    set i: nat | i < |s| && p(s[i])
  }

  lemma CountAppend<T>(s: seq<T>, x: T, p: T -> bool)
    ensures |Chosen(s + [x], p)| == |Chosen(s, p)| + if p(x) then 1 else 0
  {
    var more := Chosen(s, p) + if p(x) then {|s|} else {};
    forall i: nat ensures i in Chosen(s + [x], p) <==> i in more {
    }
    assert Chosen(s + [x], p) == more;
  }

  lemma CountNothing<T>(p: T -> bool)
    ensures Chosen([], p) == {}
  {
  }
}
