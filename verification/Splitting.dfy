/** Python's `split` on a one-character separator and its inverse `join`, for bytes and for text. */
module Splitting {

  /** One more item in front: a separator starts a new first piece, any other item joins it. */
  function InFront<T(==)>(separator: T, item: T, pieces: seq<seq<T>>): (lines: seq<seq<T>>)
    requires pieces != []
    ensures lines != []
  {
    if item == separator then [[]] + pieces else [[item] + pieces[0]] + pieces[1..]
  }

  /** `s.split(separator)`: always at least one piece. */
  function Split<T(==)>(separator: T, s: seq<T>): (pieces: seq<seq<T>>)
    ensures pieces != []
  {
    if s == [] then [[]] else InFront(separator, s[0], Split(separator, s[1..]))
  }

  /** `separator.join(pieces)`. */
  function Join<T>(separator: T, pieces: seq<seq<T>>): seq<T> {
    if pieces == [] then []
    else if |pieces| == 1 then pieces[0]
    else pieces[0] + [separator] + Join(separator, pieces[1..])
  }

  lemma InFrontConcat<T>(separator: T, item: T, p: seq<seq<T>>, q: seq<seq<T>>)
    requires p != []
    ensures InFront(separator, item, p + q) == InFront(separator, item, p) + q
  {
  }

  lemma {:induction false} SplitAtSeparator<T>(separator: T, a: seq<T>, b: seq<T>)
    ensures Split(separator, a + [separator] + b) == Split(separator, a) + Split(separator, b)
  {
    var whole := a + [separator] + b;
    if a == [] {
      assert whole[1..] == b;
    } else {
      SplitAtSeparator(separator, a[1..], b);
      InFrontConcat(separator, a[0], Split(separator, a[1..]), Split(separator, b));
      assert whole[1..] == a[1..] + [separator] + b;
    }
  }

  lemma {:induction false} SplitWithoutSeparator<T>(separator: T, s: seq<T>)
    requires separator !in s
    ensures Split(separator, s) == [s]
  {
    if s != [] {
      SplitWithoutSeparator(separator, s[1..]);
      assert s == [s[0]] + s[1..];
    }
  }

  lemma {:induction false} PiecesHoldNoSeparator<T>(separator: T, s: seq<T>)
    ensures forall i :: 0 <= i < |Split(separator, s)| ==> separator !in Split(separator, s)[i]
  {
    if s != [] {
      PiecesHoldNoSeparator(separator, s[1..]);
    }
  }

  /** Pieces without separators come back, unless there were none: then one empty piece does. */
  lemma {:induction false} SplitOfJoin<T>(separator: T, pieces: seq<seq<T>>)
    requires forall i :: 0 <= i < |pieces| ==> separator !in pieces[i]
    ensures Split(separator, Join(separator, pieces)) == if pieces == [] then [[]] else pieces
  {
    if pieces != [] {
      SplitWithoutSeparator(separator, pieces[0]);
      if |pieces| > 1 {
        SplitOfJoin(separator, pieces[1..]);
        SplitAtSeparator(separator, pieces[0], Join(separator, pieces[1..]));
        assert pieces == [pieces[0]] + pieces[1..];
      }
    }
  }

  lemma {:induction false} JoinOfSplit<T>(separator: T, s: seq<T>)
    ensures Join(separator, Split(separator, s)) == s
  {
    if s != [] {
      JoinOfSplit(separator, s[1..]);
      var pieces := Split(separator, s[1..]);
      if s[0] == separator {
        assert ([[]] + pieces)[1..] == pieces;
      } else {
        assert ([[s[0]] + pieces[0]] + pieces[1..])[1..] == pieces[1..];
      }
    }
  }

  /** Empty pieces are joined into separators only, one fewer than there are pieces. */
  lemma {:induction false} JoinOfEmpties<T>(separator: T, pieces: seq<seq<T>>)
    requires pieces != [] && forall i :: 0 <= i < |pieces| ==> pieces[i] == []
    ensures |Join(separator, pieces)| == |pieces| - 1
    ensures forall i :: 0 <= i < |pieces| - 1 ==> Join(separator, pieces)[i] == separator
  {
    if |pieces| > 1 {
      JoinOfEmpties(separator, pieces[1..]);
    }
  }
}
