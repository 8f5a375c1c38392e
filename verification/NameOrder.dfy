/** Python's order on strings, code point by code point, and lists sorted by name. */
module NameOrder {

  predicate Below(a: string, b: string) {
    b != [] && (a == [] || a[0] < b[0] || (a[0] == b[0] && Below(a[1..], b[1..])))
  }

  lemma {:induction false} BelowIsTransitive(a: string, b: string, c: string)
    requires Below(a, b) && Below(b, c)
    ensures Below(a, c)
  {
    if a != [] && a[0] == b[0] && b[0] == c[0] {
      BelowIsTransitive(a[1..], b[1..], c[1..]);
    }
  }

  lemma {:induction false} BelowIsTotal(a: string, b: string)
    ensures a == b || Below(a, b) || Below(b, a)
  {
    if a != [] && b != [] && a[0] == b[0] {
      BelowIsTotal(a[1..], b[1..]);
      assert a == [a[0]] + a[1..] && b == [b[0]] + b[1..];
    }
  }

  lemma {:induction false} BelowIsStrict(a: string, b: string)
    requires Below(a, b)
    ensures a != b && !Below(b, a)
  {
    if a != [] && a[0] == b[0] {
      BelowIsStrict(a[1..], b[1..]);
    }
  }

  /** The first position where the texts differ decides; a proper beginning comes first. */
  ghost predicate DiffersAt(a: string, b: string, i: nat) {
    i <= |a| && i < |b| && a[..i] == b[..i] && (i == |a| || a[i] < b[i])
  }

  lemma {:induction false} BelowIff(a: string, b: string)
    ensures Below(a, b) <==> exists i: nat :: DiffersAt(a, b, i)
  {
    if a == [] || b == [] || a[0] < b[0] {
      if b != [] { assert DiffersAt(a, b, 0); }
    } else if a[0] == b[0] {
      BelowIff(a[1..], b[1..]);
      if i: nat :| DiffersAt(a[1..], b[1..], i) {
        assert a[..i + 1] == [a[0]] + a[1..][..i] && b[..i + 1] == [b[0]] + b[1..][..i];
        assert DiffersAt(a, b, i + 1);
      }
      if i: nat :| DiffersAt(a, b, i) {
        assert i > 0 && a[1..][..i - 1] == a[..i][1..] && b[1..][..i - 1] == b[..i][1..];
        assert DiffersAt(a[1..], b[1..], i - 1);
      }
    } else {
      forall i: nat ensures !DiffersAt(a, b, i) {
        if i > 0 && i <= |a| && i < |b| {
          assert a[..i][0] == a[0] && b[..i][0] == b[0];
        }
      }
    }
  }

  datatype Named<T> = Named(name: string, item: T)

  ghost predicate Sorted<T>(s: seq<Named<T>>) {
    forall i, j :: 0 <= i < j < |s| ==> Below(s[i].name, s[j].name)
  }

  ghost predicate DistinctNames<T>(s: seq<Named<T>>) {
    forall i, j :: 0 <= i < j < |s| ==> s[i].name != s[j].name
  }

  function Insert<T(!new)>(x: Named<T>, s: seq<Named<T>>): (r: seq<Named<T>>)
    ensures |r| == |s| + 1
    ensures forall y :: y in r <==> y == x || y in s
  {
    if s == [] then [x]
    else if Below(s[0].name, x.name) then [s[0]] + Insert(x, s[1..])
    else [x] + s
  }

  /** `sorted(s, key=name)`. */
  function Sort<T(!new)>(s: seq<Named<T>>): (r: seq<Named<T>>)
    ensures |r| == |s|
    ensures forall y :: y in r <==> y in s
  {
    if s == [] then [] else Insert(s[0], Sort(s[1..]))
  }

  lemma {:induction false} InsertIsSorted<T(!new)>(x: Named<T>, s: seq<Named<T>>)
    requires Sorted(s) && forall i :: 0 <= i < |s| ==> s[i].name != x.name
    ensures Sorted(Insert(x, s))
  {
    if s != [] {
      if Below(s[0].name, x.name) {
        InsertIsSorted(x, s[1..]);
        forall y | y in Insert(x, s[1..]) ensures Below(s[0].name, y.name) {
        }
      } else {
        BelowIsTotal(s[0].name, x.name);
        forall j | 0 <= j < |s| ensures Below(x.name, s[j].name) {
          if j > 0 { BelowIsTransitive(x.name, s[0].name, s[j].name); }
        }
      }
    }
  }

  lemma {:induction false} SortIsSorted<T(!new)>(s: seq<Named<T>>)
    requires DistinctNames(s)
    ensures Sorted(Sort(s))
  {
    if s != [] {
      SortIsSorted(s[1..]);
      forall i | 0 <= i < |Sort(s[1..])| ensures Sort(s[1..])[i].name != s[0].name {
        assert Sort(s[1..])[i] in s[1..];
      }
      InsertIsSorted(s[0], Sort(s[1..]));
    }
  }

  /** Nothing is below the head of a sorted list. */
  lemma HeadIsLeast<T(!new)>(s: seq<Named<T>>, y: Named<T>)
    requires Sorted(s) && y in s
    ensures y == s[0] || Below(s[0].name, y.name)
  {
  }

  /** A sorted list is determined by what it contains. */
  lemma {:induction false} SortedIsUnique<T(!new)>(a: seq<Named<T>>, b: seq<Named<T>>)
    requires Sorted(a) && Sorted(b) && |a| == |b|
    requires forall y :: y in a <==> y in b
    ensures a == b
    decreases |a|
  {
    if a != [] {
      assert a[0] in a;
      HeadIsLeast(b, a[0]);
      assert b[0] in b;
      HeadIsLeast(a, b[0]);
      if a[0] != b[0] {
        BelowIsStrict(a[0].name, b[0].name);
        assert false;
      }
      forall y ensures y in a[1..] <==> y in b[1..] {
        TailMembers(a, y);
        TailMembers(b, y);
      }
      SortedIsUnique(a[1..], b[1..]);
      assert a == [a[0]] + a[1..] && b == [b[0]] + b[1..];
    }
  }

  lemma TailMembers<T(!new)>(s: seq<Named<T>>, y: Named<T>)
    requires Sorted(s) && s != []
    ensures y in s[1..] <==> y in s && y != s[0]
  {
    if y in s[1..] {
      var i :| 0 <= i < |s[1..]| && s[1..][i] == y;
      BelowIsStrict(s[0].name, s[i + 1].name);
    }
  }
}
