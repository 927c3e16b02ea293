/** Strings as Go orders them, sorting, and the sorted duplicate-free list of a set. */
module Strings {

  /** Go's `<` on strings; UTF-8 keeps code-point order, so comparing characters is comparing bytes. */
  predicate Less(a: string, b: string) {
    b != "" && (a == "" || a[0] < b[0] || (a[0] == b[0] && Less(a[1..], b[1..])))
  }

  /**
   * The order is lexicographic: at the first place where the strings differ the smaller character
   * decides, and a proper prefix comes first.
   */
  lemma {:induction false} LessIsLexicographic(a: string, b: string)
    ensures Less(a, b) <==>
      exists n: nat :: n <= |a| && n < |b| && a[..n] == b[..n] && (n == |a| || a[n] < b[n])
  {
    if a == "" || b == "" {
      assert b != "" ==> a[..0] == b[..0];
    } else if a[0] != b[0] {
      assert a[0] < b[0] ==> a[..0] == b[..0];
      forall n: nat | 0 < n <= |a| && n < |b| ensures a[..n] != b[..n] {
        assert a[..n][0] == a[0] && b[..n][0] == b[0];
      }
    } else {
      LessIsLexicographic(a[1..], b[1..]);
      if n: nat :| n <= |a[1..]| && n < |b[1..]| && a[1..][..n] == b[1..][..n] && (n == |a[1..]| || a[1..][n] < b[1..][n]) {
        assert a[..n + 1] == [a[0]] + a[1..][..n] && b[..n + 1] == [b[0]] + b[1..][..n];
      }
      if n: nat :| n <= |a| && n < |b| && a[..n] == b[..n] && (n == |a| || a[n] < b[n]) {
        assert n > 0;
        assert a[1..][..n - 1] == a[..n][1..] && b[1..][..n - 1] == b[..n][1..];
      }
    }
  }

  predicate Leq(a: string, b: string) {
    a == b || Less(a, b)
  }

  lemma {:induction false} LessIrreflexive(a: string)
    ensures !Less(a, a)
  {
    if a != "" {
      LessIrreflexive(a[1..]);
    }
  }

  lemma {:induction false} LessTransitive(a: string, b: string, c: string)
    requires Less(a, b) && Less(b, c)
    ensures Less(a, c)
  {
    if a != "" && a[0] == b[0] && b[0] == c[0] {
      LessTransitive(a[1..], b[1..], c[1..]);
    }
  }

  lemma {:induction false} LessTotal(a: string, b: string)
    ensures a == b || Less(a, b) || Less(b, a)
  {
    if a != "" && b != "" && a[0] == b[0] {
      LessTotal(a[1..], b[1..]);
      if a[1..] == b[1..] {
        assert a == [a[0]] + a[1..] && b == [b[0]] + b[1..];
      }
    }
  }

  lemma LeqAntisymmetric(a: string, b: string)
    requires Leq(a, b) && Leq(b, a)
    ensures a == b
  {
    if a != b {
      LessTransitive(a, b, a);
      LessIrreflexive(a);
    }
  }

  lemma LeqTransitive(a: string, b: string, c: string)
    requires Leq(a, b) && Leq(b, c)
    ensures Leq(a, c)
  {
    if a != b && b != c {
      LessTransitive(a, b, c);
    }
  }

  /* Sorting */

  ghost predicate Sorted(s: seq<string>) {
    forall i, j :: 0 <= i < j < |s| ==> Leq(s[i], s[j])
  }

  ghost predicate StrictlySorted(s: seq<string>) {
    forall i, j :: 0 <= i < j < |s| ==> Less(s[i], s[j])
  }

  lemma InsertFirst(x: string, s: seq<string>)
    requires s != [] && Leq(x, s[0])
    ensures Sorted(s) ==> Sorted([x] + s)
  {
    hide Leq;
    forall i | 0 <= i < |s| && Sorted(s) ensures Leq(x, s[i]) {
      if i > 0 {
        LeqTransitive(x, s[0], s[i]);
      }
    }
  }

  lemma InsertLater(x: string, s: seq<string>, t: seq<string>)
    requires s != [] && !Leq(x, s[0]) && multiset(t) == multiset(s[1..]) + multiset{x}
    requires Sorted(s[1..]) ==> Sorted(t)
    ensures Sorted(s) ==> Sorted([s[0]] + t)
  {
    LessTotal(x, s[0]);
    hide Less;
    forall y | y in t && Sorted(s) ensures Leq(s[0], y) {
      assert y in multiset(t);
      assert y == x || y in s[1..];
    }
  }

  function Insert(x: string, s: seq<string>): (r: seq<string>)
    ensures multiset(r) == multiset(s) + multiset{x}
    ensures Sorted(s) ==> Sorted(r)
  {
    if s == [] then [x]
    else if Leq(x, s[0]) then
      InsertFirst(x, s);
      [x] + s
    else
      var t := Insert(x, s[1..]);
      assert s == [s[0]] + s[1..];
      InsertLater(x, s, t);
      [s[0]] + t
  }

  /** `sort.Strings`. */
  function Sort(s: seq<string>): (r: seq<string>)
    ensures Sorted(r) && multiset(r) == multiset(s) && |r| == |s|
  {
    if s == [] then []
    else
      assert s == [s[0]] + s[1..];
      var r := Insert(s[0], Sort(s[1..]));
      assert |r| == |multiset(r)| == |multiset(s)|;
      r
  }

  /** A list has only one sorted rearrangement, so the sorting algorithm does not matter. */
  lemma {:induction false} SortedUnique(a: seq<string>, b: seq<string>)
    requires Sorted(a) && Sorted(b) && multiset(a) == multiset(b)
    ensures a == b
  {
    assert |a| == |multiset(a)| == |multiset(b)| == |b|;
    if a != [] {
      LeastFirst(a, b);
      LeastFirst(b, a);
      SortedTail(a);
      SortedTail(b);
      hide Sorted, Leq;
      LeqAntisymmetric(a[0], b[0]);
      assert a == [a[0]] + a[1..] && b == [b[0]] + b[1..];
      WithoutFirst(a);
      WithoutFirst(b);
      SortedUnique(a[1..], b[1..]);
    }
  }

  lemma LeastFirst(a: seq<string>, b: seq<string>)
    requires a != [] && b != [] && Sorted(b) && multiset(a) == multiset(b)
    ensures Leq(b[0], a[0])
  {
    hide Less;
    assert a[0] in multiset(b);
    var i :| 0 <= i < |b| && b[i] == a[0];
  }

  lemma SortedTail(a: seq<string>)
    requires a != [] && Sorted(a)
    ensures Sorted(a[1..])
  {
    hide Leq;
  }

  lemma WithoutFirst(a: seq<string>)
    requires a != []
    ensures multiset(a[1..]) == multiset(a) - multiset{a[0]}
  {
    assert a == [a[0]] + a[1..];
  }

  /* Sets of strings as lists */

  function Elems(s: seq<string>): set<string> {
    set x | x in s
  }

  ghost predicate Distinct(s: seq<string>) {
    forall i, j :: 0 <= i < j < |s| ==> s[i] != s[j]
  }

  lemma ElemsEmpty(s: seq<string>)
    ensures Elems(s) == {} <==> s == []
    ensures s == [] ==> Distinct(s)
  {
    if s != [] {
      assert s[0] in Elems(s);
    }
  }

  lemma ElemsSnoc(s: seq<string>, x: string)
    ensures Elems(s + [x]) == Elems(s) + {x}
    ensures Distinct(s) && x !in Elems(s) ==> Distinct(s + [x])
  {
    assert forall i :: 0 <= i < |s| ==> s[i] in Elems(s);
    assert Elems(s + [x]) == Elems(s) + {x} by {
      assert forall y :: y in s + [x] <==> y in s || y == x;
    }
  }

  lemma StrictIsSortedAndDistinct(s: seq<string>)
    requires StrictlySorted(s)
    ensures Sorted(s) && Distinct(s)
  {
    forall i, j | 0 <= i < j < |s| ensures s[i] != s[j] {
      LessIrreflexive(s[i]);
    }
  }

  lemma {:induction false} StrictUnique(a: seq<string>, b: seq<string>)
    requires StrictlySorted(a) && StrictlySorted(b) && Elems(a) == Elems(b)
    ensures a == b
  {
    StrictIsSortedAndDistinct(a);
    StrictIsSortedAndDistinct(b);
    ElemsEmpty(a);
    ElemsEmpty(b);
    if a != [] {
      assert a[0] in Elems(b) && b[0] in Elems(a);
      var i :| 0 <= i < |b| && b[i] == a[0];
      var j :| 0 <= j < |a| && a[j] == b[0];
      LeqAntisymmetric(a[0], b[0]);
      assert a == [a[0]] + a[1..] && b == [b[0]] + b[1..];
      assert Elems(a[1..]) == Elems(a) - {a[0]};
      assert Elems(b[1..]) == Elems(b) - {b[0]};
      StrictUnique(a[1..], b[1..]);
    }
  }

  /** The strictly sorted list of a set. */
  ghost function SortedSeq(keys: set<string>): (r: seq<string>)
    ensures StrictlySorted(r) && Elems(r) == keys && |r| == |keys|
  {
    if keys == {} then []
    else
      var x :| x in keys;
      var t := SortedSeq(keys - {x});
      var r := Insert(x, t);
      assert StrictlySorted(r) && Elems(r) == keys && |r| == |keys| by {
        InsertStrict(x, t);
      }
      r
  }

  lemma InsertStrict(x: string, t: seq<string>)
    requires StrictlySorted(t) && x !in t
    ensures StrictlySorted(Insert(x, t)) && Elems(Insert(x, t)) == Elems(t) + {x}
    ensures |Insert(x, t)| == |t| + 1
  {
    StrictIsSortedAndDistinct(t);
    var r := Insert(x, t);
    assert |r| == |multiset(r)| == |t| + 1;
    SameElems(r, [x] + t);
    assert Elems([x] + t) == Elems(t) + {x};
    forall y ensures multiset(r)[y] <= 1 {
      OnceInDistinct(t, y);
    }
    SortedOnceIsStrict(r);
  }

  lemma SameElems(a: seq<string>, b: seq<string>)
    requires multiset(a) == multiset(b)
    ensures Elems(a) == Elems(b)
  {
    assert forall y :: y in a <==> y in multiset(a);
    assert forall y :: y in b <==> y in multiset(b);
  }

  lemma SortedOnceIsStrict(r: seq<string>)
    requires Sorted(r) && forall y :: multiset(r)[y] <= 1
    ensures StrictlySorted(r)
  {
    forall i, j | 0 <= i < j < |r| ensures Less(r[i], r[j]) {
      if r[i] == r[j] {
        TwiceInSeq(r, i, j);
      }
    }
  }

  lemma TwiceInSeq<T>(s: seq<T>, i: nat, j: nat)
    requires i < j < |s| && s[i] == s[j]
    ensures multiset(s)[s[i]] >= 2
  {
    assert s == s[..i] + [s[i]] + s[i+1..j] + [s[j]] + s[j+1..];
  }

  lemma {:induction false} OnceInDistinct(s: seq<string>, x: string)
    requires Distinct(s)
    ensures multiset(s)[x] <= 1
  {
    if s != [] {
      assert s == [s[0]] + s[1..];
      OnceInDistinct(s[1..], x);
      if x == s[0] {
        assert x !in s[1..];
      }
    }
  }

  /**
   * `sortedKeys`: a Go map is ranged over in an arbitrary order, and the sort makes the answer
   * independent of it.
   */
  method SortedKeys(keys: set<string>) returns (r: seq<string>)
    ensures r == SortedSeq(keys)
  {
    hide *;
    r := [];
    ElemsEmpty(r);
    var todo := keys;
    while todo != {}
      invariant todo <= keys && Elems(r) == keys - todo
      invariant Distinct(r)
      decreases todo
    {
      var k :| k in todo;
      ElemsSnoc(r, k);
      r := r + [k];
      todo := todo - {k};
    }
    SortOfDistinct(r);
    r := Sort(r);
  }

  lemma SortOfDistinct(s: seq<string>)
    requires Distinct(s)
    ensures Sort(s) == SortedSeq(Elems(s))
  {
    SameElems(Sort(s), s);
    forall y ensures multiset(s)[y] <= 1 {
      OnceInDistinct(s, y);
    }
    SortedOnceIsStrict(Sort(s));
    StrictUnique(Sort(s), SortedSeq(Elems(s)));
  }

  /* Joining */

  /** `strings.Join(s, ",")`. */
  function Join(s: seq<string>): string {
    if s == [] then ""
    else if |s| == 1 then s[0]
    else s[0] + "," + Join(s[1..])
  }
}
