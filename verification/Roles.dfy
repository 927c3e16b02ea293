/** `rolesEqual`: order-independent comparison of two role lists through sorted, comma-joined text. */
module Roles {
  import opened Strings

  predicate RolesEqual(a: seq<string>, b: seq<string>) {
    |a| == |b| && Join(Sort(a)) == Join(Sort(b))
  }

  ghost predicate CommaFree(roles: seq<string>) {
    forall r :: r in roles ==> ',' !in r
  }

  /** Every key of the list is spelled with characters of `alphabet`. */
  ghost predicate SpelledIn(roles: seq<string>, alphabet: set<char>) {
    forall r, c :: r in roles && c in r ==> c in alphabet
  }

  function Commas(s: string): nat {
    multiset(s)[',']
  }

  function TotalCommas(roles: seq<string>): nat {
    if roles == [] then 0 else Commas(roles[0]) + TotalCommas(roles[1..])
  }

  lemma {:induction false} JoinCommas(roles: seq<string>)
    requires roles != []
    ensures Commas(Join(roles)) == |roles| - 1 + TotalCommas(roles)
  {
    if |roles| > 1 {
      JoinCommas(roles[1..]);
    }
  }

  lemma {:induction false} TotalCommasZero(roles: seq<string>)
    ensures TotalCommas(roles) == 0 <==> CommaFree(roles)
  {
    if roles != [] {
      TotalCommasZero(roles[1..]);
      assert ',' in roles[0] <==> ',' in multiset(roles[0]);
      assert forall r :: r in roles <==> r == roles[0] || r in roles[1..];
    }
  }

  lemma FirstComma(x: string, s: string, y: string, t: string)
    requires ',' !in x && ',' !in y
    requires x + "," + s == y + "," + t
    ensures x == y && s == t
  {
    var l := x + "," + s;
    var r := y + "," + t;
    assert l[|x|] == ',' && forall i :: 0 <= i < |x| ==> l[i] == x[i] && x[i] in x;
    assert r[|y|] == ',' && forall i :: 0 <= i < |y| ==> r[i] == y[i] && y[i] in y;
    assert |x| == |y|;
    assert x == l[..|x|] == r[..|y|] == y;
    assert s == l[|x| + 1..] == r[|y| + 1..] == t;
  }

  lemma {:induction false} JoinInjective(a: seq<string>, b: seq<string>)
    requires |a| == |b| && CommaFree(a) && CommaFree(b) && Join(a) == Join(b)
    ensures a == b
  {
    if |a| > 1 {
      FirstComma(a[0], Join(a[1..]), b[0], Join(b[1..]));
      JoinInjective(a[1..], b[1..]);
      assert a == [a[0]] + a[1..] && b == [b[0]] + b[1..];
    }
  }

  lemma SortKeepsCommaFree(roles: seq<string>)
    ensures CommaFree(Sort(roles)) <==> CommaFree(roles)
  {
    assert forall r :: r in roles <==> r in multiset(roles);
    assert forall r :: r in Sort(roles) <==> r in multiset(Sort(roles));
  }

  /** One comma-free side is enough: then the text comparison is exactly equality as multisets. */
  lemma RolesEqualIsMultisetEquality(a: seq<string>, b: seq<string>)
    requires CommaFree(a) || CommaFree(b)
    ensures RolesEqual(a, b) <==> multiset(a) == multiset(b)
  {
    if multiset(a) == multiset(b) {
      assert |a| == |multiset(a)| == |multiset(b)| == |b|;
      SortedUnique(Sort(a), Sort(b));
    }
    if RolesEqual(a, b) && a != [] {
      JoinCommas(Sort(a));
      JoinCommas(Sort(b));
      TotalCommasZero(Sort(a));
      TotalCommasZero(Sort(b));
      SortKeepsCommaFree(a);
      SortKeepsCommaFree(b);
      JoinInjective(Sort(a), Sort(b));
    }
  }

  lemma PairSorted(x: string, y: string)
    requires Leq(x, y)
    ensures Join(Sort([x, y])) == x + "," + y
  {
    hide Sort, Leq;
    SortedUnique(Sort([x, y]), [x, y]);
  }

  /**
   * Two different role lists the comparison takes for equal: a key may contain the separator. Both
   * are strictly sorted and without empty keys, as the rule engine's lists are.
   */
  lemma CommaCollision()
    ensures RolesEqual([",", ",,,,"], [",,", ",,,"])
    ensures multiset([",", ",,,,"]) != multiset([",,", ",,,"])
    ensures StrictlySorted([",", ",,,,"]) && StrictlySorted([",,", ",,,"])
  {
    hide Sort;
    var a, b := [",", ",,,,"], [",,", ",,,"];
    assert multiset(a)[","] == 1 && multiset(b)[","] == 0;
    assert Less(a[0], a[1]) && Less(b[0], b[1]);
    PairSorted(",", ",,,,");
    PairSorted(",,", ",,,");
  }

  lemma SpelledWithoutComma(a: seq<string>, alphabet: set<char>)
    requires SpelledIn(a, alphabet) && ',' !in alphabet
    ensures CommaFree(a)
  {
  }

  /**
   * Exactly when the comparison is right: over an alphabet of role-key characters it decides
   * multiset equality for all lists if and only if the comma is not in the alphabet.
   */
  lemma RolesEqualExact(alphabet: set<char>)
    ensures ',' !in alphabet <==>
            forall a, b :: SpelledIn(a, alphabet) && SpelledIn(b, alphabet) ==>
                             (RolesEqual(a, b) <==> multiset(a) == multiset(b))
  {
    hide RolesEqual, StrictlySorted;
    if ',' !in alphabet {
      forall a, b | SpelledIn(a, alphabet) && SpelledIn(b, alphabet)
        ensures RolesEqual(a, b) <==> multiset(a) == multiset(b)
      {
        SpelledWithoutComma(a, alphabet);
        RolesEqualIsMultisetEquality(a, b);
      }
    } else {
      CommaCollision();
      assert SpelledIn([",", ",,,,"], alphabet) && SpelledIn([",,", ",,,"], alphabet);
    }
  }
}
