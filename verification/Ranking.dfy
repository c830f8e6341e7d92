/**
 * The order in which suggestions are listed: by falling popularity, then by term. Sorting is
 * Python's `sort`, a library call, given here as a function.
 */
module Ranking {

  datatype TermData = TermData(term: string, category: string, popularity: int)

  /** Strings are compared character by character, a prefix coming first. */
  predicate Less(a: string, b: string) {
    b != "" && (a == "" || a[0] < b[0] || (a[0] == b[0] && Less(a[1..], b[1..])))
  }

  lemma {:induction false} LessTotal(a: string, b: string)
    ensures a == b || Less(a, b) || Less(b, a)
    ensures !(Less(a, b) && (a == b || Less(b, a)))
  {
    if a != "" && b != "" {
      LessTotal(a[1..], b[1..]);
      assert a == [a[0]] + a[1..] && b == [b[0]] + b[1..];
    }
  }

  lemma {:induction false} LessTransitive(a: string, b: string, c: string)
    requires Less(a, b) && Less(b, c)
    ensures Less(a, c)
  {
    if a != "" && a[0] == b[0] == c[0] { LessTransitive(a[1..], b[1..], c[1..]); }
  }

  /** At `n` the strings part: they agree before it, and there the first ends or has the lower character. */
  predicate PartAt(a: string, b: string, n: nat) {
    n <= |a| && n < |b| && a[..n] == b[..n] && (n == |a| || a[n] < b[n])
  }

  lemma {:induction false} LessMeaning(a: string, b: string)
    ensures Less(a, b) <==> exists n: nat :: PartAt(a, b, n)
  {
    if a != "" && b != "" && a[0] == b[0] {
      LessMeaning(a[1..], b[1..]);
      assert a == [a[0]] + a[1..] && b == [b[0]] + b[1..];
      if n: nat :| PartAt(a[1..], b[1..], n) {
        assert a[..n + 1] == [a[0]] + a[1..][..n] && b[..n + 1] == [b[0]] + b[1..][..n];
        assert PartAt(a, b, n + 1);
      }
      if n: nat :| PartAt(a, b, n) {
        assert a[1..][..n - 1] == a[..n][1..] && b[1..][..n - 1] == b[..n][1..];
        assert PartAt(a[1..], b[1..], n - 1);
      }
    } else {
      assert Less(a, b) ==> PartAt(a, b, 0);
      assert forall n: nat :: PartAt(a, b, n) && n > 0 ==> a[..n][0] == a[0] && b[..n][0] == b[0];
    }
  }

  /** `a` is listed before `b`. */
  predicate Before(a: TermData, b: TermData) {
    a.popularity > b.popularity || (a.popularity == b.popularity && Less(a.term, b.term))
  }

  lemma BeforeTransitive(a: TermData, b: TermData, c: TermData)
    requires Before(a, b) && Before(b, c)
    ensures Before(a, c)
  {
    if a.popularity == b.popularity == c.popularity { LessTransitive(a.term, b.term, c.term); }
  }

  /** Two entries with different terms are always ordered, and only one way. */
  lemma BeforeTotal(a: TermData, b: TermData)
    ensures a.term != b.term ==> Before(a, b) || Before(b, a)
    ensures Before(a, b) ==> !Before(b, a) && a != b
  {
    LessTotal(a.term, b.term);
  }

  function Insert(d: TermData, s: seq<TermData>): seq<TermData> {
    if s == [] || Before(d, s[0]) then [d] + s else [s[0]] + Insert(d, s[1..])
  }

  function Sorted(s: seq<TermData>): seq<TermData> {
    if s == [] then [] else Insert(s[0], Sorted(s[1..]))
  }

  predicate InOrder(s: seq<TermData>) {
    forall i, j :: 0 <= i < j < |s| ==> Before(s[i], s[j])
  }

  predicate DistinctTerms(s: seq<TermData>) {
    forall i, j :: 0 <= i < j < |s| ==> s[i].term != s[j].term
  }

  lemma {:induction false} InsertInOrder(d: TermData, s: seq<TermData>)
    requires InOrder(s) && forall k :: 0 <= k < |s| ==> s[k].term != d.term
    ensures multiset(Insert(d, s)) == multiset(s) + multiset{d}
    ensures forall x :: x in Insert(d, s) <==> x == d || x in s
    ensures InOrder(Insert(d, s))
  {
    if s == [] {
    } else if Before(d, s[0]) {
      forall j | 0 <= j < |s| ensures Before(d, s[j]) {
        if j > 0 { BeforeTransitive(d, s[0], s[j]); }
      }
    } else {
      BeforeTotal(d, s[0]);
      InsertInOrder(d, s[1..]);
      var r := Insert(d, s[1..]);
      assert s == [s[0]] + s[1..];
      forall j | 0 <= j < |r| ensures Before(s[0], r[j]) {
        assert r[j] in r;
        if r[j] != d { var k :| 0 <= k < |s[1..]| && s[1..][k] == r[j]; assert s[1..][k] == s[k + 1]; }
      }
    }
  }

  lemma {:induction false} SortedInOrder(s: seq<TermData>)
    requires DistinctTerms(s)
    ensures multiset(Sorted(s)) == multiset(s)
    ensures forall x :: x in Sorted(s) <==> x in s
    ensures InOrder(Sorted(s))
  {
    if s != [] {
      SortedInOrder(s[1..]);
      var r := Sorted(s[1..]);
      assert s == [s[0]] + s[1..];
      forall k | 0 <= k < |r| ensures r[k].term != s[0].term {
        assert r[k] in s[1..];
      }
      InsertInOrder(s[0], r);
    }
  }

  lemma FirstIsLeast(s: seq<TermData>, x: TermData)
    requires InOrder(s) && x in s
    ensures x == s[0] || Before(s[0], x)
  {
  }

  /** Nothing but the members decides an ordered list. */
  lemma {:induction false} InOrderUnique(s: seq<TermData>, t: seq<TermData>)
    requires InOrder(s) && InOrder(t) && forall x :: x in s <==> x in t
    ensures s == t
  {
    assert t != [] ==> t[0] in s;
    assert s != [] ==> s[0] in t;
    if s != [] {
      FirstIsLeast(s, t[0]);
      FirstIsLeast(t, s[0]);
      BeforeTotal(s[0], t[0]);
      TailMembers(s);
      TailMembers(t);
      InOrderUnique(s[1..], t[1..]);
    }
  }

  lemma TailMembers(s: seq<TermData>)
    requires s != [] && InOrder(s)
    ensures InOrder(s[1..]) && forall x :: x in s[1..] <==> x in s && x != s[0]
  {
    assert s == [s[0]] + s[1..];
    forall k | 1 <= k < |s| ensures s[k] != s[0] { BeforeTotal(s[0], s[k]); }
    forall x | x in s[1..] ensures x != s[0] { var k :| 0 <= k < |s[1..]| && s[1..][k] == x; assert x == s[k + 1]; }
  }

  /** Sorting forgets the order in which entries were collected. */
  lemma SortedForgetsOrder(s: seq<TermData>, t: seq<TermData>)
    requires DistinctTerms(s) && DistinctTerms(t) && forall x :: x in s <==> x in t
    ensures Sorted(s) == Sorted(t)
  {
    SortedInOrder(s);
    SortedInOrder(t);
    InOrderUnique(Sorted(s), Sorted(t));
  }

  /** Python's `s[:n]`: a negative `n` leaves off the last entries. */
  function Take(s: seq<TermData>, n: int): (r: seq<TermData>)
    ensures r <= s
    ensures |r| == if n < 0 then (if |s| + n < 0 then 0 else |s| + n) else if n < |s| then n else |s|
  {
    if n >= |s| then s else if n >= 0 then s[..n] else if |s| + n >= 0 then s[..|s| + n] else []
  }
}
