/** Identifiers, their order, and the library sort the services rely on. */
module Ids {

  type Id = string

  datatype Option<+T> = None | Some(value: T) {
    function GetOr(default: T): T {
      match this
      case Some(v) => v
      case None => default
    }
  }

  /** The order of the services' string sort: lexicographic by code unit. */
  predicate Less(a: Id, b: Id) {
    b != "" && (a == "" || a[0] < b[0] || (a[0] == b[0] && Less(a[1..], b[1..])))
  }

  /** The first code unit that differs decides; a proper prefix comes first. */
  ghost predicate FirstDifference(a: Id, b: Id, n: nat) {
    n <= |a| && n < |b| && a[..n] == b[..n] && (n == |a| || a[n] < b[n])
  }

  lemma {:induction false} LessIsLexicographic(a: Id, b: Id)
    ensures Less(a, b) <==> exists n: nat :: FirstDifference(a, b, n)
  {
    forall n: nat ensures FirstDifference(a, b, n) && n > 0 ==> a != "" && b != "" && a[0] == b[0] {
      if FirstDifference(a, b, n) && n > 0 { assert a[..n][0] == b[..n][0]; }
    }
    if a != "" && b != "" && a[0] == b[0] {
      LessIsLexicographic(a[1..], b[1..]);
      if Less(a, b) {
        var n: nat :| FirstDifference(a[1..], b[1..], n);
        assert a[..n + 1] == [a[0]] + a[1..][..n] && b[..n + 1] == [b[0]] + b[1..][..n];
        assert FirstDifference(a, b, n + 1);
      } else if n: nat :| FirstDifference(a, b, n) {
        assert n > 0;
        assert a[1..][..n - 1] == a[..n][1..] && b[1..][..n - 1] == b[..n][1..];
        assert FirstDifference(a[1..], b[1..], n - 1);
      }
    } else if Less(a, b) {
      assert FirstDifference(a, b, 0);
    }
  }

  lemma {:induction false} LessIrreflexive(a: Id)
    ensures !Less(a, a)
  {
    if a != "" {
      LessIrreflexive(a[1..]);
    }
  }

  lemma {:induction false} LessTransitive(a: Id, b: Id, c: Id)
    requires Less(a, b) && Less(b, c)
    ensures Less(a, c)
  {
    if a != "" && a[0] == b[0] && b[0] == c[0] {
      LessTransitive(a[1..], b[1..], c[1..]);
    }
  }

  lemma {:induction false} LessTotal(a: Id, b: Id)
    ensures Less(a, b) || a == b || Less(b, a)
  {
    if a != "" && b != "" && a[0] == b[0] {
      LessTotal(a[1..], b[1..]);
      assert a == [a[0]] + a[1..] && b == [b[0]] + b[1..];
    }
  }

  lemma LessAsymmetric(a: Id, b: Id)
    requires Less(a, b)
    ensures !Less(b, a) && a != b
  {
    if Less(b, a) {
      LessTransitive(a, b, a);
    }
    LessIrreflexive(a);
  }

  /** Strictly increasing, hence also free of duplicates. */
  predicate Sorted(s: seq<Id>) {
    forall i, j :: 0 <= i < j < |s| ==> Less(s[i], s[j])
  }

  /** Non-decreasing by a key. */
  predicate SortedBy<T>(s: seq<T>, key: T -> Id) {
    forall i, j :: 0 <= i < j < |s| ==> !Less(key(s[j]), key(s[i]))
  }

  predicate NoDup<T(==)>(s: seq<T>) {
    forall i, j :: 0 <= i < j < |s| ==> s[i] != s[j]
  }

  function Elems<T>(s: seq<T>): set<T> {
    set x | x in s
  }

  lemma ElemsAppend<T>(s: seq<T>, x: T)
    ensures Elems(s + [x]) == Elems(s) + {x}
  {
    forall y ensures y in Elems(s + [x]) <==> y in Elems(s) + {x} {
      if y in s {
        var i :| 0 <= i < |s| && s[i] == y;
        assert (s + [x])[i] == y;
      }
      assert (s + [x])[|s|] == x;
    }
  }

  lemma ElemsPrefix<T>(s: seq<T>, i: nat)
    requires i < |s|
    ensures Elems(s[..i + 1]) == Elems(s[..i]) + {s[i]}
  {
    ElemsAppend(s[..i], s[i]);
    assert s[..i + 1] == s[..i] + [s[i]];
  }

  lemma SplitAt<T>(s: seq<T>, i: nat)
    requires i < |s|
    ensures s[..i] + [s[i]] == s[..i + 1] && s[..i + 1][..i] == s[..i]
  {
  }

  lemma ElemsNone<T>(s: seq<T>)
    ensures Elems(s[..0]) == {}
  {
  }

  lemma ElemsAll<T>(s: seq<T>, n: nat)
    requires n == |s|
    ensures Elems(s[..n]) == Elems(s)
  {
    assert s[..n] == s;
  }

  lemma NoDupAppend<T>(s: seq<T>, x: T)
    ensures NoDup(s + [x]) <==> NoDup(s) && x !in s
  {
    var t := s + [x];
    if NoDup(t) {
      assert forall i :: 0 <= i < |s| ==> t[i] == s[i];
      forall i | 0 <= i < |s| ensures s[i] != x {
        assert t[i] != t[|s|];
      }
      forall i, j | 0 <= i < j < |s| ensures s[i] != s[j] {
        assert t[i] != t[j];
      }
    }
  }

  function InsertBy<T>(x: T, s: seq<T>, key: T -> Id): seq<T> {
    if s == [] then [x]
    else if Less(key(s[0]), key(x)) then [s[0]] + InsertBy(x, s[1..], key)
    else [x] + s
  }

  /** A stand-in for the library sort; only its ordering and contents are used. */
  function SortBy<T>(s: seq<T>, key: T -> Id): seq<T> {
    if s == [] then [] else InsertBy(s[0], SortBy(s[1..], key), key)
  }

  function SortIds(s: seq<Id>): seq<Id> {
    SortBy(s, (x: Id) => x)
  }

  lemma {:induction false} InsertByContents<T>(x: T, s: seq<T>, key: T -> Id)
    ensures multiset(InsertBy(x, s, key)) == multiset(s) + multiset{x}
  {
    if s != [] {
      InsertByContents(x, s[1..], key);
      assert s == [s[0]] + s[1..];
    }
  }

  /** Nothing in `s` comes before what its first element does not follow. */
  lemma HeadBounds<T>(x: T, s: seq<T>, key: T -> Id, j: nat)
    requires SortedBy(s, key) && j < |s| && !Less(key(s[0]), key(x))
    ensures !Less(key(s[j]), key(x))
  {
    if Less(key(s[j]), key(x)) {
      LessTotal(key(s[0]), key(x));
      if j > 0 && key(s[0]) != key(x) {
        LessTransitive(key(s[j]), key(x), key(s[0]));
      }
    }
  }

  lemma {:induction false} InsertByProps<T>(x: T, s: seq<T>, key: T -> Id)
    requires SortedBy(s, key)
    ensures SortedBy(InsertBy(x, s, key), key)
    ensures multiset(InsertBy(x, s, key)) == multiset(s) + multiset{x}
  {
    InsertByContents(x, s, key);
    if s == [] {
    } else if Less(key(s[0]), key(x)) {
      var r := InsertBy(x, s[1..], key);
      InsertByProps(x, s[1..], key);
      LessAsymmetric(key(s[0]), key(x));
      hide InsertBy, Less;
      forall j | 0 <= j < |r| ensures !Less(key(r[j]), key(s[0])) {
        assert r[j] in multiset(r);
        if r[j] != x {
          assert r[j] in s[1..];
          var k :| 0 <= k < |s[1..]| && s[1..][k] == r[j];
          assert s[k + 1] == r[j];
        }
      }
    } else {
      forall j | 0 <= j < |s| ensures !Less(key(s[j]), key(x)) {
        HeadBounds(x, s, key, j);
      }
    }
  }

  lemma {:induction false} SortByProps<T>(s: seq<T>, key: T -> Id)
    ensures SortedBy(SortBy(s, key), key)
    ensures multiset(SortBy(s, key)) == multiset(s)
  {
    if s != [] {
      SortByProps(s[1..], key);
      InsertByProps(s[0], SortBy(s[1..], key), key);
      assert s == [s[0]] + s[1..];
    }
  }

  lemma MultisetFacts<T>(s: seq<T>, t: seq<T>)
    requires multiset(s) == multiset(t)
    ensures |s| == |t| && Elems(s) == Elems(t) && (NoDup(s) ==> NoDup(t))
  {
    assert |multiset(s)| == |multiset(t)|;
    forall x ensures x in s <==> x in t {
      assert x in s <==> x in multiset(s);
      assert x in t <==> x in multiset(t);
    }
    if NoDup(s) {
      NoDupMultiset(s);
      forall i, j | 0 <= i < j < |t| ensures t[i] != t[j] {
        assert t == t[..i] + [t[i]] + t[i + 1..j] + [t[j]] + t[j + 1..];
        assert multiset(t)[t[i]] <= 1;
      }
    }
  }

  lemma {:induction false} NoDupMultiset<T>(s: seq<T>)
    requires NoDup(s)
    ensures forall x :: multiset(s)[x] <= 1
  {
    if s != [] {
      assert s == [s[0]] + s[1..];
      NoDupMultiset(s[1..]);
      assert s[0] !in s[1..];
    }
  }

  /** Sorting a duplicate-free list gives the strictly increasing list of its elements. */
  lemma SortIdsProps(s: seq<Id>)
    ensures |SortIds(s)| == |s| && Elems(SortIds(s)) == Elems(s)
    ensures NoDup(s) ==> Sorted(SortIds(s)) && NoDup(SortIds(s))
  {
    var r := SortIds(s);
    SortByProps(s, (x: Id) => x);
    MultisetFacts(s, r);
    if NoDup(s) {
      forall i, j | 0 <= i < j < |r| ensures Less(r[i], r[j]) {
        LessTotal(r[i], r[j]);
      }
    }
  }

  lemma SortedNoDup(s: seq<Id>)
    requires Sorted(s)
    ensures NoDup(s)
  {
    forall i, j | 0 <= i < j < |s| ensures s[i] != s[j] {
      LessIrreflexive(s[i]);
    }
  }

  lemma NoElems<T>(t: seq<T>)
    ensures t == [] || t[0] in Elems(t)
  {
  }

  /** A strictly increasing list is determined by its elements. */
  lemma {:induction false} SortedUnique(s: seq<Id>, t: seq<Id>)
    requires Sorted(s) && Sorted(t) && Elems(s) == Elems(t)
    ensures s == t
  {
    if s == [] {
      assert Elems(s) == {};
      NoElems(t);
    } else {
      assert s[0] in Elems(t);
      assert t != [] && t[0] in Elems(s);
      SameHead(s, t);
      forall x ensures x in s[1..] <==> x in t[1..] {
        TailMember(s, x);
        TailMember(t, x);
        assert x in Elems(s) <==> x in Elems(t);
      }
      SortedUnique(s[1..], t[1..]);
      assert s == [s[0]] + s[1..] && t == [t[0]] + t[1..];
    }
  }

  lemma SameHead(s: seq<Id>, t: seq<Id>)
    requires Sorted(s) && Sorted(t) && s != [] && t != [] && s[0] in t && t[0] in s
    ensures s[0] == t[0]
  {
    var i :| 0 <= i < |t| && t[i] == s[0];
    var j :| 0 <= j < |s| && s[j] == t[0];
    if i > 0 && j > 0 {
      LessAsymmetric(t[0], t[i]);
    }
  }

  lemma TailMember(s: seq<Id>, x: Id)
    requires Sorted(s) && s != []
    ensures x in s[1..] <==> x in s && x != s[0]
  {
    SortedNoDup(s);
    assert s == [s[0]] + s[1..];
    if x in s && x != s[0] {
      var i :| 0 <= i < |s| && s[i] == x;
      assert s[1..][i - 1] == x;
    }
  }

  lemma InElems<T>(s: seq<T>, i: nat)
    requires i < |s|
    ensures s[i] in Elems(s)
  {
  }

  lemma ConcatNoDup<T>(s: seq<T>, t: seq<T>)
    requires NoDup(s) && NoDup(t) && Elems(s) !! Elems(t)
    ensures NoDup(s + t) && Elems(s + t) == Elems(s) + Elems(t)
  {
    var r := s + t;
    forall x ensures x in Elems(r) <==> x in Elems(s) + Elems(t) {
      assert x in r <==> x in s || x in t;
    }
    forall i, j | 0 <= i < j < |r| ensures r[i] != r[j] {
      if i < |s| <= j {
        InElems(s, i);
        InElems(t, j - |s|);
      }
    }
  }

  /** Picking elements of an increasing list from left to right keeps them increasing. */
  lemma SortedAppend(ids: seq<Id>, i: nat, out: seq<Id>)
    requires Sorted(ids) && i < |ids| && Sorted(out) && Elems(out) <= Elems(ids[..i])
    ensures Sorted(out + [ids[i]]) && Elems(out + [ids[i]]) == Elems(out) + {ids[i]}
  {
    forall k | 0 <= k < |out| ensures Less(out[k], ids[i]) {
      assert out[k] in Elems(ids[..i]);
      var j :| 0 <= j < i && ids[..i][j] == out[k];
    }
    ElemsAppend(out, ids[i]);
  }

  /** The strictly increasing list of a finite set. */
  ghost function SortSet(S: set<Id>): (s: seq<Id>)
    ensures Sorted(s) && Elems(s) == S
    decreases |S|
  {
    if S == {} then []
    else
      LeastExists(S);
      var m :| IsLeast(m, S);
      var rest := SortSet(S - {m});
      assert forall x :: x in rest ==> x in Elems(rest);
      assert Elems([m] + rest) == S by {
        forall x ensures x in Elems([m] + rest) <==> x in S {
          assert x in Elems([m] + rest) <==> x == m || x in Elems(rest);
        }
      }
      [m] + rest
  }

  ghost predicate IsLeast(m: Id, S: set<Id>) {
    m in S && forall x :: x in S && x != m ==> Less(m, x)
  }

  lemma {:induction false} LeastExists(S: set<Id>)
    requires S != {}
    ensures exists m :: IsLeast(m, S)
    decreases |S|
  {
    var a :| a in S;
    if S == {a} {
      assert IsLeast(a, S);
    } else {
      LeastExists(S - {a});
      var m :| IsLeast(m, S - {a});
      LessTotal(a, m);
      if Less(a, m) {
        forall x | x in S && x != a ensures Less(a, x) {
          if x != m { LessTransitive(a, m, x); }
        }
        assert IsLeast(a, S);
      } else {
        assert IsLeast(m, S);
      }
    }
  }

  lemma LeastUnique(m: Id, n: Id, S: set<Id>)
    requires IsLeast(m, S) && IsLeast(n, S)
    ensures m == n
  {
    if m != n { LessAsymmetric(m, n); }
  }

  /** Sorting any duplicate-free enumeration of a set yields the set's sorted list. */
  lemma SortIdsIsSortSet(s: seq<Id>)
    requires NoDup(s)
    ensures SortIds(s) == SortSet(Elems(s))
  {
    SortIdsProps(s);
    SortedUnique(SortIds(s), SortSet(Elems(s)));
  }

  lemma {:induction false} NoDupCard<T>(s: seq<T>)
    requires NoDup(s)
    ensures |Elems(s)| == |s|
  {
    if s != [] {
      NoDupCard(s[1..]);
      assert s == [s[0]] + s[1..];
      assert Elems(s) == {s[0]} + Elems(s[1..]);
      assert s[0] !in Elems(s[1..]);
    }
  }

  /** A list longer than the set it draws from repeats an element. */
  lemma Pigeonhole<T>(s: seq<T>, S: set<T>)
    requires Elems(s) <= S && |s| > |S|
    ensures exists i, j :: 0 <= i < j < |s| && s[i] == s[j]
  {
    if NoDup(s) {
      NoDupCard(s);
      SubsetCard(Elems(s), S);
    }
  }

  lemma {:induction false} SubsetCard<T>(A: set<T>, B: set<T>)
    requires A <= B
    ensures |A| <= |B|
    ensures |A| == |B| ==> A == B
  {
    assert B == A + (B - A);
    assert |B| == |A| + |B - A|;
  }
}
