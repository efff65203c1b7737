/** Facts about sequences without repetitions, and the sort that orders `_sd` digests. */
module Sequences {
  ghost predicate NoDup<T(!new)>(s: seq<T>) {
    forall i, j :: 0 <= i < j < |s| ==> s[i] != s[j]
  }

  ghost predicate Disjoint<T(!new)>(a: seq<T>, b: seq<T>) {
    forall x :: x in a ==> x !in b
  }

  ghost function Elements<T(!new)>(s: seq<T>): set<T> {
    set x | x in s
  }

  lemma Snoc<T>(s: seq<T>, x: T)
    ensures (s + [x])[..|s + [x]| - 1] == s
    ensures (s + [x])[|s + [x]| - 1] == x
  {
  }

  lemma UnionAssociates<T>(a: set<T>, b: set<T>, c: set<T>)
    ensures (a + b) + c == a + (b + c)
  {
  }

  lemma NoDupConcat<T(!new)>(a: seq<T>, b: seq<T>)
    ensures NoDup(a + b) <==> NoDup(a) && NoDup(b) && Disjoint(a, b)
  {
    var s := a + b;
    if NoDup(s) {
      forall i, j | 0 <= i < j < |a| ensures a[i] != a[j] { assert s[i] != s[j]; }
      forall i, j | 0 <= i < j < |b| ensures b[i] != b[j] { assert s[|a| + i] != s[|a| + j]; }
      forall i, j | 0 <= i < |a| && 0 <= j < |b| ensures a[i] != b[j] { assert s[i] != s[|a| + j]; }
    }
    if NoDup(a) && NoDup(b) && Disjoint(a, b) {
      forall i, j | 0 <= i < j < |s| ensures s[i] != s[j] {
        if j < |a| {
          assert a[i] != a[j];
        } else if i >= |a| {
          assert b[i - |a|] != b[j - |a|];
        } else {
          assert s[i] in a && s[j] in b;
        }
      }
    }
  }

  lemma NoDupMultiset<T(!new)>(s: seq<T>)
    ensures NoDup(s) <==> forall x :: multiset(s)[x] <= 1
  {
    if s != [] {
      var n := |s| - 1;
      NoDupMultiset(s[..n]);
      assert s == s[..n] + [s[n]];
      if NoDup(s) {
        assert s[n] !in s[..n];
        assert multiset(s[..n])[s[n]] == 0;
      } else if NoDup(s[..n]) {
        var i, j :| 0 <= i < j < |s| && s[i] == s[j];
        assert j == n && s[..n][i] == s[n];
        assert s[n] in multiset(s[..n]);
        assert multiset(s)[s[n]] >= 2;
      } else {
        var x :| multiset(s[..n])[x] > 1;
        assert multiset(s)[x] > 1;
      }
    }
  }

  /** A sequence has no repetition exactly when any reordering of it has none. */
  lemma NoDupPermutation<T(!new)>(a: seq<T>, b: seq<T>)
    requires multiset(a) == multiset(b)
    ensures NoDup(a) <==> NoDup(b)
    ensures Elements(a) == Elements(b)
  {
    NoDupMultiset(a);
    NoDupMultiset(b);
    assert forall x :: x in a <==> x in multiset(a);
    assert forall x :: x in b <==> x in multiset(b);
  }

  /** Rust's order on strings. */
  predicate StringLeq(a: string, b: string) {
    a == "" || (b != "" && (a[0] < b[0] || (a[0] == b[0] && StringLeq(a[1..], b[1..]))))
  }

  function Insert(x: string, s: seq<string>): (r: seq<string>)
    ensures multiset(r) == multiset(s) + multiset{x}
  {
    if s == [] then [x]
    else
      var n := |s| - 1;
      assert s == s[..n] + [s[n]];
      if StringLeq(s[n], x) then s + [x] else Insert(x, s[..n]) + [s[n]]
  }

  function Sort(s: seq<string>): (r: seq<string>)
    ensures multiset(r) == multiset(s)
    ensures |r| == |s|
  {
    if s == [] then []
    else
      var n := |s| - 1;
      assert s == s[..n] + [s[n]];
      var r := Insert(s[n], Sort(s[..n]));
      assert |multiset(r)| == |r|;
      r
  }

  ghost predicate Sorted(s: seq<string>) {
    forall i, j :: 0 <= i <= j < |s| ==> StringLeq(s[i], s[j])
  }

  lemma StringLeqTotal(a: string, b: string)
    ensures StringLeq(a, b) || StringLeq(b, a)
    ensures StringLeq(a, a)
  {
  }

  lemma StringLeqTransitive(a: string, b: string, c: string)
    requires StringLeq(a, b) && StringLeq(b, c)
    ensures StringLeq(a, c)
  {
  }

  lemma {:induction false} InsertSorted(x: string, s: seq<string>)
    requires Sorted(s)
    ensures Sorted(Insert(x, s))
  {
    if s == [] {
      StringLeqTotal(x, x);
    } else {
      var n := |s| - 1;
      var r := Insert(x, s);
      if StringLeq(s[n], x) {
        forall i, j | 0 <= i <= j < |r| ensures StringLeq(r[i], r[j]) {
          StringLeqTotal(x, x);
          if i < n + 1 && j == n + 1 {
            StringLeqTransitive(s[i], s[n], x);
          }
        }
      } else {
        InsertSorted(x, s[..n]);
        StringLeqTotal(s[n], x);
        var front := Insert(x, s[..n]);
        forall i | 0 <= i < |front| ensures StringLeq(front[i], s[n]) {
          assert front[i] in multiset(front);
          assert front[i] in multiset(s[..n]) || front[i] == x;
        }
        StringLeqTotal(s[n], s[n]);
      }
    }
  }

  lemma {:induction false} SortSorted(s: seq<string>)
    ensures Sorted(Sort(s))
  {
    if s != [] {
      var n := |s| - 1;
      SortSorted(s[..n]);
      InsertSorted(s[n], Sort(s[..n]));
    }
  }

  ghost predicate Ascending(s: seq<nat>) {
    forall i, j :: 0 <= i <= j < |s| ==> s[i] <= s[j]
  }

  lemma BagFront<T>(s: seq<T>)
    requires s != []
    ensures multiset(s[..|s| - 1]) == multiset(s) - multiset{s[|s| - 1]}
  {
    assert s == s[..|s| - 1] + [s[|s| - 1]];
  }

  lemma BagWithout<T>(s: seq<T>, i: nat)
    requires i < |s|
    ensures multiset(s[..i] + s[i + 1..]) == multiset(s) - multiset{s[i]}
  {
    assert s == s[..i] + ([s[i]] + s[i + 1..]);
  }

  lemma SameLength<T>(a: seq<T>, b: seq<T>)
    requires multiset(a) == multiset(b)
    ensures |a| == |b|
  {
    assert |multiset(a)| == |a| && |multiset(b)| == |b|;
  }

  lemma SameLast(a: seq<nat>, b: seq<nat>)
    requires Ascending(a) && Ascending(b) && multiset(a) == multiset(b) && a != [] && b != []
    ensures a[|a| - 1] == b[|b| - 1]
  {
    assert a[|a| - 1] in multiset(b);
    assert b[|b| - 1] in multiset(a);
  }

  /** There is one ascending order of a bag of numbers. */
  lemma {:induction false} AscendingUnique(a: seq<nat>, b: seq<nat>)
    requires Ascending(a) && Ascending(b) && multiset(a) == multiset(b)
    ensures a == b
  {
    SameLength(a, b);
    if a != [] {
      var n := |a| - 1;
      SameLast(a, b);
      BagFront(a);
      BagFront(b);
      AscendingUnique(a[..n], b[..n]);
      assert a == a[..n] + [a[n]] && b == b[..n] + [b[n]];
    }
  }

  function Mapped<T, U>(s: seq<T>, f: T -> U): (r: seq<U>)
    ensures |r| == |s|
    ensures forall i :: 0 <= i < |s| ==> r[i] == f(s[i])
  {
    seq(|s|, i requires 0 <= i < |s| => f(s[i]))
  }

  lemma MappedWithout<T, U>(s: seq<T>, i: nat, f: T -> U)
    requires i < |s|
    ensures multiset(Mapped(s, f)) == multiset(Mapped(s[..i] + s[i + 1..], f)) + multiset{f(s[i])}
  {
    var front, back := Mapped(s[..i], f), Mapped(s[i + 1..], f);
    assert Mapped(s, f) == front + ([f(s[i])] + back);
    assert Mapped(s[..i] + s[i + 1..], f) == front + back;
  }

  /** Mapping a reordered sequence reorders the result. */
  lemma {:induction false} MapPermutes<T, U>(a: seq<T>, b: seq<T>, f: T -> U)
    requires multiset(a) == multiset(b)
    ensures multiset(Mapped(a, f)) == multiset(Mapped(b, f))
    decreases |a|
  {
    SameLength(a, b);
    if a != [] {
      var n := |a| - 1;
      assert a[n] in multiset(b);
      var i :| 0 <= i < |b| && b[i] == a[n];
      BagFront(a);
      BagWithout(b, i);
      MapPermutes(a[..n], b[..i] + b[i + 1..], f);
      MappedWithout(b, i, f);
      MappedWithout(a, n, f);
      assert a[..n] + a[n + 1..] == a[..n];
    }
  }
}
