/** How one priority list of a resource is ordered, and which live request wins it.

    A list is filled by scanning from its head for the first node the newcomer is
    better than.  The four concurrency policies differ only in that comparison, so
    one theory covers them: the list is a stable sort of the requests that are still
    live, deleting a request commutes with sorting, and the head is the winner the
    policy promises. */
module PolicyOrder {
  import opened Wrappers

  datatype Policy = INSTANT_APPLY | HIGHER_BETTER | LOWER_BETTER | LAZY_APPLY | PASS_THROUGH

  /** Does newcomer `x` go in front of the listed `y`? */
  ghost predicate Better<T>(policy: Policy, key: T -> int, x: T, y: T) {
    match policy
    case INSTANT_APPLY => true
    case HIGHER_BETTER => key(x) > key(y)
    case LOWER_BETTER => key(x) < key(y)
    case LAZY_APPLY => false
    case PASS_THROUGH => false
  }

  /** The list after `x` was put in front of the first node it is better than. */
  ghost function InsertByPolicy<T>(policy: Policy, key: T -> int, s: seq<T>, x: T): (r: seq<T>)
    ensures |r| == |s| + 1
  {
    if s == [] then [x]
    else if Better(policy, key, x, s[0]) then [x] + s
    else [s[0]] + InsertByPolicy(policy, key, s[1..], x)
  }

  /** `s` without the first occurrence of `x`. */
  ghost function Without<T>(s: seq<T>, x: T): seq<T> {
    if s == [] then []
    else if s[0] == x then s[1..]
    else [s[0]] + Without(s[1..], x)
  }

  /** The list that arises from inserting the live requests in their order of arrival. */
  ghost function Arrange<T>(policy: Policy, key: T -> int, live: seq<T>): (r: seq<T>)
    ensures |r| == |live|
  {
    if live == [] then []
    else
      var n := |live| - 1;
      InsertByPolicy(policy, key, Arrange(policy, key, live[..n]), live[n])
  }

  /** What each policy promises about the request in force, stated on the live
      requests in order of arrival, without mentioning the list. */
  ghost predicate Winner<T>(policy: Policy, key: T -> int, live: seq<T>, i: int) {
    && 0 <= i < |live|
    && match policy
       case INSTANT_APPLY => i == |live| - 1
       case LAZY_APPLY => i == 0
       case PASS_THROUGH => i == 0
       case HIGHER_BETTER =>
         && (forall j :: 0 <= j < |live| ==> key(live[j]) <= key(live[i]))
         && (forall j :: 0 <= j < i ==> key(live[j]) < key(live[i]))
       case LOWER_BETTER =>
         && (forall j :: 0 <= j < |live| ==> key(live[j]) >= key(live[i]))
         && (forall j :: 0 <= j < i ==> key(live[j]) > key(live[i]))
  }

  lemma WinnerIsUnique<T>(policy: Policy, key: T -> int, live: seq<T>, i: int, j: int)
    requires Winner(policy, key, live, i) && Winner(policy, key, live, j)
    ensures i == j
  {
    var x, y := key(live[i]), key(live[j]);
    assert policy.HIGHER_BETTER? || policy.LOWER_BETTER? ==> x == y;
  }

  // ----- what a list holds ------------------------------------------------------

  lemma {:induction false} InsertContents<T>(policy: Policy, key: T -> int, s: seq<T>, x: T)
    ensures multiset(InsertByPolicy(policy, key, s, x)) == multiset(s) + multiset{x}
  {
    if s != [] {
      assert s == [s[0]] + s[1..];
      if !Better(policy, key, x, s[0]) {
        InsertContents(policy, key, s[1..], x);
      }
    }
  }

  lemma {:induction false} ArrangeContents<T>(policy: Policy, key: T -> int, live: seq<T>)
    ensures multiset(Arrange(policy, key, live)) == multiset(live)
  {
    if live != [] {
      var n := |live| - 1;
      assert live == live[..n] + [live[n]];
      ArrangeContents(policy, key, live[..n]);
      InsertContents(policy, key, Arrange(policy, key, live[..n]), live[n]);
    }
  }

  lemma ArrangeMembers<T>(policy: Policy, key: T -> int, live: seq<T>, x: T)
    ensures x in Arrange(policy, key, live) <==> x in live
  {
    ArrangeContents(policy, key, live);
    assert x in Arrange(policy, key, live) <==> x in multiset(Arrange(policy, key, live));
  }

  // ----- the list stays sorted and stable ------------------------------------

  /** No node of a value-ordered list is better than the node in front of it. */
  ghost predicate Ordered<T>(policy: Policy, key: T -> int, s: seq<T>) {
    (policy.HIGHER_BETTER? || policy.LOWER_BETTER?) && |s| > 1 ==>
      !Better(policy, key, s[1], s[0]) && Ordered(policy, key, s[1..])
  }

  lemma {:induction false} InsertKeepsOrdered<T>(policy: Policy, key: T -> int, s: seq<T>, x: T)
    requires Ordered(policy, key, s)
    ensures Ordered(policy, key, InsertByPolicy(policy, key, s, x))
  {
    if s != [] {
      if Better(policy, key, x, s[0]) {
        assert ([x] + s)[1..] == s;
      } else {
        var rest := InsertByPolicy(policy, key, s[1..], x);
        InsertKeepsOrdered(policy, key, s[1..], x);
        assert ([s[0]] + rest)[1..] == rest;
      }
    }
  }

  lemma {:induction false} ArrangeIsOrdered<T>(policy: Policy, key: T -> int, live: seq<T>)
    ensures Ordered(policy, key, Arrange(policy, key, live))
  {
    if live != [] {
      var n := |live| - 1;
      ArrangeIsOrdered(policy, key, live[..n]);
      InsertKeepsOrdered(policy, key, Arrange(policy, key, live[..n]), live[n]);
    }
  }

  /** Scanning for the first beaten node, as the list manager does, is the same insertion. */
  lemma {:induction false} InsertAtFirstBeaten<T>(policy: Policy, key: T -> int, s: seq<T>, x: T, k: int)
    requires 0 <= k <= |s| && (k < |s| ==> Better(policy, key, x, s[k]))
    requires forall j :: 0 <= j < k ==> !Better(policy, key, x, s[j])
    ensures InsertByPolicy(policy, key, s, x) == s[..k] + [x] + s[k..]
  {
    if k > 0 {
      var t := s[1..];
      forall j | 0 <= j < k - 1 ensures !Better(policy, key, x, t[j]) { assert t[j] == s[j + 1]; }
      InsertAtFirstBeaten(policy, key, t, x, k - 1);
      assert t[..k - 1] == s[1..k] && t[k - 1..] == s[k..];
      assert !Better(policy, key, x, s[0]);
      assert InsertByPolicy(policy, key, s, x) == [s[0]] + (s[1..k] + [x] + s[k..]);
      assert [s[0]] + s[1..k] == s[..k];
    }
  }

  // ----- deleting commutes with sorting ---------------------------------------

  lemma {:induction false} WithoutInserted<T>(policy: Policy, key: T -> int, s: seq<T>, x: T)
    requires x !in s
    ensures Without(InsertByPolicy(policy, key, s, x), x) == s
  {
    if s != [] && !Better(policy, key, x, s[0]) {
      WithoutInserted(policy, key, s[1..], x);
    }
  }

  lemma {:induction false} WithoutOther<T>(policy: Policy, key: T -> int, s: seq<T>, x: T, y: T)
    requires Ordered(policy, key, s) && x != y
    ensures Without(InsertByPolicy(policy, key, s, x), y)
         == InsertByPolicy(policy, key, Without(s, y), x)
  {
    if s != [] {
      var t := s[1..];
      if Better(policy, key, x, s[0]) {
        assert ([x] + s)[1..] == s;
        if s[0] == y && t != [] {
          assert Better(policy, key, x, t[0]);
        }
      } else {
        WithoutOther(policy, key, t, x, y);
        assert ([s[0]] + InsertByPolicy(policy, key, t, x))[1..] == InsertByPolicy(policy, key, t, x);
        if s[0] != y {
          assert ([s[0]] + Without(t, y))[1..] == Without(t, y);
        }
      }
    }
  }

  lemma {:induction false} WithoutSnoc<T>(s: seq<T>, x: T, y: T)
    ensures Without(s + [x], y)
         == if y in s then Without(s, y) + [x] else if x == y then s else s + [x]
  {
    if s == [] {
      assert s + [x] == [x];
    } else {
      assert (s + [x])[1..] == s[1..] + [x];
      assert s == [s[0]] + s[1..];
      WithoutSnoc(s[1..], x, y);
    }
  }

  /** Deleting a node from the sorted list leaves the sorted list of the others. */
  lemma {:induction false} ArrangeWithout<T>(policy: Policy, key: T -> int, live: seq<T>, y: T)
    requires Distinct(live)
    ensures Without(Arrange(policy, key, live), y) == Arrange(policy, key, Without(live, y))
  {
    if live != [] {
      var n := |live| - 1;
      var front, x := live[..n], live[n];
      assert live == front + [x];
      var list := Arrange(policy, key, front);
      ArrangeWithout(policy, key, front, y);
      WithoutSnoc(front, x, y);
      if x == y {
        ArrangeMembers(policy, key, front, x);
        WithoutInserted(policy, key, list, x);
      } else {
        ArrangeIsOrdered(policy, key, front);
        WithoutOther(policy, key, list, x, y);
        if y in front {
          var shorter := Without(front, y);
          assert (shorter + [x])[..|shorter|] == shorter;
        } else {
          ArrangeMembers(policy, key, front, y);
          WithoutAbsent(list, y);
          WithoutAbsent(front, y);
        }
      }
    }
  }

  lemma {:induction false} WithoutAbsent<T>(s: seq<T>, y: T)
    requires y !in s
    ensures Without(s, y) == s
  {
    if s != [] {
      WithoutAbsent(s[1..], y);
    }
  }

  lemma {:induction false} WithoutAt<T>(s: seq<T>, k: int)
    requires Distinct(s) && 0 <= k < |s|
    ensures Without(s, s[k]) == s[..k] + s[k + 1..]
  {
    if k > 0 {
      WithoutAt(s[1..], k - 1);
      assert s[1..][..k - 1] == s[1..k];
    }
  }

  // ----- the head is the winner -------------------------------------------------

  lemma {:induction false} HeadIsWinner<T>(policy: Policy, key: T -> int, live: seq<T>) returns (i: int)
    requires live != []
    ensures Winner(policy, key, live, i)
    ensures Arrange(policy, key, live)[0] == live[i]
  {
    var n := |live| - 1;
    if n == 0 {
      i := 0;
    } else {
      var front := live[..n];
      i := HeadIsWinner(policy, key, front);
      assert Arrange(policy, key, front)[0] == live[i];
      assert forall j :: 0 <= j < n ==> front[j] == live[j];
      if Better(policy, key, live[n], live[i]) {
        i := n;
      }
    }
  }
}
