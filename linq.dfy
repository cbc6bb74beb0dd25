/** The LINQ queries the core relies on (`FirstOrDefault`, `Where`/`FindAll`, `Any`),
    over finite sequences in enumeration order. */
module Linq {
  import opened Wrappers

  /** Index of the first element satisfying `p` (`FirstOrDefault` with a predicate). */
  function FirstIndex<T>(s: seq<T>, p: T -> bool): (r: Option<nat>)
    ensures r.Some? ==> r.value < |s| && p(s[r.value])
    ensures r.Some? ==> forall j :: 0 <= j < r.value ==> !p(s[j])
    ensures r.None? <==> forall j :: 0 <= j < |s| ==> !p(s[j])
    decreases |s|
  {
    if s == [] then None
    else if p(s[0]) then Some(0)
    else
      match FirstIndex(s[1..], p)
      case None => None
      case Some(k) => Some(k + 1)
  }

  /** The first element satisfying `p` is the one at index `i`, whatever follows it. */
  lemma {:induction false} FirstIndexAt<T>(s: seq<T>, p: T -> bool, i: nat)
    requires i < |s| && p(s[i])
    requires forall j :: 0 <= j < i ==> !p(s[j])
    ensures FirstIndex(s, p) == Some(i)
  {
  }

  /** The elements satisfying `p`, in their original order (`Where`, `List.FindAll`). */
  function Where<T>(s: seq<T>, p: T -> bool): (r: seq<T>)
    ensures |r| <= |s|
    ensures forall k :: 0 <= k < |r| ==> p(r[k])
    decreases |s|
  {
    if s == [] then []
    else (if p(s[0]) then [s[0]] else []) + Where(s[1..], p)
  }

  /** Filtering distributes over concatenation: relative order is preserved. */
  lemma {:induction false} WhereConcat<T>(a: seq<T>, b: seq<T>, p: T -> bool)
    ensures Where(a + b, p) == Where(a, p) + Where(b, p)
    decreases |a|
  {
    if a == [] {
      assert a + b == b;
    } else {
      assert (a + b)[1..] == a[1..] + b;
      WhereConcat(a[1..], b, p);
    }
  }

  /** Each value occurs in the filtered sequence exactly as often as in the input
      when it satisfies `p`, and not at all otherwise. */
  lemma {:induction false} WhereMultiplicity<T>(s: seq<T>, p: T -> bool, x: T)
    ensures multiset(Where(s, p))[x] == if p(x) then multiset(s)[x] else 0
    decreases |s|
  {
    if s != [] {
      WhereMultiplicity(s[1..], p, x);
      assert s == [s[0]] + s[1..];
      assert multiset(s) == multiset([s[0]]) + multiset(s[1..]);
      var head: seq<T> := if p(s[0]) then [s[0]] else [];
      assert multiset(Where(s, p)) == multiset(head) + multiset(Where(s[1..], p));
    }
  }

  /** When every element satisfies `p`, nothing is dropped. */
  lemma {:induction false} WhereAll<T>(s: seq<T>, p: T -> bool)
    requires forall k :: 0 <= k < |s| ==> p(s[k])
    ensures Where(s, p) == s
    decreases |s|
  {
    if s != [] {
      WhereAll(s[1..], p);
    }
  }

  /** `Any`: some element satisfies `p`. */
  function Any<T>(s: seq<T>, p: T -> bool): (r: bool)
    ensures r <==> exists k :: 0 <= k < |s| && p(s[k])
    decreases |s|
  {
    if s == [] then false
    else p(s[0]) || Any(s[1..], p)
  }

  /** `Any` depends only on which values occur, not on their order or multiplicity. */
  lemma AnySameElements<T>(a: seq<T>, b: seq<T>, p: T -> bool)
    requires forall x :: x in a <==> x in b
    ensures Any(a, p) == Any(b, p)
  {
    if Any(a, p) {
      var k :| 0 <= k < |a| && p(a[k]);
      assert a[k] in b;
    }
    if Any(b, p) {
      var k :| 0 <= k < |b| && p(b[k]);
      assert b[k] in a;
    }
  }
}
