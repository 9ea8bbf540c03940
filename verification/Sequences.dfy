/** What several modules need of results, strings and lists. */
module Sequences {

  datatype Option<+T> = None | Some(value: T)

  datatype Result<+T> = Ok(value: T) | Err

  /** A channel of jobs; the front is taken first. */
  class JobQueue<T> {
    var jobs: seq<T>

    constructor ()
      ensures jobs == []
    {
      jobs := [];
    }
  }

  ghost predicate NoDup<T>(s: seq<T>) {
    forall i, j :: 0 <= i < j < |s| ==> s[i] != s[j]
  }

  lemma CountTwice<T>(s: seq<T>, i: nat, j: nat)
    requires i < j < |s| && s[i] == s[j]
    ensures multiset(s)[s[i]] >= 2
  {
    assert s == s[..j] + [s[j]] + s[j + 1..];
    assert s[..j][i] == s[i];
  }

  lemma {:induction false} FindTwice<T>(s: seq<T>, x: T) returns (i: nat, j: nat)
    requires multiset(s)[x] >= 2
    ensures i < j < |s| && s[i] == s[j] == x
  {
    var last := |s| - 1;
    assert s == s[..last] + [s[last]];
    if s[last] == x {
      assert x in multiset(s[..last]);
      i :| 0 <= i < last && s[..last][i] == x;
      j := last;
    } else {
      i, j := FindTwice(s[..last], x);
    }
  }

  lemma OnceEach<T>(s: seq<T>)
    ensures NoDup(s) <==> forall x :: multiset(s)[x] <= 1
  {
    if NoDup(s) {
      forall x
        ensures multiset(s)[x] <= 1
      {
        if multiset(s)[x] >= 2 {
          var i, j := FindTwice(s, x);
        }
      }
    } else {
      var i, j :| 0 <= i < j < |s| && s[i] == s[j];
      CountTwice(s, i, j);
    }
  }

  lemma CountOnce<T>(s: seq<T>)
    requires NoDup(s)
    ensures forall x :: multiset(s)[x] == if x in s then 1 else 0
  {
    OnceEach(s);
    hide NoDup;
    forall x
      ensures multiset(s)[x] == if x in s then 1 else 0
    {
      assert x in s <==> x in multiset(s);
    }
  }

  lemma CountNext<T>(s: seq<T>, n: nat)
    requires n < |s|
    ensures multiset(s[..n + 1]) == multiset(s[..n]) + multiset{s[n]}
  {
    assert s[..n + 1] == s[..n] + [s[n]];
  }

  /** The first position of c, or -1. */
  function IndexOf(s: string, c: char): (i: int)
    ensures -1 <= i < |s|
    ensures i >= 0 ==> s[i] == c
    ensures forall k :: 0 <= k < |s| && (i < 0 || k < i) ==> s[k] != c
  {
    if s == "" then -1
    else if s[0] == c then 0
    else
      var i := IndexOf(s[1..], c);
      assert forall k :: 0 < k < |s| ==> s[k] == s[1..][k - 1];
      if i >= 0 then i + 1 else -1
  }

  lemma IndexIs(s: string, c: char, i: nat)
    requires i < |s| && s[i] == c && forall k :: 0 <= k < i ==> s[k] != c
    ensures IndexOf(s, c) == i
  {
    hide IndexOf;
    var j := IndexOf(s, c);
  }

  /** strings.Split at one character */
  function Split(s: string, c: char): (parts: seq<string>)
    ensures |parts| > 0
    decreases |s|
  {
    var i := IndexOf(s, c);
    if i < 0 then [s] else [s[..i]] + Split(s[i + 1..], c)
  }

  predicate Lacks(s: string, c: char) {
    forall k :: 0 <= k < |s| ==> s[k] != c
  }

  lemma IndexAfter(front: string, c: char, rest: string)
    requires Lacks(front, c)
    ensures IndexOf(front + [c] + rest, c) == |front|
  {
    var s := front + [c] + rest;
    assert forall k :: 0 <= k < |front| ==> s[k] == front[k];
    IndexIs(s, c, |front|);
  }

  lemma SplitFirst(front: string, c: char, rest: string)
    requires Lacks(front, c)
    ensures Split(front + [c] + rest, c) == [front] + Split(rest, c)
  {
    hide IndexOf;
    IndexAfter(front, c, rest);
    var s := front + [c] + rest;
    assert s[..|front|] == front && s[|front| + 1..] == rest;
  }

  lemma SplitLast(s: string, c: char)
    requires Lacks(s, c)
    ensures Split(s, c) == [s]
  {
  }

  /** strings.Join */
  function Join(s: seq<string>, sep: string): string {
    if s == [] then "" else if |s| == 1 then s[0] else s[0] + sep + Join(s[1..], sep)
  }

  lemma JoinMore(parts: seq<string>, c: char)
    requires |parts| > 1
    ensures Join(parts, [c]) == parts[0] + [c] + Join(parts[1..], [c])
  {
  }

  lemma JoinTwo(a: string, b: string, c: char)
    ensures Join([a], [c]) == a && Join([a, b], [c]) == a + [c] + b
  {
    assert [a, b][1..] == [b];
    assert Join([b], [c]) == b;
  }

  /** Parts without the separator are what the joined text is split into. */
  lemma {:induction false} SplitJoined(parts: seq<string>, c: char)
    requires parts != [] && forall i :: 0 <= i < |parts| ==> Lacks(parts[i], c)
    ensures Split(Join(parts, [c]), c) == parts
    decreases |parts|
  {
    hide Split, IndexOf;
    if |parts| == 1 {
      SplitLast(parts[0], c);
      assert parts == [parts[0]];
    } else {
      SplitJoined(parts[1..], c);
      SplitFirst(parts[0], c, Join(parts[1..], [c]));
      assert parts == [parts[0]] + parts[1..];
    }
  }

  /** And every text is joined from such parts. */
  lemma {:induction false} JoinSplits(s: string, c: char)
    ensures Join(Split(s, c), [c]) == s
    ensures forall i :: 0 <= i < |Split(s, c)| ==> Lacks(Split(s, c)[i], c)
    decreases |s|
  {
    hide IndexOf;
    var i := IndexOf(s, c);
    if i < 0 {
      assert Split(s, c) == [s];
    } else {
      JoinSplits(s[i + 1..], c);
      var rest := Split(s[i + 1..], c);
      assert ([s[..i]] + rest)[1..] == rest;
      JoinMore(Split(s, c), c);
      assert s == s[..i] + [c] + s[i + 1..];
    }
  }

  /** A total order. */
  ghost predicate Order<T(!new)>(leq: (T, T) -> bool) {
    && (forall a, b :: leq(a, b) || leq(b, a))
    && (forall a, b :: leq(a, b) && leq(b, a) ==> a == b)
    && (forall a, b, c :: leq(a, b) && leq(b, c) ==> leq(a, c))
  }

  ghost predicate Sorted<T>(s: seq<T>, leq: (T, T) -> bool) {
    forall i, j :: 0 <= i < j < |s| ==> leq(s[i], s[j])
  }

  /** Puts x behind everything that is not greater. */
  method Insert<T(!new)>(s: seq<T>, x: T, leq: (T, T) -> bool) returns (t: seq<T>)
    requires Order(leq) && Sorted(s, leq)
    ensures Sorted(t, leq) && multiset(t) == multiset(s) + multiset{x}
  {
    hide Sorted;
    var i := |s|;
    while i > 0 && !leq(s[i - 1], x)
      invariant 0 <= i <= |s|
      invariant forall j :: i <= j < |s| ==> leq(x, s[j])
    {
      i := i - 1;
    }
    t := s[..i] + [x] + s[i..];
    InsertSorts(s, x, i, leq);
    InsertHolds(s, x, i);
  }

  lemma InsertHolds<T>(s: seq<T>, x: T, i: nat)
    requires i <= |s|
    ensures multiset(s[..i] + [x] + s[i..]) == multiset(s) + multiset{x}
  {
    assert s == s[..i] + s[i..];
  }

  lemma InsertSorts<T(!new)>(s: seq<T>, x: T, i: nat, leq: (T, T) -> bool)
    requires Order(leq) && Sorted(s, leq) && i <= |s|
    requires i > 0 ==> leq(s[i - 1], x)
    requires forall j :: i <= j < |s| ==> leq(x, s[j])
    ensures Sorted(s[..i] + [x] + s[i..], leq)
  {
    forall k | 0 <= k < i
      ensures leq(s[k], x)
    {
      assert k < i - 1 ==> leq(s[k], s[i - 1]);
    }
    hide Order;
  }

  method Sort<T(!new)>(a: seq<T>, leq: (T, T) -> bool) returns (b: seq<T>)
    requires Order(leq)
    ensures Sorted(b, leq) && multiset(b) == multiset(a)
  {
    hide Order, Sorted;
    SortedNothing(leq);
    b := [];
    var n := 0;
    while n < |a|
      invariant n <= |a|
      invariant Sorted(b, leq) && multiset(b) == multiset(a[..n])
    {
      assert a[..n + 1] == a[..n] + [a[n]];
      b := Insert(b, a[n], leq);
      n := n + 1;
    }
    assert a[..n] == a;
  }

  lemma SortedNothing<T>(leq: (T, T) -> bool)
    ensures Sorted([], leq)
  {
  }

  lemma FirstIsLeast<T(!new)>(a: seq<T>, b: seq<T>, leq: (T, T) -> bool)
    requires Order(leq) && Sorted(a, leq) && multiset(a) == multiset(b) && a != []
    ensures b != [] && leq(a[0], b[0])
  {
    assert a[0] in multiset(a);
    assert b[0] in multiset(b);
    assert b[0] in a;
    var i :| 0 <= i < |a| && a[i] == b[0];
  }

  lemma SortedTail<T>(a: seq<T>, leq: (T, T) -> bool)
    requires Sorted(a, leq) && a != []
    ensures Sorted(a[1..], leq) && multiset(a[1..]) == multiset(a) - multiset{a[0]}
  {
    assert a == [a[0]] + a[1..];
  }

  /** There is one way to sort. */
  lemma {:induction false} SortedUnique<T(!new)>(a: seq<T>, b: seq<T>, leq: (T, T) -> bool)
    requires Order(leq) && Sorted(a, leq) && Sorted(b, leq) && multiset(a) == multiset(b)
    ensures a == b
    decreases |a|
  {
    hide Sorted;
    if a == [] {
      assert |multiset(b)| == 0;
    } else {
      FirstIsLeast(a, b, leq);
      FirstIsLeast(b, a, leq);
      SortedTail(a, leq);
      SortedTail(b, leq);
      SortedUnique(a[1..], b[1..], leq);
      assert a == [a[0]] + a[1..] && b == [b[0]] + b[1..];
    }
  }
}
