/** Topic subscriptions: handleSubscribe and handleUnsubscribe in
    comet/handlers.go, matchTopics in comet/app_manager.go. Slices are shared
    windows on arrays, and deletion shifts the array in place. */
module Topics {
  import opened Sequences

  const MAX_TOPICS := 10
  const MAX_TOPIC_LEN := 64

  /** A Go slice: the array it is a window on, and its length. */
  datatype Slice = Slice(arr: array<string>, len: nat)

  ghost predicate ValidSlice(s: Slice) {
    s.len <= s.arr.Length
  }

  ghost function Contents(s: Slice): seq<string>
    requires ValidSlice(s)
    reads s.arr
  {
    s.arr[..s.len]
  }

  /** append(s, x): in place while the array has room. */
  method Append(s: Slice, x: string) returns (t: Slice)
    requires ValidSlice(s)
    modifies s.arr
    ensures ValidSlice(t) && Contents(t) == old(Contents(s)) + [x]
    ensures Contents(s) == old(Contents(s))
    ensures t.arr == s.arr || fresh(t.arr)
  {
    if s.len < s.arr.Length {
      s.arr[s.len] := x;
      return Slice(s.arr, s.len + 1);
    }
    var arr := new string[2 * s.len + 1](i => "");
    forall i | 0 <= i < s.len {
      arr[i] := s.arr[i];
    }
    arr[s.len] := x;
    t := Slice(arr, s.len + 1);
  }

  function Without(t: seq<string>, i: nat): (u: seq<string>)
    requires i < |t|
    ensures |u| == |t| - 1
  {
    t[..i] + t[i + 1..]
  }

  /** What a window sees when the array under it was shifted: the last element
      twice, or the old contents if it was the last one that went. */
  function Shifted(t: seq<string>, i: nat): (u: seq<string>)
    requires i < |t|
    ensures |u| == |t|
  {
    Without(t, i) + [t[|t| - 1]]
  }

  /** append(s[:i], s[i+1:]...): always in place, so s sees it too. */
  method DeleteAt(s: Slice, i: nat) returns (t: Slice)
    requires ValidSlice(s) && i < s.len
    modifies s.arr
    ensures t == Slice(s.arr, s.len - 1)
    ensures Contents(t) == Without(old(Contents(s)), i)
    ensures Contents(s) == Shifted(old(Contents(s)), i)
  {
    var j := i;
    ghost var was := Contents(s);
    while j + 1 < s.len
      invariant i <= j < s.len
      invariant forall k :: 0 <= k < i ==> s.arr[k] == was[k]
      invariant forall k :: i <= k < j ==> s.arr[k] == was[k + 1]
      invariant forall k :: j <= k < s.len ==> s.arr[k] == was[k]
    {
      s.arr[j] := s.arr[j + 1];
      j := j + 1;
    }
    t := Slice(s.arr, s.len - 1);
    assert Contents(s)[..s.len - 1] == Without(was, i);
  }

  function Elements(t: seq<string>): set<string> {
    set x | x in t
  }

  datatype Request = Subscribe(topic: string) | Unsubscribe(topic: string)

  /** The last position of x. */
  function LastIndex(t: seq<string>, x: string): (i: int)
    ensures -1 <= i < |t|
    ensures i >= 0 ==> t[i] == x
    ensures forall j :: i < j < |t| ==> t[j] != x
  {
    if t == [] then -1 else if t[|t| - 1] == x then |t| - 1 else LastIndex(t[..|t| - 1], x)
  }

  /** The topics after a request whose store write succeeds. */
  function After(t: seq<string>, r: Request): seq<string> {
    match r
    case Subscribe(x) =>
      if |x| == 0 || |x| > MAX_TOPIC_LEN || x in t || |t| >= MAX_TOPICS then t else t + [x]
    case Unsubscribe(x) =>
      var i := LastIndex(t, x);
      if i >= 0 then Without(t, i) else t
  }

  class Subscriptions {
    var topics: Slice

    constructor (topics: Slice)
      ensures this.topics == topics
    {
      this.topics := topics;
    }

    ghost predicate Valid()
      reads this
    {
      ValidSlice(topics)
    }

    /** Result codes as in the reply. A failed write leaves everything as it was. */
    method HandleSubscribe(topic: string, storeOk: bool) returns (result: int)
      requires Valid()
      modifies this, topics.arr
      ensures Valid() && (topics.arr == old(topics.arr) || fresh(topics.arr))
      ensures Contents(topics) ==
              (if storeOk then After(old(Contents(topics)), Subscribe(topic)) else old(Contents(topics)))
      ensures result ==
        if |topic| == 0 || |topic| > MAX_TOPIC_LEN then 3
        else if topic in old(Contents(topics)) then 0
        else if |old(Contents(topics))| >= MAX_TOPICS then 5
        else if !storeOk then 6 else 0
    {
      if |topic| == 0 || |topic| > MAX_TOPIC_LEN {
        return 3;
      }
      var n := 0;
      while n < topics.len
        invariant n <= topics.len
        invariant topic !in Contents(topics)[..n]
      {
        if topics.arr[n] == topic {
          assert Contents(topics)[n] == topic;
          return 0;
        }
        assert Contents(topics)[..n + 1] == Contents(topics)[..n] + [topics.arr[n]];
        n := n + 1;
      }
      assert Contents(topics)[..n] == Contents(topics);
      if topics.len >= MAX_TOPICS {
        return 5;
      }
      var more := Append(topics, topic);
      if !storeOk {
        return 6;
      }
      topics := more;
      return 0;
    }

    /** A failed write leaves the array shifted under an unchanged window. */
    method HandleUnsubscribe(topic: string, storeOk: bool) returns (result: int)
      requires Valid()
      modifies this, topics.arr
      ensures Valid() && topics.arr == old(topics.arr)
      ensures storeOk ==> result == 0 && Contents(topics) == After(old(Contents(topics)), Unsubscribe(topic))
      ensures !storeOk ==>
                var i := LastIndex(old(Contents(topics)), topic);
                && result == (if i < 0 then 0 else 4)
                && Contents(topics) == if i < 0 then old(Contents(topics)) else Shifted(old(Contents(topics)), i)
    {
      var index := -1;
      var n := 0;
      while n < topics.len
        invariant n <= topics.len
        invariant index == LastIndex(Contents(topics)[..n], topic)
      {
        assert Contents(topics)[..n + 1][..n] == Contents(topics)[..n];
        if topics.arr[n] == topic {
          index := n;
        }
        n := n + 1;
      }
      assert Contents(topics)[..n] == Contents(topics);
      if index >= 0 {
        var fewer := DeleteAt(topics, index);
        if !storeOk {
          return 4;
        }
        topics := fewer;
      }
      return 0;
    }

    /** Requests in a row whose store writes succeed. */
    method HandleAll(rs: seq<Request>)
      requires Valid()
      modifies this, topics.arr
      ensures Valid() && Contents(topics) == AfterAll(old(Contents(topics)), rs)
    {
      var n := 0;
      while n < |rs|
        invariant n <= |rs| && Valid() && (topics.arr == old(topics.arr) || fresh(topics.arr))
        invariant AfterAll(Contents(topics), rs[n..]) == AfterAll(old(Contents(topics)), rs)
      {
        match rs[n] {
          case Subscribe(x) => var _ := HandleSubscribe(x, true);
          case Unsubscribe(x) => var _ := HandleUnsubscribe(x, true);
        }
        assert rs[n..][1..] == rs[n + 1..];
        n := n + 1;
      }
    }
  }

  /** Deleting by shifting removes exactly the topic. */
  lemma WithoutRemoves(t: seq<string>, i: nat)
    requires NoDup(t) && i < |t|
    ensures NoDup(Without(t, i)) && Elements(Without(t, i)) == Elements(t) - {t[i]}
  {
    var u := Without(t, i);
    forall x
      ensures x in u <==> x in t && x != t[i]
    {
      if x in t && x != t[i] {
        var j :| 0 <= j < |t| && t[j] == x;
        assert u[if j < i then j else j - 1] == x;
      }
    }
  }

  /** The set a request makes of a set. */
  function AfterSet(s: set<string>, r: Request): set<string> {
    match r
    case Subscribe(x) =>
      if |x| == 0 || |x| > MAX_TOPIC_LEN || |s| >= MAX_TOPICS then s else s + {x}
    case Unsubscribe(x) => s - {x}
  }

  lemma {:induction false} ElementsCount(t: seq<string>)
    requires NoDup(t)
    ensures |Elements(t)| == |t|
  {
    if t != [] {
      var last := |t| - 1;
      ElementsCount(t[..last]);
      assert t == t[..last] + [t[last]];
      assert Elements(t) == Elements(t[..last]) + {t[last]};
    }
  }

  lemma AfterIsSetChange(t: seq<string>, r: Request)
    requires NoDup(t) && |t| <= MAX_TOPICS
    ensures NoDup(After(t, r)) && |After(t, r)| <= MAX_TOPICS
    ensures Elements(After(t, r)) == AfterSet(Elements(t), r)
  {
    ElementsCount(t);
    match r
    case Subscribe(x) =>
      assert Elements(t + [x]) == Elements(t) + {x};
    case Unsubscribe(x) =>
      var i := LastIndex(t, x);
      if i >= 0 {
        WithoutRemoves(t, i);
      }
  }

  function AfterAll(t: seq<string>, rs: seq<Request>): seq<string>
    decreases |rs|
  {
    if rs == [] then t else AfterAll(After(t, rs[0]), rs[1..])
  }

  function AfterAllSet(s: set<string>, rs: seq<Request>): set<string>
    decreases |rs|
  {
    if rs == [] then s else AfterAllSet(AfterSet(s, rs[0]), rs[1..])
  }

  /** Any run of requests keeps the list free of duplicates and at most ten
      long, and means the same as on sets. */
  lemma {:induction false} TopicsStayASet(t: seq<string>, rs: seq<Request>)
    requires NoDup(t) && |t| <= MAX_TOPICS
    ensures NoDup(AfterAll(t, rs)) && |AfterAll(t, rs)| <= MAX_TOPICS
    ensures Elements(AfterAll(t, rs)) == AfterAllSet(Elements(t), rs)
    decreases |rs|
  {
    if rs != [] {
      AfterIsSetChange(t, rs[0]);
      TopicsStayASet(After(t, rs[0]), rs[1..]);
    }
  }

  /** A failed unsubscribe spoils the list unless it was the last topic: then,
      and only then, nothing changed; otherwise the topic is gone from memory and
      the last one is there twice. */
  lemma FailedUnsubscribe(t: seq<string>, i: nat)
    requires NoDup(t) && i < |t|
    ensures Shifted(t, i) == t <==> i == |t| - 1
    ensures NoDup(Shifted(t, i)) <==> i == |t| - 1
    ensures t[i] in Shifted(t, i) <==> i == |t| - 1
  {
    var u := Shifted(t, i);
    if i == |t| - 1 {
      assert u == t;
    } else {
      WithoutRemoves(t, i);
      assert t[i] !in Without(t, i);
      assert u[|t| - 2] == u[|t| - 1] == t[|t| - 1];
    }
  }

  /** The topic operator as set conditions. */
  ghost predicate Matches(subs: seq<string>, topics: seq<string>, op: string) {
    if op == "and" then Elements(topics) <= Elements(subs)
    else if op == "except" then
      topics != [] ==> topics[0] in subs && Elements(topics[1..]) !! Elements(subs)
    else !(Elements(subs) !! Elements(topics))
  }

  method Contains(s: seq<string>, x: string) returns (found: bool)
    ensures found <==> x in s
  {
    found := false;
    var n := 0;
    while n < |s|
      invariant n <= |s|
      invariant !found ==> x !in s[..n]
      invariant found ==> x in s
    {
      if s[n] == x {
        found := true;
        break;
      }
      assert s[..n + 1] == s[..n] + [s[n]];
      n := n + 1;
    }
    assert !found ==> s[..n] == s;
  }

  method MatchTopics(subs: seq<string>, topics: seq<string>, op: string) returns (ok: bool)
    ensures ok <==> Matches(subs, topics, op)
  {
    if op == "and" {
      var i := 0;
      while i < |topics|
        invariant i <= |topics|
        invariant forall k :: 0 <= k < i ==> topics[k] in subs
      {
        var match_ := Contains(subs, topics[i]);
        if !match_ {
          assert topics[i] in Elements(topics) && topics[i] !in Elements(subs);
          return false;
        }
        i := i + 1;
      }
      return true;
    } else if op == "except" {
      var i := 0;
      while i < |topics|
        invariant i <= |topics|
        invariant i > 0 ==> topics[0] in subs
        invariant forall k :: 1 <= k < i ==> topics[k] !in subs
      {
        var match_ := Contains(subs, topics[i]);
        if (i == 0 && !match_) || (i > 0 && match_) {
          if i > 0 {
            assert topics[1..][i - 1] in Elements(topics[1..]);
          }
          return false;
        }
        i := i + 1;
      }
      return true;
    } else {
      var i := 0;
      while i < |subs|
        invariant i <= |subs|
        invariant forall k :: 0 <= k < i ==> subs[k] !in topics
      {
        var match_ := Contains(topics, subs[i]);
        if match_ {
          assert subs[i] in Elements(subs) && subs[i] in Elements(topics);
          return true;
        }
        i := i + 1;
      }
      return false;
    }
  }
}
