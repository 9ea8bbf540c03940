/** GetOfflineMsgs (storage/redis.go): pick the stored messages a registration
    has not seen, and sort them by id. The sort keys are float64. */
module Offline {
  import opened Sequences
  import opened Apps
  import opened Lookups
  import opened Routing

  /** The field `<id>_<ctime>_<expire>` of db_offline_msg_<app>. */
  datatype Key = Key(id: int, ctime: int, expire: int)

  /** The values; None is one that does not decode. */
  type Hash = map<Key, Option<RawMessage>>

  const MANTISSA: nat := 0x20_0000_0000_0000 // 2^53

  /** The distance of float64 numbers around a. */
  function Ulp(a: nat): (u: nat)
    ensures u > 0
  {
    if a < MANTISSA then 1 else 2 * Ulp(a / 2)
  }

  function RoundHalfEven(a: nat): nat {
    var u := Ulp(a);
    var q, r := a / u, a % u;
    if 2 * r < u || (2 * r == u && q % 2 == 0) then q * u else (q + 1) * u
  }

  /** int64 to float64 and back, where the result is an int64. */
  function Float64(i: int): int {
    if i >= 0 then RoundHalfEven(i) else -(RoundHalfEven(-i) as int)
  }

  lemma {:induction false} UlpBounds(a: nat)
    ensures a / Ulp(a) < MANTISSA && (Ulp(a) == 1 || a / Ulp(a) >= MANTISSA / 2)
  {
    if a >= MANTISSA {
      UlpBounds(a / 2);
      DivTwice(a, Ulp(a / 2));
    }
  }

  lemma DivTwice(a: nat, v: nat)
    requires v > 0
    ensures a / (2 * v) == a / 2 / v
  {
    var q, r := a / 2 / v, a / 2 % v;
    assert a == 2 * (q * v + r) + a % 2;
    assert a == q * (2 * v) + (2 * r + a % 2);
    DivUnique(a, 2 * v, q, 2 * r + a % 2);
  }

  lemma DivUnique(a: nat, d: nat, q: nat, r: nat)
    requires a == q * d + r && r < d
    ensures a / d == q && a % d == r
  {
    var x, y := a / d, a % d;
    assert a == x * d + y;
    if x < q {
      MulGap(x, q, d);
    } else if q < x {
      MulGap(q, x, d);
    }
  }

  lemma MulGap(x: nat, q: nat, d: nat)
    requires x < q
    ensures x * d + d <= q * d
  {
    var n: nat := q - x - 1;
    assert q == x + 1 + n;
    assert (x + 1 + n) * d == x * d + d + n * d;
  }

  lemma {:induction false} UlpOfMultiple(a: nat, q: nat)
    requires q < MANTISSA && (Ulp(a) == 1 || q >= MANTISSA / 2)
    ensures Ulp(q * Ulp(a)) == Ulp(a)
  {
    if a >= MANTISSA {
      var v := Ulp(a / 2);
      UlpOfMultiple(a / 2, q);
      assert q * Ulp(a) == 2 * (q * v);
      MulAtLeast(q, v);
      assert q * Ulp(a) / 2 == q * v;
    }
  }

  lemma MulAtLeast(q: nat, v: nat)
    requires v > 0
    ensures q * v >= q
  {
  }

  lemma UlpOfTop(a: nat)
    ensures Ulp(MANTISSA * Ulp(a)) == 2 * Ulp(a)
  {
    var u := Ulp(a);
    UlpOfMultiple(a, MANTISSA / 2);
    MulAtLeast(MANTISSA, u);
    assert MANTISSA * u / 2 == MANTISSA / 2 * u;
  }

  lemma MultipleIsExact(x: nat, q: nat)
    requires x == q * Ulp(x)
    ensures RoundHalfEven(x) == x
  {
    DivUnique(x, Ulp(x), q, 0);
  }

  /** A float64 converts to itself. */
  lemma RoundIdempotent(a: nat)
    ensures RoundHalfEven(RoundHalfEven(a)) == RoundHalfEven(a)
  {
    hide Ulp;
    var u := Ulp(a);
    var q := a / u;
    UlpBounds(a);
    var p := if RoundHalfEven(a) == q * u then q else q + 1;
    var x := p * u;
    assert RoundHalfEven(a) == x;
    if p < MANTISSA {
      UlpOfMultiple(a, p);
      MultipleIsExact(x, p);
    } else {
      UlpOfTop(a);
      assert x == MANTISSA / 2 * (2 * u);
      MultipleIsExact(x, MANTISSA / 2);
    }
  }

  function Pow2(e: nat): (p: nat)
    ensures p > 0
  {
    if e == 0 then 1 else 2 * Pow2(e - 1)
  }

  /** A number with a significand of 53 bits. */
  ghost predicate IsFloat(x: nat) {
    exists q: nat, e: nat :: Spelled(x, q, e)
  }

  predicate Spelled(x: nat, q: nat, e: nat) {
    q <= MANTISSA && x == q * Pow2(e)
  }

  lemma {:induction false} UlpIsPower(a: nat) returns (k: nat)
    ensures Ulp(a) == Pow2(k)
  {
    if a < MANTISSA {
      k := 0;
    } else {
      k := UlpIsPower(a / 2);
      k := k + 1;
    }
  }

  lemma {:induction false} PowerGrows(e: nat, k: nat) returns (m: nat)
    requires e >= k
    ensures Pow2(e) == m * Pow2(k)
    decreases e
  {
    if e == k {
      m := 1;
    } else {
      m := PowerGrows(e - 1, k);
      assert 2 * (m * Pow2(k)) == 2 * m * Pow2(k);
      m := 2 * m;
    }
  }

  /** No float64 number lies between a's neighbours. */
  lemma NoneBetween(a: nat, x: nat, q: nat, e: nat)
    requires Spelled(x, q, e)
    ensures x <= a / Ulp(a) * Ulp(a) || x >= (a / Ulp(a) + 1) * Ulp(a)
  {
    hide Ulp;
    var u, p := Ulp(a), a / Ulp(a);
    var k := UlpIsPower(a);
    UlpBounds(a);
    if e >= k {
      var m := PowerGrows(e, k);
      assert x == q * (m * u) == q * m * u;
      NoMultipleBetween(q * m, p, u);
    } else {
      var m := PowerGrows(k - 1, e);
      assert u == 2 * Pow2(k - 1) == 2 * (m * Pow2(e));
      FewBits(x, q, Pow2(e), m, p, u);
    }
  }

  lemma NoMultipleBetween(n: nat, p: nat, u: nat)
    ensures n * u <= p * u || n * u >= (p + 1) * u
  {
    if n > p {
      MulLeq(p + 1, n, u);
    } else {
      MulLeq(n, p, u);
    }
  }

  lemma MulLeq(a: nat, b: nat, u: nat)
    requires a <= b
    ensures a * u <= b * u
  {
    assert b == a + (b - a);
    assert (a + (b - a)) * u == a * u + (b - a) * u;
  }

  lemma FewBits(x: nat, q: nat, v: nat, m: nat, p: nat, u: nat)
    requires x == q * v && q <= MANTISSA && u == 2 * (m * v) && v > 0 && u > 0
    requires u == 1 || p >= MANTISSA / 2
    ensures x <= p * u
  {
    assert m > 0;
    MulLeq(q, MANTISSA, v);
    MulLeq(1, m, v);
    assert MANTISSA * v == MANTISSA / 2 * (2 * v);
    assert 2 * v <= u;
    assert MANTISSA / 2 * (2 * v) <= MANTISSA / 2 * u;
    MulLeq(MANTISSA / 2, p, u);
  }

  lemma Neighbours(a: nat) returns (lo: nat)
    ensures lo == a / Ulp(a) * Ulp(a) && lo <= a < lo + Ulp(a) && lo + Ulp(a) == (a / Ulp(a) + 1) * Ulp(a)
    ensures RoundHalfEven(a) ==
            if 2 * (a - lo) < Ulp(a) || (2 * (a - lo) == Ulp(a) && a / Ulp(a) % 2 == 0) then lo else lo + Ulp(a)
  {
    hide Ulp;
    var u := Ulp(a);
    lo := a / u * u;
    assert a == lo + a % u;
    assert (a / u + 1) * u == lo + u;
  }

  /** The result is a float64 number, and none is nearer. */
  lemma RoundsToNearest(a: nat, x: nat)
    requires IsFloat(x)
    ensures IsFloat(RoundHalfEven(a)) && Gap(RoundHalfEven(a), a) <= Gap(x, a)
  {
    hide Ulp, RoundHalfEven;
    RoundIsFloat(a);
    var q, e :| Spelled(x, q, e);
    NoneBetween(a, x, q, e);
    var lo := Neighbours(a);
  }

  lemma FixedIfFloat(x: nat)
    ensures RoundHalfEven(x) == x <==> IsFloat(x)
  {
    hide Ulp, RoundHalfEven;
    RoundIsFloat(x);
    if IsFloat(x) {
      RoundsToNearest(x, x);
    }
  }

  /** Between two that are as near, it is the even one. */
  lemma TiesToEven(a: nat)
    requires Gap(RoundHalfEven(a), a) * 2 == Ulp(a)
    ensures RoundHalfEven(a) / Ulp(a) % 2 == 0
  {
    hide Ulp, RoundHalfEven;
    var lo := Neighbours(a);
    var u, p := Ulp(a), a / Ulp(a);
    DivUnique(lo, u, p, 0);
    DivUnique(lo + u, u, p + 1, 0);
  }

  function Gap(x: int, a: int): nat {
    if x < a then a - x else x - a
  }

  lemma RoundIsFloat(a: nat)
    ensures IsFloat(RoundHalfEven(a))
  {
    hide Ulp;
    var k := UlpIsPower(a);
    UlpBounds(a);
    var q := a / Ulp(a);
    assert RoundHalfEven(a) == q * Ulp(a) || RoundHalfEven(a) == (q + 1) * Ulp(a);
    if RoundHalfEven(a) == q * Ulp(a) {
      assert Spelled(RoundHalfEven(a), q, k);
    } else {
      assert Spelled(RoundHalfEven(a), q + 1, k);
    }
  }

  lemma FloatIdempotent(i: int)
    ensures Float64(Float64(i)) == Float64(i)
  {
    if i >= 0 {
      RoundIdempotent(i);
    } else {
      RoundIdempotent(-i);
    }
  }

  /** Negative ids are rounded as their magnitudes are. */
  lemma FloatIsOdd(i: int)
    ensures Float64(-i) == -Float64(i)
  {
    hide RoundHalfEven;
    SmallIsExact(0);
  }

  lemma SmallIsExact(i: int)
    requires -(MANTISSA as int) <= i <= MANTISSA
    ensures Float64(i) == i
  {
    assert Ulp(MANTISSA) == 2;
  }

  /** The first id that is lost: it takes its neighbour's place. */
  lemma FirstInexact()
    ensures Float64(MANTISSA + 1) == MANTISSA
  {
    assert (MANTISSA + 1) / 2 < MANTISSA;
    assert Ulp(MANTISSA + 1) == 2;
  }

  predicate Eligible(k: Key, regTime: int, msgId: int, now: int) {
    k.ctime > regTime && k.id > msgId && k.expire > now
  }

  ghost predicate Ascending(a: seq<int>) {
    forall i, j :: 0 <= i < j < |a| ==> a[i] <= a[j]
  }

  function Floats(keys: seq<Key>): (f: seq<int>)
    ensures |f| == |keys| && forall i :: 0 <= i < |keys| ==> f[i] == Float64(keys[i].id)
  {
    if keys == [] then [] else Floats(keys[..|keys| - 1]) + [Float64(keys[|keys| - 1].id)]
  }

  method SortKeys(a: seq<int>) returns (b: seq<int>)
    ensures Ascending(b) && multiset(b) == multiset(a)
  {
    b := Sort(a, (x: int, y: int) => x <= y);
  }

  /** What was asked of the store: one field for each sort key, None if the sort
      key is the id of no selected message. */
  ghost predicate Asked(picked: seq<Key>, order: seq<int>, fetched: seq<Option<Key>>) {
    && Ascending(order) && multiset(order) == multiset(Floats(picked))
    && |fetched| == |order|
    && forall i :: 0 <= i < |order| ==>
         match fetched[i]
         case Some(k) => k in picked && k.id == order[i]
         case None => forall k :: k in picked ==> k.id != order[i]
  }

  /** The messages under the fields, without those that are missing or do not decode. */
  function Values(hash: Hash, fetched: seq<Option<Key>>): (msgs: seq<RawMessage>) {
    if fetched == [] then []
    else
      var last := fetched[|fetched| - 1];
      Values(hash, fetched[..|fetched| - 1]) +
      if last.Some? && last.value in hash && hash[last.value].Some? then [hash[last.value].value] else []
  }

  /** The first loop: selects the fields, notes each under its id, and makes a
      sort key of the id. */
  method Select(fields: seq<Key>, regTime: int, msgId: int, now: int)
    returns (skeys: map<int, Key>, sidxs: seq<int>, ghost picked: seq<Key>)
    requires NoDup(fields)
    ensures NoDup(picked) && sidxs == Floats(picked)
    ensures forall k :: k in picked <==> k in fields && Eligible(k, regTime, msgId, now)
    ensures forall i :: i in skeys ==> skeys[i] in picked && skeys[i].id == i
    ensures forall k :: k in picked ==> k.id in skeys
  {
    skeys, sidxs, picked := map[], [], [];
    var n := 0;
    while n < |fields|
      invariant n <= |fields|
      invariant NoDup(picked) && sidxs == Floats(picked)
      invariant forall k :: k in picked <==> k in fields[..n] && Eligible(k, regTime, msgId, now)
      invariant forall i :: i in skeys ==> skeys[i] in picked && skeys[i].id == i
      invariant forall k :: k in picked ==> k.id in skeys
    {
      var field := fields[n];
      assert fields[..n + 1] == fields[..n] + [field];
      assert field !in fields[..n];
      n := n + 1;
      if field.ctime <= regTime {
        continue;
      }
      if field.id <= msgId || field.expire <= now {
        continue;
      }
      skeys := skeys[field.id := field];
      sidxs := sidxs + [Float64(field.id)];
      assert (picked + [field])[..|picked|] == picked;
      picked := picked + [field];
    }
    assert fields[..n] == fields;
  }

  /** The last loop: decodes what came back. */
  method DecodeAll(hash: Hash, args: seq<Option<Key>>) returns (msgs: seq<RawMessage>)
    ensures msgs == Values(hash, args)
  {
    msgs := [];
    var n := 0;
    while n < |args|
      invariant n <= |args| && msgs == Values(hash, args[..n])
    {
      assert args[..n + 1][..n] == args[..n];
      if args[n].Some? && args[n].value in hash && hash[args[n].value].Some? {
        msgs := msgs + [hash[args[n].value].value];
      }
      n := n + 1;
    }
    assert args[..n] == args;
  }

  /** The field noted under a sort key. */
  function FieldFor(skeys: map<int, Key>, order: int): Option<Key> {
    if order in skeys then Some(skeys[order]) else None
  }

  /** The second loop: the fields to fetch. */
  method FieldsFor(skeys: map<int, Key>, sidxs: seq<int>) returns (args: seq<Option<Key>>)
    ensures |args| == |sidxs|
    ensures forall i :: 0 <= i < |args| ==> args[i] == FieldFor(skeys, sidxs[i])
  {
    args := [];
    var n := 0;
    while n < |sidxs|
      invariant n <= |sidxs| && |args| == n
      invariant forall i :: 0 <= i < n ==> args[i] == FieldFor(skeys, sidxs[i])
    {
      args := args + [FieldFor(skeys, sidxs[n])];
      n := n + 1;
    }
  }

  lemma FieldsAsked(picked: seq<Key>, skeys: map<int, Key>, order: seq<int>, args: seq<Option<Key>>)
    requires Ascending(order) && multiset(order) == multiset(Floats(picked)) && |args| == |order|
    requires forall i :: 0 <= i < |args| ==> args[i] == FieldFor(skeys, order[i])
    requires forall i :: i in skeys ==> skeys[i] in picked && skeys[i].id == i
    requires forall k :: k in picked ==> k.id in skeys
    ensures Asked(picked, order, args)
  {
    hide Ascending, Floats;
    forall i | 0 <= i < |order|
      ensures match args[i]
              case Some(k) => k in picked && k.id == order[i]
              case None => forall k :: k in picked ==> k.id != order[i]
    {
      assert args[i] == FieldFor(skeys, order[i]);
    }
  }

  /** `fields` is the reply to HKEYS, in any order. */
  method GetOfflineMsgs(hash: Hash, fields: seq<Key>, regTime: int, msgId: int, now: int, listOk: bool, fetchOk: bool)
    returns (msgs: seq<RawMessage>, ghost picked: seq<Key>, ghost fetched: seq<Option<Key>>, ghost order: seq<int>)
    requires NoDup(fields)
    ensures NoDup(picked) && Asked(picked, order, fetched)
    ensures forall k :: k in picked <==> k in fields && Eligible(k, regTime, msgId, now)
    ensures msgs == if listOk && fetchOk then Values(hash, fetched) else []
  {
    hide Eligible, Floats, Ascending, Asked;
    var skeys, sidxs;
    skeys, sidxs, picked := Select(fields, regTime, msgId, now);
    sidxs := SortKeys(sidxs);
    order := sidxs;
    var args := FieldsFor(skeys, sidxs);
    fetched := args;
    FieldsAsked(picked, skeys, sidxs, args);
    if !listOk || |args| == 0 || !fetchOk {
      msgs := [];
      return;
    }
    msgs := DecodeAll(hash, args);
  }

  /** The fields asked for are exactly the selected ones, by strictly increasing id. */
  ghost predicate InOrder(picked: seq<Key>, fetched: seq<Option<Key>>) {
    && (forall i :: 0 <= i < |fetched| ==> fetched[i].Some?)
    && (forall i, j :: 0 <= i < j < |fetched| ==> fetched[i].value.id < fetched[j].value.id)
    && (forall k :: k in picked <==> Some(k) in fetched)
  }

  ghost predicate UniqueIds(keys: seq<Key>) {
    forall a, b :: a in keys && b in keys && a.id == b.id ==> a == b
  }

  lemma SameElements<T>(a: seq<T>, b: seq<T>)
    requires multiset(a) == multiset(b)
    ensures NoDup(a) <==> NoDup(b)
    ensures forall x :: x in a <==> x in b
  {
    OnceEach(a);
    OnceEach(b);
    hide NoDup;
    forall x
      ensures x in a <==> x in b
    {
      assert x in a <==> x in multiset(a);
      assert x in b <==> x in multiset(b);
    }
  }

  /** Every selected field has its sort key. */
  lemma KeyOf(picked: seq<Key>, order: seq<int>, k: Key) returns (j: nat, i: nat)
    requires multiset(order) == multiset(Floats(picked)) && k in picked
    ensures j < |picked| && picked[j] == k && Floats(picked)[j] == Float64(k.id)
    ensures i < |order| && order[i] == Float64(k.id)
  {
    hide Float64, Floats;
    j :| 0 <= j < |picked| && picked[j] == k;
    SameElements(order, Floats(picked));
    assert Floats(picked)[j] in Floats(picked);
    i :| 0 <= i < |order| && order[i] == Floats(picked)[j];
  }

  lemma FloatsDistinct(picked: seq<Key>)
    requires NoDup(picked) && UniqueIds(picked)
    requires forall k :: k in picked ==> Float64(k.id) == k.id
    ensures NoDup(Floats(picked))
  {
    hide Float64, Floats;
    forall i, j | 0 <= i < j < |picked|
      ensures Floats(picked)[i] != Floats(picked)[j]
    {
      assert picked[i] in picked && picked[j] in picked;
    }
  }

  /** If every selected id is a float64, every sort key is a selected id. */
  lemma FoundAt(picked: seq<Key>, order: seq<int>, fetched: seq<Option<Key>>, i: nat)
    requires Asked(picked, order, fetched) && i < |order|
    requires forall k :: k in picked ==> Float64(k.id) == k.id
    ensures fetched[i].Some?
  {
    hide Float64, Floats;
    SameElements(order, Floats(picked));
    assert order[i] in order;
    var j :| 0 <= j < |picked| && Floats(picked)[j] == order[i];
    assert picked[j] in picked;
  }

  lemma ExactSuffices(picked: seq<Key>, order: seq<int>, fetched: seq<Option<Key>>)
    requires NoDup(picked) && UniqueIds(picked) && Asked(picked, order, fetched)
    requires forall k :: k in picked ==> Float64(k.id) == k.id
    ensures InOrder(picked, fetched)
  {
    hide Float64, Floats;
    FloatsDistinct(picked);
    SameElements(order, Floats(picked));
    forall i | 0 <= i < |fetched|
      ensures fetched[i].Some?
    {
      FoundAt(picked, order, fetched, i);
    }
    forall k | k in picked
      ensures Some(k) in fetched
    {
      var _, i := KeyOf(picked, order, k);
      assert fetched[i] == Some(k);
    }
  }

  lemma ExactNeeded(picked: seq<Key>, order: seq<int>, fetched: seq<Option<Key>>, k: Key)
    requires Asked(picked, order, fetched) && InOrder(picked, fetched) && k in picked
    ensures Float64(k.id) == k.id
  {
    FloatIdempotent(k.id);
    hide Float64, Floats;
    var a, i := KeyOf(picked, order, k);
    var k' := fetched[i].value;
    assert fetched[i] in fetched;
    var b, _ := KeyOf(picked, order, k');
    OrderDistinct(picked, order, fetched);
    SameElements(order, Floats(picked));
    assert Floats(picked)[a] == Floats(picked)[b];
  }

  lemma OrderDistinct(picked: seq<Key>, order: seq<int>, fetched: seq<Option<Key>>)
    requires Asked(picked, order, fetched) && InOrder(picked, fetched)
    ensures NoDup(order)
  {
    hide Float64, Floats;
  }

  /** With unique ids the selection is fetched completely and in order exactly
      when every selected id is a float64. */
  lemma ReplayExactIff(picked: seq<Key>, order: seq<int>, fetched: seq<Option<Key>>)
    requires NoDup(picked) && UniqueIds(picked) && Asked(picked, order, fetched)
    ensures InOrder(picked, fetched) <==> forall k :: k in picked ==> Float64(k.id) == k.id
  {
    hide Float64, Floats, Asked, InOrder;
    if InOrder(picked, fetched) {
      forall k | k in picked
        ensures Float64(k.id) == k.id
      {
        ExactNeeded(picked, order, fetched, k);
      }
    } else if forall k :: k in picked ==> Float64(k.id) == k.id {
      ExactSuffices(picked, order, fetched);
    }
  }

  /** The stored messages all decode and carry the id they are stored under. */
  ghost predicate WellStored(hash: Hash) {
    forall k :: k in hash ==> hash[k].Some? && hash[k].value.msgId == k.id
  }

  lemma {:induction false} ValuesInOrder(hash: Hash, fetched: seq<Option<Key>>)
    requires WellStored(hash)
    requires forall i :: 0 <= i < |fetched| ==> fetched[i].Some? && fetched[i].value in hash
    ensures |Values(hash, fetched)| == |fetched|
    ensures forall i :: 0 <= i < |fetched| ==> Values(hash, fetched)[i] == hash[fetched[i].value].value
  {
    if fetched != [] {
      ValuesInOrder(hash, fetched[..|fetched| - 1]);
    }
  }

  ghost predicate IdsIncrease(msgs: seq<RawMessage>) {
    forall i, j :: 0 <= i < j < |msgs| ==> msgs[i].msgId < msgs[j].msgId
  }

  lemma {:induction false} FilterInOrder(d: string, member: set<string>, msgs: seq<RawMessage>, r: RegApp)
    requires IdsIncrease(msgs)
    ensures IdsIncrease(Replayed(d, member, msgs, r))
    ensures forall m :: m in Replayed(d, member, msgs, r) <==> m in msgs && Passes(d, member, m, r)
  {
    hide Passes;
    if msgs != [] {
      var rest, last := msgs[..|msgs| - 1], msgs[|msgs| - 1];
      FilterInOrder(d, member, rest, r);
      assert msgs == rest + [last];
      forall m | m in rest
        ensures m.msgId < last.msgId
      {
        var j :| 0 <= j < |rest| && rest[j] == m;
        assert msgs[j] == m;
      }
      var kept := Replayed(d, member, rest, r);
      assert forall i :: 0 <= i < |kept| ==> kept[i] in kept;
    }
  }

  /** What handleOfflineMsgs does for one registration. With unique ids that are
      float64 numbers, as all up to 2^53 are, the client is queued exactly the
      stored messages that were created after the registration, are newer than
      the last acknowledged one, have not expired and pass the filters, by
      strictly increasing id. */
  method ReplayOffline(devId: string, r: RegApp, hash: Hash, fields: seq<Key>, member: set<string>, now: int)
    returns (queued: seq<RawMessage>)
    requires NoDup(fields) && forall k :: k in fields <==> k in hash
    ensures WellStored(hash) && UniqueIds(fields) && (forall k :: k in hash ==> Float64(k.id) == k.id) ==>
              && IdsIncrease(queued)
              && forall m :: m in queued <==>
                   Passes(devId, member, m, r)
                   && exists k ::
                        && k in hash && hash[k] == Some(m)
                        && k.ctime > r.regTime && k.id > r.lastMsgId && k.expire > now
  {
    hide Float64, Floats, Passes;
    var msgs, picked, fetched, order := GetOfflineMsgs(hash, fields, r.regTime, r.lastMsgId, now, true, true);
    queued := HandleOfflineMsgs(devId, r, msgs, member);
    if WellStored(hash) && UniqueIds(fields) && forall k :: k in hash ==> Float64(k.id) == k.id {
      ExactSuffices(picked, order, fetched);
      assert forall i :: 0 <= i < |fetched| ==> fetched[i] in fetched && Some(fetched[i].value) == fetched[i];
      ValuesInOrder(hash, fetched);
      FilterInOrder(devId, member, msgs, r);
      SelectedMessages(hash, picked, fetched);
    }
  }

  lemma SelectedMessages(hash: Hash, picked: seq<Key>, fetched: seq<Option<Key>>)
    requires WellStored(hash) && InOrder(picked, fetched) && forall k :: k in picked ==> k in hash
    requires forall i :: 0 <= i < |fetched| ==> fetched[i].value in hash
    ensures forall m :: m in Values(hash, fetched) <==> exists k :: k in picked && hash[k] == Some(m)
  {
    ValuesInOrder(hash, fetched);
    forall k | k in picked
      ensures hash[k].value in Values(hash, fetched)
    {
      var i :| 0 <= i < |fetched| && fetched[i] == Some(k);
      assert Values(hash, fetched)[i] == hash[k].value;
    }
    forall m | m in Values(hash, fetched)
      ensures exists k :: k in picked && hash[k] == Some(m)
    {
      var i :| 0 <= i < |fetched| && Values(hash, fetched)[i] == m;
      assert fetched[i] in fetched && fetched[i] == Some(fetched[i].value);
      assert fetched[i].value in picked;
    }
  }

  /** What an app registered at `now` gets, and acknowledged nothing, when its
      device connects again `later`: exactly the messages stored since that have
      not expired and pass, whatever ids they have. */
  method RegisterThenReplay(
    manager: AppManager, devId: string, regId: RegId, appId: string, userId: string, now: int,
    hash: Hash, fields: seq<Key>, member: set<string>, later: int)
    returns (r: RegApp?, queued: seq<RawMessage>)
    requires NoDup(fields) && forall k :: k in fields <==> k in hash
    modifies manager`regappMap, manager.storage
    ensures r == null ==> queued == []
    ensures r != null && WellStored(hash) && UniqueIds(fields)
            && (forall k :: k in hash ==> k.id >= 0 && Float64(k.id) == k.id) ==>
              && IdsIncrease(queued)
              && forall m :: m in queued <==>
                   Passes(devId, member, m, r)
                   && exists k :: k in hash && hash[k] == Some(m) && k.ctime > now && k.expire > later
  {
    hide Float64, Passes;
    queued := [];
    ghost var appOk, deviceOk, userOk;
    r, appOk, deviceOk, userOk := manager.RegisterApp(devId, regId, appId, userId, now);
    if r != null {
      queued := ReplayOffline(devId, r, hash, fields, member, later);
    }
  }
}
