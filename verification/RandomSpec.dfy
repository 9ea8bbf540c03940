/** RandomSpec0 of utils/random.go: fills a buffer with random runes from the
    back, keeping the halves of surrogate pairs together. */
module RandomSpec {
  import opened Sequences

  const MAX_INT32: int := 0x7FFF_FFFF

  /** Sections 2.1 and 2.2 of RFC 2781. */
  predicate High(c: int) {
    0xD800 <= c <= 0xDBFF
  }

  predicate Low(c: int) {
    0xDC00 <= c <= 0xDFFF
  }

  /** No half of a pair stands alone. */
  ghost predicate WellPaired(s: seq<int>) {
    && (forall i :: 0 <= i < |s| && High(s[i]) ==> i + 1 < |s| && Low(s[i + 1]))
    && (forall i :: 0 <= i < |s| && Low(s[i]) ==> 0 < i && High(s[i - 1]))
  }

  predicate Letter(c: int) {
    'a' as int <= c <= 'z' as int || 'A' as int <= c <= 'Z' as int
  }

  predicate Digit(c: int) {
    '0' as int <= c <= '9' as int
  }

  predicate Wanted(c: int, letters: bool, numbers: bool) {
    (letters && Letter(c)) || (numbers && Digit(c)) || (!letters && !numbers)
  }

  /** Both bounds zero mean the printable range, or all runes. */
  function Bounds(start: int, end: int, letters: bool, numbers: bool): (int, int) {
    if start == 0 && end == 0 then
      if !letters && !numbers then (0, MAX_INT32) else (' ' as int, 'z' as int + 1)
    else (start, end)
  }

  /** A range that is not empty, and inside `chars` if those are given. */
  predicate ValidRange(bounds: (int, int), chars: seq<int>) {
    && bounds.0 < bounds.1
    && if chars == [] then -MAX_INT32 - 1 <= bounds.0 && bounds.1 <= MAX_INT32 + 1
       else 0 <= bounds.0 && bounds.1 <= |chars|
  }

  /** Conversion to 32 bits. */
  function Rune(i: int): (r: int)
    ensures -MAX_INT32 - 1 <= r <= MAX_INT32 && (r - i) % 0x1_0000_0000 == 0
  {
    (i + MAX_INT32 + 1) % 0x1_0000_0000 - MAX_INT32 - 1
  }

  /** The rune that a random number gives, or None where the code panics: in an
      empty range, or outside `chars`. */
  function Drawn(n: nat, bounds: (int, int), chars: seq<int>): Option<int> {
    if bounds.0 >= bounds.1 then None
    else
      var i := n % (bounds.1 - bounds.0) + bounds.0;
      if chars == [] then Some(Rune(i))
      else if 0 <= i < |chars| then Some(chars[i]) else None
  }

  lemma ValidDraws(n: nat, bounds: (int, int), chars: seq<int>)
    requires ValidRange(bounds, chars)
    ensures Drawn(n, bounds, chars).Some?
    ensures chars == [] ==> bounds.0 <= Drawn(n, bounds, chars).value < bounds.1
    ensures chars != [] ==> Drawn(n, bounds, chars).value in chars[bounds.0..bounds.1]
  {
    var d := bounds.1 - bounds.0;
    var i := n % d + bounds.0;
    assert 0 <= n % d < d;
    if chars != [] {
      assert chars[bounds.0..bounds.1][n % d] == chars[i];
    }
  }

  ghost predicate Drawable(c: int, bounds: (int, int), chars: seq<int>) {
    exists n: nat :: Drawn(n, bounds, chars) == Some(c)
  }

  lemma RuneKeeps(i: int)
    requires -MAX_INT32 - 1 <= i <= MAX_INT32
    ensures Rune(i) == i
  {
  }

  lemma SmallModulus(n: nat, d: nat)
    requires n < d
    ensures n % d == n
  {
  }

  lemma DrawnInRange(n: nat, bounds: (int, int))
    requires ValidRange(bounds, []) && n < bounds.1 - bounds.0
    ensures Drawn(n, bounds, []) == Some(n + bounds.0)
  {
    hide Rune;
    SmallModulus(n, bounds.1 - bounds.0);
    RuneKeeps(n + bounds.0);
  }

  /** From a range of runes, exactly its runes can be drawn. */
  lemma DrawableIff(c: int, bounds: (int, int))
    requires ValidRange(bounds, [])
    ensures Drawable(c, bounds, []) <==> bounds.0 <= c < bounds.1
  {
    hide Drawn;
    if bounds.0 <= c < bounds.1 {
      var n: nat := c - bounds.0;
      DrawnInRange(n, bounds);
    }
    if n: nat :| Drawn(n, bounds, []) == Some(c) {
      ValidDraws(n, bounds, []);
    }
  }

  /** Without bounds, every letter or digit that is wanted can be drawn, from the
      printable runes up to z; or every rune but the last, if any will do. */
  lemma DefaultRange(c: int, letters: bool, numbers: bool)
    ensures var bounds := Bounds(0, 0, letters, numbers);
            && (Drawable(c, bounds, []) <==>
                if letters || numbers then ' ' as int <= c <= 'z' as int else 0 <= c < MAX_INT32)
            && (letters || numbers ==> Wanted(c, letters, numbers) ==> Drawable(c, bounds, []))
  {
    DrawableIff(c, Bounds(0, 0, letters, numbers));
  }

  /** The kinds, on the runes themselves. */
  lemma Kinds(c: char)
    ensures Wanted(c as int, true, false) <==> 'a' <= c <= 'z' || 'A' <= c <= 'Z'
    ensures Wanted(c as int, false, true) <==> '0' <= c <= '9'
    ensures Wanted(c as int, true, true) <==> Wanted(c as int, true, false) || Wanted(c as int, false, true)
    ensures Wanted(c as int, false, false)
  {
  }

  /** What the finished part of the buffer is like: paired, of the wanted kind,
      and drawn from the range but for the halves that complete a pair. */
  ghost predicate Good(s: seq<int>, bounds: (int, int), chars: seq<int>, letters: bool, numbers: bool) {
    && WellPaired(s)
    && (letters || numbers ==> forall i :: 0 <= i < |s| ==> Wanted(s[i], letters, numbers))
    && forall i :: 0 <= i < |s| ==> Drawable(s[i], bounds, chars) || High(s[i]) || Low(s[i])
  }

  class Rand {
    var stream: seq<nat>

    constructor (stream: seq<nat>)
      ensures this.stream == stream
    {
      this.stream := stream;
    }

    /** A number below n. */
    method Intn(n: nat) returns (r: nat)
      requires n > 0 && stream != []
      modifies this
      ensures r < n && r == old(stream)[0] % n && stream == old(stream)[1..]
    {
      r := stream[0] % n;
      stream := stream[1..];
    }
  }

  /** A rune that is no half, or a whole pair, may be put in front. */
  lemma GoodFront(front: seq<int>, s: seq<int>, bounds: (int, int), chars: seq<int>, letters: bool, numbers: bool)
    requires Good(s, bounds, chars, letters, numbers)
    requires || (|front| == 1 && !High(front[0]) && !Low(front[0])
                 && Wanted(front[0], letters, numbers) && Drawable(front[0], bounds, chars))
             || (|front| == 2 && High(front[0]) && Low(front[1]) && !letters && !numbers)
    ensures Good(front + s, bounds, chars, letters, numbers)
  {
    hide Drawable;
    var t := front + s;
    forall i | 0 <= i < |t| && Low(t[i])
      ensures 0 < i && High(t[i - 1])
    {
      if i >= |front| {
        assert t[i] == s[i - |front|];
      }
    }
  }

  lemma SliceFront(buffer: array<int>, left: nat, n: nat)
    requires 1 <= n <= 2 && left + n <= buffer.Length
    ensures buffer[left..] == (if n == 1 then [buffer[left]] else [buffer[left], buffer[left + 1]]) + buffer[left + n..]
  {
  }

  lemma HalfOrNot(c: int, letters: bool, numbers: bool)
    ensures High(c) <==> 55296 <= c <= 56319
    ensures Low(c) <==> 56320 <= c <= 57343
    ensures Wanted(c, letters, numbers) && (High(c) || Low(c)) ==> !letters && !numbers
  {
  }

  method Draw(bounds: (int, int), chars: seq<int>, rand: Rand) returns (ch: Option<int>)
    requires rand.stream != []
    modifies rand
    ensures ch == Drawn(old(rand.stream)[0], bounds, chars)
    ensures rand.stream == if bounds.0 < bounds.1 then old(rand.stream)[1..] else old(rand.stream)
  {
    var gap := bounds.1 - bounds.0;
    if gap <= 0 {
      return None;
    }
    var n := rand.Intn(gap);
    var i := n + bounds.0;
    if |chars| == 0 {
      return Some(Rune(i));
    }
    ch := if 0 <= i < |chars| then Some(chars[i]) else None;
  }

  /** Writes a pair so that its first half is at `left`. */
  method PutPair(buffer: array<int>, left: nat, high: int, low: int, ghost done: seq<int>,
                 ghost bounds: (int, int), ghost chars: seq<int>)
    requires left + 2 <= buffer.Length && 55296 <= high <= 56319 && 56320 <= low <= 57343
    requires buffer[left + 2..] == done && Good(done, bounds, chars, false, false)
    modifies buffer
    ensures buffer[left..] == [high, low] + done && Good([high, low] + done, bounds, chars, false, false)
  {
    hide Good, High, Low;
    buffer[left + 1] := low;
    buffer[left] := high;
    HalfOrNot(high, false, false);
    HalfOrNot(low, false, false);
    GoodFront([high, low], done, bounds, chars, false, false);
    SliceFront(buffer, left, 2);
  }

  method PutRune(buffer: array<int>, left: nat, ch: int, ghost done: seq<int>,
                 ghost bounds: (int, int), ghost chars: seq<int>, ghost letters: bool, ghost numbers: bool)
    requires left + 1 <= buffer.Length && !(55296 <= ch <= 57343)
    requires Wanted(ch, letters, numbers) && Drawable(ch, bounds, chars)
    requires buffer[left + 1..] == done && Good(done, bounds, chars, letters, numbers)
    modifies buffer
    ensures buffer[left..] == [ch] + done && Good([ch] + done, bounds, chars, letters, numbers)
  {
    hide Good, High, Low, Wanted, Drawable;
    buffer[left] := ch;
    HalfOrNot(ch, letters, numbers);
    GoodFront([ch], done, bounds, chars, letters, numbers);
    SliceFront(buffer, left, 1);
  }

  /** A rune of the wanted kind that needs no partner. */
  predicate Plain(c: int, letters: bool, numbers: bool) {
    Wanted(c, letters, numbers) && !High(c) && !Low(c)
  }

  /** What a drawn rune, and the number after it, put in front: the rune, or a
      pair if there is room for one, or nothing. A high half above 0xDB7F is private. */
  function Put(c: int, n: nat, left: nat, letters: bool, numbers: bool): seq<int> {
    if Plain(c, letters, numbers) then [c]
    else if !Wanted(c, letters, numbers) || left < 2 || (High(c) && c > 0xDB7F) then []
    else if Low(c) then [0xD800 + n % 128, c]
    else [c, 0xDC00 + n % 128]
  }

  /** One turn of the loop: `left` slots are to be filled before it, `now` after it. */
  method Turn(
    buffer: array<int>, left: nat, bounds: (int, int), chars: seq<int>, letters: bool, numbers: bool,
    rand: Rand, ghost done: seq<int>)
    returns (now: nat, panics: bool, ghost more: seq<int>)
    requires 0 < left <= buffer.Length && |rand.stream| >= 2
    requires buffer[left..] == done && Good(done, bounds, chars, letters, numbers)
    modifies buffer, rand
    ensures panics <==> Drawn(old(rand.stream)[0], bounds, chars) == None
    ensures now <= left && buffer[now..] == more && Good(more, bounds, chars, letters, numbers)
    ensures !panics ==>
              var c, n := Drawn(old(rand.stream)[0], bounds, chars).value, old(rand.stream)[1];
              var front := Put(c, n, left, letters, numbers);
              && more == front + done && now == left - |front|
              && rand.stream == old(rand.stream)[if |front| == 2 then 2 else 1..]
  {
    hide Good, Drawable, Drawn, Wanted, High, Low;
    now, more := left, done;
    DrawnIsDrawable(rand.stream[0], bounds, chars);
    var drawn := Draw(bounds, chars, rand);
    panics := drawn == None;
    if panics {
      return;
    }
    now := now - 1;
    var ch := drawn.value;
    HalfOrNot(ch, letters, numbers);
    if Wanted(ch, letters, numbers) {
      if 56320 <= ch <= 57343 {
        if now == 0 {
          now := now + 1;
        } else {
          now := now - 1;
          var n := rand.Intn(128);
          PutPair(buffer, now, 55296 + n, ch, done, bounds, chars);
          more := [55296 + n, ch] + done;
        }
      } else if 55296 <= ch <= 56191 {
        if now == 0 {
          now := now + 1;
        } else {
          var n := rand.Intn(128);
          now := now - 1;
          PutPair(buffer, now, ch, 56320 + n, done, bounds, chars);
          more := [ch, 56320 + n] + done;
        }
      } else if 56192 <= ch <= 56319 {
        now := now + 1;
      } else {
        PutRune(buffer, now, ch, done, bounds, chars, letters, numbers);
        more := [ch] + done;
      }
    } else {
      now := now + 1;
    }
  }

  /** How a call ends. Exhausted: fewer than two random numbers were left before
      the buffer was full. */
  datatype Outcome = Filled(runes: seq<int>) | Exhausted | Panics

  /** The whole call: the buffer fills from the back. */
  function Filling(
    stream: seq<nat>, left: nat, done: seq<int>, bounds: (int, int), chars: seq<int>, letters: bool, numbers: bool)
    : Outcome
    decreases |stream|
  {
    if left == 0 then Filled(done)
    else if |stream| < 2 then Exhausted
    else
      match Drawn(stream[0], bounds, chars)
      case None => Panics
      case Some(c) =>
        var front := Put(c, stream[1], left, letters, numbers);
        Filling(stream[if |front| == 2 then 2 else 1..], left - |front|, front + done, bounds, chars, letters, numbers)
  }

  lemma FillingStep(
    stream: seq<nat>, left: nat, done: seq<int>, bounds: (int, int), chars: seq<int>, letters: bool, numbers: bool)
    ensures Filling(stream, 0, done, bounds, chars, letters, numbers) == Filled(done)
    ensures left > 0 && |stream| < 2 ==> Filling(stream, left, done, bounds, chars, letters, numbers) == Exhausted
    ensures left > 0 && |stream| >= 2 ==>
              Filling(stream, left, done, bounds, chars, letters, numbers) ==
              match Drawn(stream[0], bounds, chars)
              case None => Panics
              case Some(c) =>
                var front := Put(c, stream[1], left, letters, numbers);
                Filling(stream[if |front| == 2 then 2 else 1..], left - |front|, front + done,
                        bounds, chars, letters, numbers)
  {
    hide Drawn, Wanted, High, Low;
  }

  /** As long as plain runes are drawn, they are the result, the last in front. */
  lemma {:induction false} PlainRunesFill(
    stream: seq<nat>, runes: seq<int>, done: seq<int>,
    bounds: (int, int), chars: seq<int>, letters: bool, numbers: bool)
    requires |stream| > |runes|
    requires forall i :: 0 <= i < |runes| ==>
               Plain(runes[i], letters, numbers) && Drawn(stream[i], bounds, chars) == Some(runes[i])
    ensures Filling(stream, |runes|, done, bounds, chars, letters, numbers) == Filled(Reversed(runes) + done)
    decreases |runes|
  {
    hide Drawn, Plain;
    if runes == [] {
      assert Reversed(runes) + done == done;
    } else {
      PlainRunesFill(stream[1..], runes[1..], [runes[0]] + done, bounds, chars, letters, numbers);
      assert Reversed(runes) + done == Reversed(runes[1..]) + ([runes[0]] + done);
    }
  }

  function Reversed(s: seq<int>): (r: seq<int>) {
    if s == [] then [] else Reversed(s[1..]) + [s[0]]
  }

  method RandomSpec0(count: nat, start: int, end: int, letters: bool, numbers: bool, chars: seq<int>, rand: Rand)
    returns (r: Outcome)
    modifies rand
    ensures r.Filled? ==>
              |r.runes| == count && Good(r.runes, Bounds(start, end, letters, numbers), chars, letters, numbers)
    ensures r == Filling(old(rand.stream), count, [], Bounds(start, end, letters, numbers), chars, letters, numbers)
    ensures r.Exhausted? ==> count > 0 && |rand.stream| < 2
    ensures r.Panics? ==> count > 0 && !ValidRange(Bounds(start, end, letters, numbers), chars)
    ensures count > 0 && |old(rand.stream)| >= 2 ==>
              Drawn(old(rand.stream)[0], Bounds(start, end, letters, numbers), chars) == None ==> r == Panics
  {
    if count == 0 {
      FillingStep(rand.stream, 0, [], Bounds(start, end, letters, numbers), chars, letters, numbers);
      return Filled([]);
    }
    hide Good, Drawn, Bounds, ValidRange, Filling, Put;
    var bounds := Bounds(start, end, letters, numbers);
    var buffer := new int[count];
    var left: nat := count;
    ghost var done: seq<int> := [];
    NothingIsGood(bounds, chars, letters, numbers);
    while left != 0
      invariant left <= count == buffer.Length
      invariant buffer[left..] == done && Good(done, bounds, chars, letters, numbers)
      invariant Filling(rand.stream, left, done, bounds, chars, letters, numbers) ==
                Filling(old(rand.stream), count, [], bounds, chars, letters, numbers)
      invariant (left == count && rand.stream == old(rand.stream))
                || (old(rand.stream) != [] && Drawn(old(rand.stream)[0], bounds, chars).Some?)
      decreases |rand.stream|
    {
      FillingStep(rand.stream, left, done, bounds, chars, letters, numbers);
      if |rand.stream| < 2 {
        return Exhausted;
      }
      DrawnIsDrawable(rand.stream[0], bounds, chars);
      var panics;
      left, panics, done := Turn(buffer, left, bounds, chars, letters, numbers, rand, done);
      if panics {
        return Panics;
      }
    }
    FillingStep(rand.stream, left, done, bounds, chars, letters, numbers);
    assert buffer[0..] == buffer[..];
    return Filled(buffer[..]);
  }

  lemma DrawnIsDrawable(n: nat, bounds: (int, int), chars: seq<int>)
    ensures Drawn(n, bounds, chars).Some? ==>
              bounds.0 < bounds.1 && Drawable(Drawn(n, bounds, chars).value, bounds, chars)
    ensures Drawn(n, bounds, chars).None? ==> !ValidRange(bounds, chars)
  {
    if ValidRange(bounds, chars) {
      ValidDraws(n, bounds, chars);
    }
  }

  lemma NothingIsGood(bounds: (int, int), chars: seq<int>, letters: bool, numbers: bool)
    ensures Good([], bounds, chars, letters, numbers)
  {
  }

  /** In a valid range every rune that is no half of a pair comes from it. */
  lemma GoodInRange(s: seq<int>, bounds: (int, int), chars: seq<int>, letters: bool, numbers: bool, i: nat)
    requires ValidRange(bounds, chars) && Good(s, bounds, chars, letters, numbers) && i < |s|
    ensures || High(s[i]) || Low(s[i])
            || (if chars == [] then bounds.0 <= s[i] < bounds.1 else s[i] in chars[bounds.0..bounds.1])
  {
    hide Drawn, High, Low, ValidRange;
    if Drawable(s[i], bounds, chars) {
      var n: nat :| Drawn(n, bounds, chars) == Some(s[i]);
      ValidDraws(n, bounds, chars);
    }
  }

  /** The upper bound leaves out the last rune. A set of one rune makes both bounds
      zero, which means all runes: any draw but the first index panics. An empty
      set panics at once. */
  method RandomStringSpec0(count: nat, runes: seq<int>, rand: Rand) returns (r: Outcome)
    modifies rand
    ensures r.Filled? ==> |r.runes| == count && WellPaired(r.runes)
    ensures r.Filled? && |runes| > 1 ==>
              forall i :: 0 <= i < count ==> r.runes[i] in runes[..|runes| - 1] || High(r.runes[i]) || Low(r.runes[i])
    ensures |runes| > 1 ==> !r.Panics?
    ensures count > 0 && |old(rand.stream)| >= 2 && |runes| == 0 ==> r == Panics
    ensures count > 0 && |old(rand.stream)| >= 2 && |runes| == 1 && old(rand.stream)[0] % MAX_INT32 != 0 ==> r == Panics
  {
    hide High, Low, Drawable;
    r := RandomSpec0(count, 0, |runes| - 1, false, false, runes, rand);
    if r.Filled? && |runes| > 1 {
      forall i | 0 <= i < count
        ensures r.runes[i] in runes[..|runes| - 1] || High(r.runes[i]) || Low(r.runes[i])
      {
        GoodInRange(r.runes, (0, |runes| - 1), runes, false, false, i);
      }
    }
  }
}
