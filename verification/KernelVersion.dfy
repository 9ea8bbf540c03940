/** KernelVersionInfo.String and ParseRelease of utils/utils.go. */
module KernelVersion {
  import opened Sequences

  const MAX_INT: int := 0x7FFF_FFFF_FFFF_FFFF

  type int64 = n: int | -MAX_INT - 1 <= n <= MAX_INT

  datatype Version = Version(kernel: int64, major: int64, minor: int64, flavor: string)

  /** %d of a number that is not negative. */
  function Digits(n: nat): (s: string)
    ensures s != "" && forall i :: 0 <= i < |s| ==> '0' <= s[i] <= '9'
  {
    var last := [('0' as int + n % 10) as char];
    if n < 10 then last else Digits(n / 10) + last
  }

  function Decimal(n: int): string {
    if n < 0 then "-" + Digits(-n) else Digits(n)
  }

  function String(k: Version): string {
    Decimal(k.kernel) + "." + Decimal(k.major) + "." + Decimal(k.minor) +
    if |k.flavor| > 0 then "-" + k.flavor else ""
  }

  predicate AllDigits(s: string) {
    forall i :: 0 <= i < |s| ==> '0' <= s[i] <= '9'
  }

  function Value(s: string): nat
    requires AllDigits(s)
  {
    if s == "" then 0 else 10 * Value(s[..|s| - 1]) + (s[|s| - 1] as int - '0' as int)
  }

  /** An optional sign, digits, and a result that fits. */
  function Atoi(s: string): (r: Result<int64>) {
    var body := if s != "" && (s[0] == '+' || s[0] == '-') then s[1..] else s;
    if body == "" || !AllDigits(body) then Err
    else
      var n := if s[0] == '-' then -(Value(body) as int) else Value(body);
      if -MAX_INT - 1 <= n <= MAX_INT then Ok(n) else Err
  }

  /** strings.Trim(s, "+") */
  function Trim(s: string): string
    decreases |s|
  {
    if s != "" && s[0] == '+' then Trim(s[1..])
    else if s != "" && s[|s| - 1] == '+' then Trim(s[..|s| - 1])
    else s
  }

  method ParseRelease(release: string) returns (r: Result<Version>)
    ensures r == Parsed(release)
  {
    hide IndexOf, Split, Atoi, Trim;
    var dash := IndexOf(release, '-');
    var numbers := if dash < 0 then release else release[..dash];
    var tmp2 := Split(numbers, '.');
    var kernel, major, minor: int64 := 0, 0, 0;
    if |tmp2| > 0 {
      var n := Atoi(tmp2[0]);
      if n.Err? {
        return Err;
      }
      kernel := n.value;
    }
    if |tmp2| > 1 {
      var n := Atoi(tmp2[1]);
      if n.Err? {
        return Err;
      }
      major := n.value;
    }
    if |tmp2| > 2 {
      var n := Atoi(Trim(tmp2[2]));
      if n.Err? {
        return Err;
      }
      minor := n.value;
    }
    var flavor := if dash < 0 then "" else release[dash + 1..];
    return Ok(Version(kernel, major, minor, flavor));
  }

  /** Missing numbers are 0; all from the first dash on is the flavor. */
  function Parsed(release: string): Result<Version> {
    var dash := IndexOf(release, '-');
    var parts := Split(if dash < 0 then release else release[..dash], '.');
    var numbers := [Atoi(parts[0]),
                    if |parts| > 1 then Atoi(parts[1]) else Ok(0),
                    if |parts| > 2 then Atoi(Trim(parts[2])) else Ok(0)];
    if Err in numbers then Err
    else Ok(Version(numbers[0].value, numbers[1].value, numbers[2].value, if dash < 0 then "" else release[dash + 1..]))
  }

  lemma {:induction false} DigitsValue(n: nat)
    ensures Value(Digits(n)) == n
  {
    if n >= 10 {
      DigitsValue(n / 10);
      assert Digits(n)[..|Digits(n)| - 1] == Digits(n / 10);
    } else {
      assert Digits(n)[..0] == "";
    }
  }

  lemma AtoiDigits(n: nat)
    requires n <= MAX_INT
    ensures Atoi(Digits(n)) == Ok(n) && Trim(Digits(n)) == Digits(n)
  {
    DigitsValue(n);
  }

  /** How a printed version splits at its first dash, if there is one. */
  lemma ParsedParts(front: string, flavor: string, dashed: bool)
    requires Lacks(front, '-') && (!dashed ==> flavor == "")
    ensures var release := front + if dashed then "-" + flavor else "";
            var dash := IndexOf(release, '-');
            && (dash >= 0 <==> dashed)
            && (if dash < 0 then release else release[..dash]) == front
            && (if dash < 0 then "" else release[dash + 1..]) == flavor
  {
    hide IndexOf;
    if dashed {
      IndexAfter(front, '-', flavor);
      assert front + ("-" + flavor) == front + ['-'] + flavor;
    } else {
      assert front + "" == front;
    }
  }

  lemma SplitTwo(a: string, b: string)
    requires Lacks(a, '.') && Lacks(b, '.')
    ensures Split(a + "." + b, '.') == [a, b]
  {
    hide Split;
    SplitFirst(a, '.', b);
    SplitLast(b, '.');
  }

  lemma SplitThree(a: string, b: string, c: string)
    requires Lacks(a, '.') && Lacks(b, '.') && Lacks(c, '.')
    ensures Split(a + "." + b + "." + c, '.') == [a, b, c]
  {
    hide Split;
    assert a + "." + b + "." + c == a + ['.'] + (b + "." + c);
    SplitFirst(a, '.', b + "." + c);
    SplitTwo(b, c);
  }

  lemma StringText(k: Version)
    requires k.kernel >= 0 && k.major >= 0 && k.minor >= 0
    ensures String(k) == Digits(k.kernel) + "." + Digits(k.major) + "." + Digits(k.minor)
                         + if |k.flavor| > 0 then "-" + k.flavor else ""
  {
    hide Digits;
  }

  lemma DigitsLack(n: nat)
    ensures Lacks(Digits(n), '.') && Lacks(Digits(n), '-')
  {
    hide Digits;
  }

  lemma LacksDash(a: string, b: string, c: string)
    requires Lacks(a, '-') && Lacks(b, '-') && Lacks(c, '-')
    ensures Lacks(a + "." + b + "." + c, '-')
  {
  }

  /** Versions with non-negative numbers survive, whatever the flavor. */
  lemma PrintedParses(k: Version)
    requires k.kernel >= 0 && k.major >= 0 && k.minor >= 0
    ensures Parsed(String(k)) == Ok(k)
  {
    hide IndexOf, Split, Atoi, Trim, Digits, String, Lacks;
    var a, b, c := Digits(k.kernel), Digits(k.major), Digits(k.minor);
    StringText(k);
    DigitsLack(k.kernel);
    DigitsLack(k.major);
    DigitsLack(k.minor);
    LacksDash(a, b, c);
    ParsedParts(a + "." + b + "." + c, k.flavor, |k.flavor| > 0);
    SplitThree(a, b, c);
    AtoiDigits(k.kernel);
    AtoiDigits(k.major);
    AtoiDigits(k.minor);
  }

  lemma EmptyIsNoNumber()
    ensures Atoi("") == Err && Trim("") == ""
  {
  }

  lemma NegativeKernel(k: Version)
    requires k.kernel < 0
    ensures Parsed(String(k)) == Err
  {
    hide IndexOf, Split, Atoi, Trim, Digits;
    var s := String(k);
    var rest := s[1..];
    assert s[0] == '-' && s == "" + ("-" + rest);
    ParsedParts("", rest, true);
    SplitLast("", '.');
    EmptyIsNoNumber();
  }

  lemma NegativeMajor(k: Version)
    requires k.kernel >= 0 > k.major
    ensures Parsed(String(k)) == Err
  {
    hide IndexOf, Split, Atoi, Trim, Digits;
    var s, a := String(k), Digits(k.kernel);
    var rest := s[|a| + 2..];
    assert s[..|a| + 1] == a + "." && s[|a| + 1] == '-';
    assert s == a + "." + ("-" + rest);
    ParsedParts(a + ".", rest, true);
    assert a + "." + "" == a + ".";
    SplitTwo(a, "");
    EmptyIsNoNumber();
  }

  /** A dash right behind the second dot leaves the third number empty. */
  lemma NoThirdNumber(a: string, b: string, rest: string)
    requires Lacks(a, '.') && Lacks(a, '-') && Lacks(b, '.') && Lacks(b, '-')
    ensures Parsed(a + "." + b + "." + ("-" + rest)) == Err
  {
    hide IndexOf, Split, Atoi, Trim;
    var front := a + "." + b + ".";
    ParsedParts(front, rest, true);
    assert front + "" == front;
    SplitThree(a, b, "");
    EmptyIsNoNumber();
  }

  lemma DashFirst(front: string, n: string, flavor: string)
    ensures front + ("-" + n) + flavor == front + ("-" + (n + flavor))
  {
  }

  lemma NegativeMinor(k: Version)
    requires k.kernel >= 0 && k.major >= 0 > k.minor
    ensures Parsed(String(k)) == Err
  {
    hide Parsed, Digits;
    var minor: int := k.minor;
    var a, b, n := Digits(k.kernel), Digits(k.major), Digits(-minor);
    var flavor := if |k.flavor| > 0 then "-" + k.flavor else "";
    DashFirst(a + "." + b + ".", n, flavor);
    NoThirdNumber(a, b, n + flavor);
  }

  /** Printing then parsing gives a version back exactly if none of its numbers
      is negative; the others are printed with a dash too early, which leaves an
      empty number behind. */
  lemma PrintParseRoundTrip(k: Version)
    ensures Parsed(String(k)) == Ok(k) <==> k.kernel >= 0 && k.major >= 0 && k.minor >= 0
  {
    hide Parsed, String;
    if k.kernel < 0 {
      NegativeKernel(k);
    } else if k.major < 0 {
      NegativeMajor(k);
    } else if k.minor < 0 {
      NegativeMinor(k);
    } else {
      PrintedParses(k);
    }
  }

  function Times(c: char, n: nat): (s: string)
    ensures |s| == n && forall i :: 0 <= i < n ==> s[i] == c
  {
    seq(n, _ => c)
  }

  /** A text for a number: a sign, perhaps, zeros and the digits. */
  ghost predicate Numeral(t: string, n: int) {
    exists sign, z :: Spells(t, n, sign, z)
  }

  function Magnitude(n: int): nat {
    if n < 0 then -n else n
  }

  predicate Spells(t: string, n: int, sign: string, z: nat) {
    && t == sign + (Times('0', z) + Digits(Magnitude(n)))
    && (if n < 0 then sign == "-" else sign == "" || sign == "+" || (n == 0 && sign == "-"))
  }

  lemma {:induction false} ValueOfZeros(z: nat, d: string)
    requires AllDigits(d)
    ensures AllDigits(Times('0', z) + d) && Value(Times('0', z) + d) == Value(d)
    decreases z + |d|
  {
    var s := Times('0', z) + d;
    if d != "" {
      assert s[..|s| - 1] == Times('0', z) + d[..|d| - 1];
      ValueOfZeros(z, d[..|d| - 1]);
    } else if z > 0 {
      assert s[..|s| - 1] == Times('0', z - 1) + "";
      ValueOfZeros(z - 1, "");
    }
  }

  lemma OneMoreDigit(v: nat, c: char)
    requires '0' <= c <= '9'
    ensures Digits(10 * v + (c as int - '0' as int)) == if v == 0 then [c] else Digits(v) + [c]
  {
    var k := c as int - '0' as int;
    var n := 10 * v + k;
    assert n / 10 == v && n % 10 == k;
    assert ('0' as int + k) as char == c;
  }

  lemma MoreZeros(z: nat)
    ensures Times('0', z) + Digits(0) == Times('0', z + 1)
  {
    assert Digits(0) == "0";
  }

  lemma Regroup(a: string, b: string, c: string)
    ensures a + (b + c) == a + b + c && (a == "" ==> a + c == c)
  {
  }

  lemma ValueOfMore(front: string, c: char)
    requires AllDigits(front) && '0' <= c <= '9'
    ensures AllDigits(front + [c]) && Value(front + [c]) == 10 * Value(front) + (c as int - '0' as int)
  {
    assert (front + [c])[..|front|] == front;
  }

  /** Another digit behind zeros and the digits of v. */
  lemma ExtendDigits(z: nat, v: nat, c: char) returns (y: nat)
    requires '0' <= c <= '9'
    ensures Times('0', z) + Digits(v) + [c] == Times('0', y) + Digits(10 * v + (c as int - '0' as int))
  {
    hide Digits, Times;
    OneMoreDigit(v, c);
    if v == 0 {
      MoreZeros(z);
      y := z + 1;
    } else {
      Regroup(Times('0', z), Digits(v), [c]);
      y := z;
    }
  }

  /** Digits are zeros and the digits of their value. */
  lemma {:induction false} DigitsOfValue(d: string) returns (z: nat)
    requires AllDigits(d) && d != ""
    ensures d == Times('0', z) + Digits(Value(d))
    decreases |d|
  {
    hide Digits, Times, Value;
    var front, c := d[..|d| - 1], d[|d| - 1];
    assert d == front + [c];
    ValueOfMore(front, c);
    if front == "" {
      z := 0;
      OneDigit(c);
    } else {
      z := DigitsOfValue(front);
      z := ExtendDigits(z, Value(front), c);
    }
  }

  lemma OneDigit(c: char)
    requires '0' <= c <= '9'
    ensures [c] == Times('0', 0) + Digits(Value([c])) && Value("") == 0
  {
    OneMoreDigit(0, c);
    ValueOfMore("", c);
    assert "" + [c] == [c];
  }

  function SignOf(t: string): string {
    if t != "" && (t[0] == '+' || t[0] == '-') then t[..1] else ""
  }

  lemma AtoiParts(t: string, n: int64)
    requires Atoi(t) == Ok(n)
    ensures var sign, body := SignOf(t), t[|SignOf(t)|..];
            && t == sign + body && body != "" && AllDigits(body)
            && n == if sign == "-" then -(Value(body) as int) else Value(body)
  {
    hide Value;
    var sign := SignOf(t);
    assert t == sign + t[|sign|..];
  }

  /** What strconv.Atoi reads. */
  lemma AtoiReads(t: string, n: int64)
    ensures Atoi(t) == Ok(n) <==> Numeral(t, n)
  {
    hide Digits, Value, Atoi, Times;
    if sign, z :| Spells(t, n, sign, z) {
      AtoiSpelled(t, n, sign, z);
    }
    if Atoi(t) == Ok(n) {
      AtoiParts(t, n);
      var body := t[|SignOf(t)|..];
      var z := DigitsOfValue(body);
      assert Spells(t, n, SignOf(t), z);
    }
  }

  lemma AtoiSpelled(t: string, n: int64, sign: string, z: nat)
    requires Spells(t, n, sign, z)
    ensures Atoi(t) == Ok(n)
  {
    hide Digits, Value;
    var m := Magnitude(n);
    var body := Times('0', z) + Digits(m);
    DigitsValue(m);
    ValueOfZeros(z, Digits(m));
    assert t == sign + body;
    if sign == "" {
      assert t == body && '0' <= t[0] <= '9';
    } else {
      assert t[0] == sign[0] && t[1..] == body;
    }
  }

  lemma {:induction false} TrimPluses(a: nat, x: string, b: nat)
    requires x != "" && x[0] != '+' && x[|x| - 1] != '+'
    ensures Trim(Times('+', a) + x + Times('+', b)) == x
    decreases a + b
  {
    var s := Times('+', a) + x + Times('+', b);
    if a > 0 {
      assert s[0] == '+' && s[1..] == Times('+', a - 1) + x + Times('+', b);
      TrimPluses(a - 1, x, b);
    } else if b > 0 {
      assert s[0] == x[0] && s[|s| - 1] == '+' && s[..|s| - 1] == Times('+', 0) + x + Times('+', b - 1);
      TrimPluses(0, x, b - 1);
    } else {
      assert s == x;
    }
  }

  lemma {:induction false} TrimIs(s: string) returns (a: nat, b: nat)
    ensures s == Times('+', a) + Trim(s) + Times('+', b)
    decreases |s|
  {
    if s != "" && s[0] == '+' {
      a, b := TrimIs(s[1..]);
      a := a + 1;
      assert s == ['+'] + s[1..];
    } else if s != "" && s[|s| - 1] == '+' {
      a, b := TrimIs(s[..|s| - 1]);
      b := b + 1;
      assert s == s[..|s| - 1] + ['+'];
    } else {
      a, b := 0, 0;
      assert Times('+', 0) == "";
    }
  }

  lemma EndsInDigit(t: string, n: int, sign: string, z: nat)
    requires Spells(t, n, sign, z)
    ensures |t| > |sign| && t[|t| - 1] != '+' && t[|sign|] != '+'
  {
    var body := Times('0', z) + Digits(Magnitude(n));
    assert '0' <= body[0] <= '9' && '0' <= body[|body| - 1] <= '9';
    assert t[|t| - 1] == body[|body| - 1] && t[|sign|] == body[0];
  }

  lemma PlusMoves(a: nat, y: string, b: nat)
    ensures Times('+', a) + ("+" + y) + Times('+', b) == Times('+', a + 1) + y + Times('+', b)
  {
    assert Times('+', a) + "+" == Times('+', a + 1);
  }

  /** A sign in front does not matter to the third number. */
  lemma TrimmedAtoi(a: nat, x: string, b: nat, n: int64)
    requires Numeral(x, n)
    ensures Atoi(Trim(Times('+', a) + x + Times('+', b))) == Ok(n)
  {
    hide Trim, Atoi, Digits, Times;
    var sign, z :| Spells(x, n, sign, z);
    EndsInDigit(x, n, sign, z);
    AtoiReads(x, n);
    if sign == "+" {
      var y := x[1..];
      assert x == "+" + y && y == "" + y && |y| > 0 && y[0] == x[1];
      assert Spells(y, n, "", z);
      AtoiReads(y, n);
      PlusMoves(a, y, b);
      TrimPluses(a + 1, y, b);
    } else {
      TrimPluses(a, x, b);
    }
  }

  /** What ParseRelease reads: up to three numbers between dots, pluses around the
      third allowed, any more parts ignored, and a flavor behind a dash. */
  ghost predicate Denotes(release: string, v: Version, parts: seq<string>, third: string, a: nat, b: nat) {
    && parts != [] && release == Join(parts, ".") + Tail(release, v.flavor)
    && (forall i :: 0 <= i < |parts| ==> Lacks(parts[i], '.') && Lacks(parts[i], '-'))
    && Numeral(parts[0], v.kernel)
    && (if |parts| > 1 then Numeral(parts[1], v.major) else v.major == 0)
    && (if |parts| > 2 then parts[2] == Times('+', a) + third + Times('+', b) && Numeral(third, v.minor)
        else v.minor == 0)
  }

  function Tail(release: string, flavor: string): string {
    if '-' in release || flavor != "" then "-" + flavor else ""
  }

  lemma {:induction false} JoinLacks(parts: seq<string>, c: char, d: char)
    requires c != d && forall i :: 0 <= i < |parts| ==> Lacks(parts[i], d)
    ensures Lacks(Join(parts, [c]), d)
    decreases |parts|
  {
    if |parts| > 1 {
      JoinLacks(parts[1..], c, d);
      JoinMore(parts, c);
    }
  }

  lemma {:induction false} SplitLacks(s: string, c: char, d: char)
    requires Lacks(s, d)
    ensures forall i :: 0 <= i < |Split(s, c)| ==> Lacks(Split(s, c)[i], d)
    decreases |s|
  {
    hide IndexOf;
    var i := IndexOf(s, c);
    if i >= 0 {
      SplitLacks(s[i + 1..], c, d);
    }
  }

  lemma DenotedIsParsed(release: string, v: Version, parts: seq<string>, third: string, a: nat, b: nat)
    requires Denotes(release, v, parts, third, a, b)
    ensures Parsed(release) == Ok(v)
  {
    hide IndexOf, Split, Join, Atoi, Trim, Numeral;
    var front, dashed := Join(parts, "."), Tail(release, v.flavor) != "";
    JoinLacks(parts, '.', '-');
    ParsedParts(front, v.flavor, dashed);
    SplitJoined(parts, '.');
    AtoiReads(parts[0], v.kernel);
    if |parts| > 1 {
      AtoiReads(parts[1], v.major);
    }
    if |parts| > 2 {
      TrimmedAtoi(a, third, b, v.minor);
    }
  }

  /** Parsing gives a version exactly if the release denotes it. */
  lemma ParsedIffDenoted(release: string, v: Version)
    ensures Parsed(release) == Ok(v) <==>
            exists parts, third, a, b :: Denotes(release, v, parts, third, a, b)
  {
    hide IndexOf, Split, Join, Atoi, Trim, Numeral;
    if parts, third, a, b :| Denotes(release, v, parts, third, a, b) {
      DenotedIsParsed(release, v, parts, third, a, b);
    } else if Parsed(release) == Ok(v) {
      var dash := IndexOf(release, '-');
      var front := if dash < 0 then release else release[..dash];
      var parts := Split(front, '.');
      JoinSplits(front, '.');
      SplitLacks(front, '.', '-');
      AtoiReads(parts[0], v.kernel);
      var third, a, b := "", 0, 0;
      if |parts| > 1 {
        AtoiReads(parts[1], v.major);
      }
      if |parts| > 2 {
        third := Trim(parts[2]);
        AtoiReads(third, v.minor);
        a, b := TrimIs(parts[2]);
      }
      assert release == front + Tail(release, v.flavor);
      assert Denotes(release, v, parts, third, a, b);
    }
  }
}
