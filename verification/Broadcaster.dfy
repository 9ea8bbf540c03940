/** WriteBroadcaster of utils/utils.go: every write goes to all writers; those
    with a stream name get it cut into lines and encoded. */
module Broadcaster {
  import opened Sequences

  /** The complete lines at the front of b, and what is left. */
  function Lines(b: string): seq<string>
    decreases |b|
  {
    var i := IndexOf(b, '\n');
    if i < 0 then [] else [b[..i + 1]] + Lines(b[i + 1..])
  }

  function Rest(b: string): string
    decreases |b|
  {
    var i := IndexOf(b, '\n');
    if i < 0 then b else Rest(b[i + 1..])
  }

  lemma LinesStep(b: string)
    ensures var i := IndexOf(b, '\n');
            if i < 0 then Lines(b) == [] && Rest(b) == b
            else Lines(b) == [b[..i + 1]] + Lines(b[i + 1..]) && Rest(b) == Rest(b[i + 1..])
  {
  }

  function Concat(parts: seq<string>): string {
    if parts == [] then "" else parts[0] + Concat(parts[1..])
  }

  /** Ends with its only newline. */
  ghost predicate IsLine(l: string) {
    l != "" && l[|l| - 1] == '\n' && '\n' !in l[..|l| - 1]
  }

  lemma {:induction false} CutIsExact(b: string)
    ensures Concat(Lines(b)) + Rest(b) == b
    ensures forall i :: 0 <= i < |Lines(b)| ==> IsLine(Lines(b)[i])
    ensures '\n' !in Rest(b)
    decreases |b|
  {
    hide IndexOf, IsLine, Concat, Lines, Rest;
    var i := IndexOf(b, '\n');
    LinesStep(b);
    if i < 0 {
      ConcatFront("", []);
    } else {
      var l, more := b[..i + 1], b[i + 1..];
      CutIsExact(more);
      FirstLine(b, i);
      ConcatFront(l, Lines(more));
      assert b == l + more == l + (Concat(Lines(more)) + Rest(more));
    }
  }

  lemma FirstLine(b: string, i: nat)
    requires i < |b| && b[i] == '\n' && forall k :: 0 <= k < i ==> b[k] != '\n'
    ensures IsLine(b[..i + 1])
  {
    var l := b[..i + 1];
    assert l[..i] == b[..i];
  }

  lemma ConcatFront(l: string, parts: seq<string>)
    ensures Concat([]) == "" && Concat([l] + parts) == l + Concat(parts)
  {
    assert ([l] + parts)[1..] == parts;
  }

  lemma IndexInFront(a: string, b: string)
    requires IndexOf(a, '\n') >= 0
    ensures IndexOf(a + b, '\n') == IndexOf(a, '\n')
  {
    hide IndexOf;
    var i := IndexOf(a, '\n');
    assert forall k :: 0 <= k <= i ==> (a + b)[k] == a[k];
  }

  /** What is left of the first part goes before the second. */
  lemma {:induction false} CutInParts(a: string, b: string)
    ensures Lines(a + b) == Lines(a) + Lines(Rest(a) + b)
    ensures Rest(a + b) == Rest(Rest(a) + b)
    decreases |a|
  {
    hide IndexOf, Lines, Rest;
    var i := IndexOf(a, '\n');
    LinesStep(a);
    if i < 0 {
      assert [] + Lines(a + b) == Lines(a + b);
    } else {
      var l, more := a[..i + 1], a[i + 1..];
      IndexInFront(a, b);
      LinesStep(a + b);
      assert (a + b)[..i + 1] == l && (a + b)[i + 1..] == more + b;
      CutInParts(more, b);
      assert [l] + (Lines(more) + Lines(Rest(more) + b)) == ([l] + Lines(more)) + Lines(Rest(more) + b);
    }
  }

  class Sink {
    const stream: string
    var got: seq<string>
    var failures: seq<bool>

    constructor (stream: string)
      ensures this.stream == stream && got == []
    {
      this.stream := stream;
      got, failures := [], [];
    }

    /** The next write fails. */
    predicate Fails()
      reads this
    {
      failures != [] && failures[0]
    }

    method Write(p: string) returns (ok: bool)
      modifies this
      ensures ok <==> !old(Fails())
      ensures got == if ok then old(got) + [p] else old(got)
    {
      ok := failures == [] || !failures[0];
      failures := if failures == [] then [] else failures[1..];
      if ok {
        got := got + [p];
      }
    }
  }

  /** The encoded lines of a stream, one a line; those that cannot be encoded
      are left out. */
  function Records(encode: (string, string) -> Option<string>, stream: string, lines: seq<string>): string {
    if lines == [] then ""
    else
      var last := encode(stream, lines[|lines| - 1]);
      Records(encode, stream, lines[..|lines| - 1]) + if last.Some? then last.value + "\n" else ""
  }

  lemma RecordsStep(encode: (string, string) -> Option<string>, stream: string, lines: seq<string>, l: string)
    ensures Records(encode, stream, []) == ""
    ensures Records(encode, stream, lines + [l]) ==
            Records(encode, stream, lines) + if encode(stream, l).Some? then encode(stream, l).value + "\n" else ""
  {
    assert (lines + [l])[..|lines|] == lines;
  }

  lemma OneLine(code: string)
    requires '\n' !in code
    ensures Lines(code + "\n") == [code + "\n"] && Rest(code + "\n") == "" && Lines("") == [] && Rest("") == ""
  {
    hide IndexOf, Lines, Rest;
    var l := code + "\n";
    IndexIs(l, '\n', |code|);
    LinesStep(l);
    LinesStep("");
    assert l[..|code| + 1] == l && l[|code| + 1..] == "";
  }

  /** A reader of the records gets one line for each, if no code has a newline. */
  lemma {:induction false} RecordsAreLines(
    encode: (string, string) -> Option<string>, stream: string, lines: seq<string>, codes: seq<string>)
    requires |codes| == |lines|
    requires forall i :: 0 <= i < |lines| ==> encode(stream, lines[i]) == Some(codes[i]) && '\n' !in codes[i]
    ensures Rest(Records(encode, stream, lines)) == "" && |Lines(Records(encode, stream, lines))| == |lines|
    ensures forall i :: 0 <= i < |lines| ==> Lines(Records(encode, stream, lines))[i] == codes[i] + "\n"
    decreases |lines|
  {
    hide IndexOf, Lines, Rest;
    if lines == [] {
      OneLine("");
    } else {
      var last := |lines| - 1;
      RecordsAreLines(encode, stream, lines[..last], codes[..last]);
      CutInParts(Records(encode, stream, lines[..last]), codes[last] + "\n");
      OneLine(codes[last]);
      assert "" + (codes[last] + "\n") == codes[last] + "\n";
    }
  }

  class WriteBroadcaster {
    var buf: string
    var writers: set<Sink>
    const encode: (string, string) -> Option<string>
    ghost var logged: seq<string> // the lines taken from the buffer

    constructor (encode: (string, string) -> Option<string>)
      ensures this.encode == encode && buf == "" && writers == {} && logged == []
    {
      this.encode := encode;
      buf, writers, logged := "", {}, [];
    }

    /** Takes all complete lines from the buffer. */
    method Drain(stream: string) returns (lp: string, ok: bool)
      modifies this`buf, this`logged
      ensures buf == Rest(old(buf)) && logged == old(logged) + Lines(old(buf))
      ensures lp == Records(encode, stream, Lines(old(buf)))
      ensures ok <==> forall l :: l in Lines(old(buf)) ==> encode(stream, l).Some?
    {
      hide IndexOf, Lines, Rest, Records;
      RecordsStep(encode, stream, [], "");
      lp, ok := "", true;
      ghost var done: seq<string> := [];
      while true
        invariant logged == old(logged) + done
        invariant done + Lines(buf) == Lines(old(buf)) && Rest(buf) == Rest(old(buf))
        invariant lp == Records(encode, stream, done)
        invariant ok <==> forall l :: l in done ==> encode(stream, l).Some?
        decreases |buf|
      {
        var i := IndexOf(buf, '\n');
        LinesStep(buf);
        if i < 0 {
          break;
        }
        var line := buf[..i + 1];
        RecordsStep(encode, stream, done, line);
        assert done + ([line] + Lines(buf[i + 1..])) == done + [line] + Lines(buf[i + 1..]);
        buf := buf[i + 1..];
        logged := logged + [line];
        done := done + [line];
        var b := encode(stream, line);
        if b.None? {
          ok := false;
          continue;
        }
        lp := lp + (b.value + "\n");
      }
      assert done + [] == done;
    }

    /** What one writer is given. It is evicted exactly if that or the encoding
        of a line fails. */
    method WriteTo(sw: Sink, p: string) returns (evicted: bool)
      modifies this`buf, this`logged, sw
      ensures sw.stream == "" ==>
                && buf == old(buf) && logged == old(logged) && evicted == old(sw.Fails())
                && sw.got == (if evicted then old(sw.got) else old(sw.got) + [p])
      ensures sw.stream != "" ==>
                && buf == Rest(old(buf)) && logged == old(logged) + Lines(old(buf))
                && Served(old(sw.got), sw.got, sw.stream, Lines(old(buf)), old(sw.Fails()), evicted)
    {
      hide Lines, Rest, Records;
      evicted := false;
      var lp := p;
      if sw.stream != "" {
        var ok;
        lp, ok := Drain(sw.stream);
        evicted := !ok;
      }
      var ok := sw.Write(lp);
      if !ok {
        evicted := true;
      }
    }

    /** What a stream writer has got after some lines, if its write fails or not. */
    ghost predicate Served(
      before: seq<string>, after: seq<string>, stream: string, lines: seq<string>, fails: bool, evicted: bool)
    {
      && after == (if fails then before else before + [Records(encode, stream, lines)])
      && (evicted <==> fails || exists l :: l in lines && encode(stream, l).None?)
    }

    /** What a writer has got of the write p, with which the buffer is `all`: the
        bytes, or the lines if it is the first stream writer, or nothing. */
    ghost predicate Got(
      s: Sink, before: seq<string>, fails: bool, p: string, all: string, first: Sink?, evicted: bool)
      reads s
    {
      if s.stream == "" then evicted == fails && s.got == (if fails then before else before + [p])
      else first != null && Served(before, s.got, s.stream, if s == first then Lines(all) else [], fails, evicted)
    }

    /** The turn of one writer. */
    method Serve(sw: Sink, p: string, ghost all: string, ghost first: Sink?) returns (evicted: bool, ghost now: Sink?)
      requires buf == (if first == null then all else Rest(all)) && first != sw
      modifies this`buf, this`logged, sw
      ensures now == (if first == null && sw.stream != "" then sw else first)
      ensures buf == if now == null then all else Rest(all)
      ensures logged == old(logged) + if first == null && now != null then Lines(all) else []
      ensures Got(sw, old(sw.got), old(sw.Fails()), p, all, now, evicted)
    {
      hide Lines, Rest, Records, Served;
      RestIsCut(all);
      now := if first == null && sw.stream != "" then sw else first;
      evicted := WriteTo(sw, p);
    }

    /** Before there was a stream writer, it did not matter who would be the first. */
    lemma GotEarlier(
      s: Sink, before: seq<string>, fails: bool, p: string, all: string, first: Sink?, evicted: bool)
      requires Got(s, before, fails, p, all, null, evicted)
      ensures Got(s, before, fails, p, all, first, evicted)
    {
    }

    /** Every writer gets the write, or the lines it completes; exactly those whose
        write or encoding fails are evicted. Of several stream writers the one that is
        visited first gets all the lines, the others an empty write. */
    method Write(p: string) returns (n: nat, ghost first: Sink?)
      modifies this, writers
      ensures n == |p| && writers <= old(writers)
      ensures first == null <==> forall s :: s in old(writers) ==> s.stream == ""
      ensures first != null ==> first in old(writers) && first.stream != ""
      ensures buf == if first == null then old(buf) + p else Rest(old(buf) + p)
      ensures logged == old(logged) + if first == null then [] else Lines(old(buf) + p)
      ensures forall s :: s in old(writers) ==>
                Got(s, old(s.got), old(s.Fails()), p, old(buf) + p, first, s !in writers)
    {
      hide Lines, Rest, Got;
      var all := buf + p;
      buf := all;
      var todo := writers;
      first := null;
      while todo != {}
        invariant todo <= writers <= old(writers)
        invariant buf == if first == null then all else Rest(all)
        invariant logged == old(logged) + if first == null then [] else Lines(all)
        invariant first == null <==> forall s :: s in old(writers) - todo ==> s.stream == ""
        invariant first != null ==> first in old(writers) - todo && first.stream != ""
        invariant forall s :: s in todo ==> s in writers && s.got == old(s.got) && s.Fails() == old(s.Fails())
        invariant forall s :: s in old(writers) - todo ==>
                    Got(s, old(s.got), old(s.Fails()), p, all, first, s !in writers)
      {
        var sw :| sw in todo;
        ghost var done := old(writers) - todo;
        todo := todo - {sw};
        var evicted;
        if first == null {
          forall s | s in done
            ensures Got(s, old(s.got), old(s.Fails()), p, all, sw, s !in writers)
          {
            GotEarlier(s, old(s.got), old(s.Fails()), p, all, sw, s !in writers);
          }
        }
        evicted, first := Serve(sw, p, all, first);
        if evicted {
          writers := writers - {sw};
        }
      }
      n := |p|;
    }

    ghost predicate Streaming()
      reads this, writers
    {
      exists s :: s in writers && s.stream != ""
    }

    /** Writes in a row, until no stream writer is left. */
    method WriteAll(ps: seq<string>) returns (n: nat)
      modifies this, writers
      ensures n <= |ps| && writers <= old(writers)
      ensures n < |ps| ==> !Streaming()
      ensures buf == Buffered(old(buf), ps[..n]) && logged == old(logged) + Logged(old(buf), ps[..n])
      ensures forall s :: s in writers && s.stream == "" ==> s.got == old(s.got) + ps[..n]
    {
      hide Lines, Rest, Records, Served, Buffered, Logged;
      n := 0;
      NothingWritten(buf);
      while n < |ps|
        invariant n <= |ps| && writers <= old(writers)
        invariant buf == Buffered(old(buf), ps[..n]) && logged == old(logged) + Logged(old(buf), ps[..n])
        invariant forall s :: s in writers && s.stream == "" ==> s.got == old(s.got) + ps[..n]
      {
        var streaming := AnyStream();
        if !streaming {
          return;
        }
        OneMoreWrite(old(buf), ps, n);
        var _, _ := Write(ps[n]);
        n := n + 1;
      }
    }

    method AnyStream() returns (any: bool)
      ensures any <==> Streaming()
    {
      var todo := writers;
      any := false;
      while todo != {}
        invariant todo <= writers
        invariant any ==> Streaming()
        invariant forall s :: s in writers && s !in todo && s.stream != "" ==> any
      {
        var sw :| sw in todo;
        todo := todo - {sw};
        any := any || sw.stream != "";
      }
    }
  }

  /** Nothing more can be taken from what is left. */
  lemma RestIsCut(b: string)
    ensures Lines(Rest(b)) == [] && Rest(Rest(b)) == Rest(b)
  {
    CutIsExact(b);
    hide IndexOf;
  }

  /** The buffer and the log after some writes with a stream writer. */
  function Buffered(buf: string, ps: seq<string>): string {
    if ps == [] then buf else Rest(Buffered(buf, ps[..|ps| - 1]) + ps[|ps| - 1])
  }

  function Logged(buf: string, ps: seq<string>): seq<string> {
    if ps == [] then []
    else Logged(buf, ps[..|ps| - 1]) + Lines(Buffered(buf, ps[..|ps| - 1]) + ps[|ps| - 1])
  }

  lemma NothingWritten(buf: string)
    ensures Buffered(buf, []) == buf && Logged(buf, []) == []
  {
  }

  lemma OneMoreWrite(buf: string, ps: seq<string>, n: nat)
    requires n < |ps|
    ensures var before := Buffered(buf, ps[..n]) + ps[n];
            && Buffered(buf, ps[..n + 1]) == Rest(before)
            && Logged(buf, ps[..n + 1]) == Logged(buf, ps[..n]) + Lines(before)
            && ps[..n + 1] == ps[..n] + [ps[n]]
  {
    assert ps[..n + 1][..n] == ps[..n];
  }

  lemma {:induction false} ConcatAppend(parts: seq<string>, p: string)
    ensures Concat(parts + [p]) == Concat(parts) + p
  {
    if parts == [] {
      assert parts + [p] == [p];
    } else {
      ConcatAppend(parts[1..], p);
      assert (parts + [p])[1..] == parts[1..] + [p];
    }
  }

  /** However the bytes are cut into writes, the log is the lines of all of them
      and the buffer what is left: nothing lost, nothing twice. */
  lemma {:induction false} WritesConserve(ps: seq<string>)
    ensures Logged("", ps) == Lines(Concat(ps)) && Buffered("", ps) == Rest(Concat(ps))
    ensures Concat(Logged("", ps)) + Buffered("", ps) == Concat(ps)
    ensures forall i :: 0 <= i < |Logged("", ps)| ==> IsLine(Logged("", ps)[i])
    ensures '\n' !in Buffered("", ps)
  {
    if ps != [] {
      var before, p := ps[..|ps| - 1], ps[|ps| - 1];
      WritesConserve(before);
      assert ps == before + [p];
      ConcatAppend(before, p);
      CutInParts(Concat(before), p);
    }
    CutIsExact(Concat(ps));
  }
}
