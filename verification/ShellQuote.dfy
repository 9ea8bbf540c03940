/** ShellQuoteArguments of utils/utils.go, against the way a shell reads a
    command line (sections 2.2, 2.3 and 2.6.7 of the POSIX.1-2017 Shell Command
    Language). */
module ShellQuote {
  import opened Sequences

  /** The characters for which quote does not leave a word as it is. */
  const SPECIAL: string := "\\'\"`${[|&;<>()~*?! \t\n"

  predicate Simple(word: string) {
    word != "" && forall i :: 0 <= i < |word| ==> word[i] !in SPECIAL
  }

  /** A quote closes the quotation, is escaped, and opens it again. */
  function EscapedChar(c: char): string {
    if c == '\'' then "'\\''" else [c]
  }

  function Escaped(word: string): string {
    if word == "" then "" else Escaped(word[..|word| - 1]) + EscapedChar(word[|word| - 1])
  }

  function Quoted(word: string): string {
    if Simple(word) then word else "'" + Escaped(word) + "'"
  }

  function Line(args: seq<string>): string {
    if args == [] then ""
    else if |args| == 1 then Quoted(args[0])
    else Quoted(args[0]) + " " + Line(args[1..])
  }

  class Buffer {
    var text: string

    constructor ()
      ensures text == ""
    {
      text := "";
    }

    method Write(s: string)
      modifies this
      ensures text == old(text) + s
    {
      text := text + s;
    }
  }

  method ContainsAny(s: string, chars: string) returns (found: bool)
    ensures found <==> exists i :: 0 <= i < |s| && s[i] in chars
  {
    var i := 0;
    while i < |s|
      invariant i <= |s| && forall k :: 0 <= k < i ==> s[k] !in chars
    {
      if s[i] in chars {
        return true;
      }
      i := i + 1;
    }
    return false;
  }

  lemma EscapedStep(word: string, i: nat)
    ensures Escaped(word[..0]) == ""
    ensures i < |word| ==> Escaped(word[..i + 1]) == Escaped(word[..i]) + EscapedChar(word[i])
    ensures EscapedChar('\'') == "'\\''" && forall c :: c != '\'' ==> EscapedChar(c) == [c]
  {
    if i < |word| {
      assert word[..i + 1][..i] == word[..i];
    }
  }

  method Quote(word: string, buf: Buffer)
    modifies buf
    ensures buf.text == old(buf.text) + Quoted(word)
  {
    hide Escaped, EscapedChar;
    var special := ContainsAny(word, SPECIAL);
    if word != "" && !special {
      buf.Write(word);
      return;
    }
    buf.Write("'");
    EscapedStep(word, 0);
    var i := 0;
    while i < |word|
      invariant i <= |word| && buf.text == old(buf.text) + "'" + Escaped(word[..i])
    {
      EscapedStep(word, i);
      var b := word[i];
      if b == '\'' {
        buf.Write("'\\''");
      } else {
        buf.Write([b]);
      }
      i := i + 1;
    }
    assert word[..i] == word;
    buf.Write("'");
    assert buf.text == old(buf.text) + ("'" + Escaped(word) + "'");
  }

  lemma {:induction false} LineAppend(args: seq<string>, a: string)
    ensures Line(args + [a]) == if args == [] then Quoted(a) else Line(args) + " " + Quoted(a)
  {
    hide Quoted;
    if args == [] {
      assert args + [a] == [a];
    } else {
      LineAppend(args[1..], a);
      assert (args + [a])[1..] == args[1..] + [a];
    }
  }

  method ShellQuoteArguments(args: seq<string>) returns (line: string)
    ensures line == Line(args)
  {
    hide Quoted;
    var buf := new Buffer();
    var i := 0;
    while i < |args|
      invariant i <= |args| && buf.text == Line(args[..i])
    {
      LineAppend(args[..i], args[i]);
      assert args[..i + 1] == args[..i] + [args[i]];
      if i != 0 {
        buf.Write(" ");
      }
      Quote(args[i], buf);
      i := i + 1;
    }
    assert args[..i] == args;
    line := buf.text;
  }

  /** Characters that end a command, expand, or open another kind of quotation. */
  const ACTIVE: string := "\"`$|&;<>()*?[\n"

  predicate Blank(c: char) {
    c == ' ' || c == '\t'
  }

  function Prepend(w: string, words: Option<seq<string>>): Option<seq<string>> {
    if words.Some? then Some([w] + words.value) else None
  }

  /** The words of one simple command. None if the line is more than that, or
      has something left for the shell to expand. */
  function Split(s: string): Option<seq<string>>
    decreases |s|, 1
  {
    if s == "" then Some([])
    else if Blank(s[0]) then Split(s[1..])
    else if s[0] == '#' then if '\n' in s then None else Some([])
    else if s[0] == '~' then None
    else SplitWord(s, "")
  }

  /** Inside a word of which w has been read. */
  function SplitWord(s: string, w: string): Option<seq<string>>
    decreases |s|, 0
  {
    if s == "" then Some([w])
    else if Blank(s[0]) then Prepend(w, Split(s[1..]))
    else if s[0] == '\'' then SplitQuoted(s[1..], w)
    else if s[0] == '\\' then
      if |s| == 1 then None
      else if s[1] == '\n' then SplitWord(s[2..], w)
      else SplitWord(s[2..], w + [s[1]])
    else if s[0] in ACTIVE then None
    else SplitWord(s[1..], w + [s[0]])
  }

  /** Inside single quotes. */
  function SplitQuoted(s: string, w: string): Option<seq<string>>
    decreases |s|, 0
  {
    if s == "" then None
    else if s[0] == '\'' then SplitWord(s[1..], w)
    else SplitQuoted(s[1..], w + [s[0]])
  }

  /** The end of the line or of the word. */
  predicate Ends(rest: string) {
    rest == "" || rest[0] == ' '
  }

  lemma {:induction false} PlainIsRead(word: string, rest: string, w: string)
    requires forall i :: 0 <= i < |word| ==> word[i] !in SPECIAL
    ensures SplitWord(word + rest, w) == SplitWord(rest, w + word)
  {
    var s := word + rest;
    if word == "" {
      assert s == rest && w + word == w;
    } else {
      assert word[0] !in SPECIAL;
      PlainCharacter(word[0]);
      PlainIsRead(word[1..], rest, w + [word[0]]);
      assert s[1..] == word[1..] + rest;
      assert w + [word[0]] + word[1..] == w + word;
    }
  }

  lemma PlainCharacter(c: char)
    requires c !in SPECIAL
    ensures c !in ACTIVE && c != '\'' && c != '\\' && c != '~' && !Blank(c)
  {
    assert SPECIAL ==
           ['\\',
            '\'', '"', '`', '$', '{', '[', '|', '&', ';', '<', '>', '(', ')', '~', '*', '?', '!', ' ', '\t', '\n'];
    assert ACTIVE == ['"', '`', '$', '|', '&', ';', '<', '>', '(', ')', '*', '?', '[', '\n'];
  }

  lemma {:induction false} EscapedFront(word: string)
    requires word != ""
    ensures Escaped(word) == EscapedChar(word[0]) + Escaped(word[1..])
    decreases |word|
  {
    hide EscapedChar, Escaped;
    var n := |word| - 1;
    EscapedStep(word, n);
    assert word[..n + 1] == word;
    if n == 0 {
      EscapedStep(word[1..], 0);
      assert word[1..][..0] == word[1..];
    } else {
      var inner := word[1..][..n - 1];
      EscapedFront(word[..n]);
      assert word[..n][1..] == inner;
      EscapedStep(word[1..], n - 1);
      assert word[1..][..n] == word[1..];
      assert EscapedChar(word[0]) + Escaped(inner) + EscapedChar(word[n]) ==
          EscapedChar(word[0]) + (Escaped(inner) + EscapedChar(word[n]));
    }
  }

  lemma {:induction false} EscapedIsRead(word: string, rest: string, w: string)
    ensures SplitQuoted(Escaped(word) + "'" + rest, w) == SplitWord(rest, w + word)
    decreases |word|
  {
    hide Escaped, SplitWord;
    EscapedStep(word, 0);
    assert word[..0] == "";
    if word == "" {
      assert Escaped(word) + "'" + rest == "'" + rest;
      assert ("'" + rest)[1..] == rest && w + word == w;
    } else {
      EscapedFront(word);
      var more := Escaped(word[1..]) + "'" + rest;
      EscapedIsRead(word[1..], rest, w + [word[0]]);
      assert w + [word[0]] + word[1..] == w + word;
      if word[0] == '\'' {
        assert Escaped(word) + "'" + rest == "'\\''" + more;
        QuoteIsRead(more, w);
      } else {
        assert Escaped(word) + "'" + rest == [word[0]] + more;
      }
    }
  }

  lemma QuoteIsRead(more: string, w: string)
    ensures SplitQuoted("'\\''" + more, w) == SplitQuoted(more, w + "'")
  {
    var s, a, b := "'\\''" + more, "\\''" + more, "'" + more;
    assert s[1..] == a && a[2..] == b && b[1..] == more;
    assert SplitQuoted(s, w) == SplitWord(a, w);
    assert SplitWord(a, w) == SplitWord(b, w + "'");
    assert SplitWord(b, w + "'") == SplitQuoted(more, w + "'");
  }

  /** A word that would begin a comment. */
  predicate Commented(word: string) {
    Simple(word) && word[0] == '#'
  }

  /** What can follow a word ends it. */
  lemma EndIsRead(word: string, rest: string)
    requires Ends(rest)
    ensures SplitWord(rest, word) == Prepend(word, Split(rest))
  {
    assert [word] + [] == [word];
  }

  lemma QuotationIsRead(word: string, rest: string)
    ensures Split("'" + Escaped(word) + "'" + rest) == SplitWord(rest, word)
  {
    hide Escaped;
    var s := "'" + Escaped(word) + "'" + rest;
    EscapedIsRead(word, rest, "");
    assert s[1..] == Escaped(word) + "'" + rest;
    assert Split(s) == SplitWord(s, "") == SplitQuoted(s[1..], "");
    assert "" + word == word;
  }

  lemma WordIsRead(word: string, rest: string)
    requires !Commented(word) && Ends(rest)
    ensures Split(Quoted(word) + rest) == Prepend(word, Split(rest))
  {
    hide Escaped, SplitWord;
    EndIsRead(word, rest);
    if Simple(word) {
      PlainCharacter(word[0]);
      PlainIsRead(word, rest, "");
      assert "" + word == word;
    } else {
      QuotationIsRead(word, rest);
    }
  }

  lemma CommentIsSkipped(word: string, rest: string)
    requires Commented(word)
    ensures Split(Quoted(word) + rest) in {None, Some([])}
  {
  }

  lemma NothingIsRead()
    ensures Split(Line([])) == Some([])
  {
  }

  lemma FrontIsRead(args: seq<string>)
    requires args != []
    ensures if Commented(args[0]) then Split(Line(args)) in {None, Some([])}
            else Split(Line(args)) == Prepend(args[0], Split(Line(args[1..])))
  {
    hide Quoted, Commented, SplitWord;
    var rest := if |args| == 1 then "" else " " + Line(args[1..]);
    assert Line(args) == Quoted(args[0]) + rest;
    if Commented(args[0]) {
      CommentIsSkipped(args[0], rest);
    } else {
      WordIsRead(args[0], rest);
      BlankIsSkipped(Line(args[1..]));
      assert args[1..] == [] ==> Line(args[1..]) == "";
    }
  }

  /** The shell reads the arguments up to the first that begins a comment, if it
      reads the line as one command at all. */
  lemma {:induction false} LineIsRead(args: seq<string>)
    ensures (forall i :: 0 <= i < |args| ==> !Commented(args[i])) ==> Split(Line(args)) == Some(args)
    ensures (exists i :: 0 <= i < |args| && Commented(args[i])) ==>
              Split(Line(args)).Some? ==> |Split(Line(args)).value| < |args|
    decreases |args|
  {
    hide Commented, Split, Line;
    if args == [] {
      NothingIsRead();
    } else {
      FrontIsRead(args);
      LineIsRead(args[1..]);
      assert [args[0]] + args[1..] == args;
      assert forall i :: 0 <= i < |args[1..]| ==> args[1..][i] == args[i + 1];
    }
  }

  lemma BlankIsSkipped(s: string)
    ensures Split(" " + s) == Split(s)
  {
    assert (" " + s)[1..] == s;
  }

  /** The shell gets the arguments back exactly if no argument that is left
      unquoted begins with '#'. */
  lemma QuotingRoundTrips(args: seq<string>)
    ensures Split(Line(args)) == Some(args) <==> forall i :: 0 <= i < |args| ==> !Commented(args[i])
  {
    LineIsRead(args);
  }

  lemma QuotingIsInjective(args: seq<string>, args': seq<string>)
    requires forall i :: 0 <= i < |args| ==> !Commented(args[i])
    requires forall i :: 0 <= i < |args'| ==> !Commented(args'[i])
    requires Line(args) == Line(args')
    ensures args == args'
  {
    QuotingRoundTrips(args);
    QuotingRoundTrips(args');
  }
}
