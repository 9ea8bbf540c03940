/** TruncIndex of utils/utils.go: ids found by any prefix that only one of them
    has. The ids are kept in one byte string, each after a space, and looked up
    by searching that string. */
module TruncIndex {
  import opened Sequences

  datatype Outcome<+T> = Success(value: T) | Failure | Panic

  predicate Spaceless(s: string) {
    ' ' !in s
  }

  /** The byte string for a list of words, some of which may be empty. */
  function Render(words: seq<string>): (b: string)
    ensures |b| > 0 && b[0] == ' '
  {
    if words == [] then " " else " " + words[0] + Render(words[1..])
  }

  /** The words of a byte string that begins with a space. */
  function Words(b: string): (words: seq<string>)
    decreases |b|
  {
    if b == [] then []
    else
      var i := IndexOf(b[1..], ' ');
      if i < 0 then [] else [b[1..][..i]] + Words(b[1 + i..])
  }

  lemma RenderFront(words: seq<string>)
    requires words != []
    ensures var b, w, rest := Render(words), words[0], Render(words[1..]);
            && |b| == 1 + |w| + |rest|
            && b[1..][..|w|] == b[1..1 + |w|] == w
            && b[1..][|w|] == b[1 + |w|] == ' '
            && b[1 + |w|..] == rest
  {
    var b, w, rest := Render(words), words[0], Render(words[1..]);
    assert b[1..] == w + rest;
  }

  lemma WordsFront(b: string, n: nat)
    requires n + 1 < |b| && b[1 + n] == ' ' && Spaceless(b[1..][..n])
    ensures Words(b) == [b[1..][..n]] + Words(b[1 + n..])
  {
    hide IndexOf;
    SpaceIs(b[1..], n);
  }

  lemma {:induction false} WordsRender(words: seq<string>)
    requires forall i :: 0 <= i < |words| ==> Spaceless(words[i])
    ensures Words(Render(words)) == words
    decreases |words|
  {
    if words == [] {
      assert Words(" ") == [];
    } else {
      WordsOfMore(words);
      WordsRender(words[1..]);
    }
  }

  lemma WordsOfMore(words: seq<string>)
    requires words != [] && Spaceless(words[0])
    ensures Words(Render(words)) == [words[0]] + Words(Render(words[1..]))
  {
    hide Render, Words;
    RenderFront(words);
    WordsFront(Render(words), |words[0]|);
  }

  lemma SpaceIs(s: string, n: nat)
    requires n < |s| && s[n] == ' ' && Spaceless(s[..n])
    ensures IndexOf(s, ' ') == n
  {
    assert forall k :: 0 <= k < n ==> s[..n][k] == s[k];
    IndexIs(s, ' ', n);
  }

  lemma RenderMore(words: seq<string>, more: seq<string>, w: string)
    requires words != [] && more == words[1..] + [w]
    ensures Render(words + [w]) == " " + words[0] + Render(more)
  {
    assert (words + [w])[1..] == more;
  }

  lemma RenderOne(w: string)
    ensures Render([w]) == " " + w + " "
  {
    assert Render([w][1..]) == " ";
  }

  lemma Regroup(a: string, b: string, c: string)
    ensures a + (b + c + " ") == a + b + c + " "
  {
  }

  lemma {:induction false} RenderAppend(words: seq<string>, w: string)
    ensures Render(words + [w]) == Render(words) + w + " "
    decreases |words|
  {
    if words == [] {
      assert words + [w] == [w];
      RenderOne(w);
    } else {
      RenderAppend(words[1..], w);
      RenderMore(words, words[1..] + [w], w);
      Regroup(" " + words[0], Render(words[1..]), w);
    }
  }

  /** Where word i begins. */
  function Pos(words: seq<string>, i: nat): (p: nat)
    requires i <= |words|
    ensures p > 0
  {
    if i == 0 then 1 else 1 + |words[0]| + Pos(words[1..], i - 1)
  }

  ghost predicate Occurs(b: string, pat: string, off: nat) {
    off + |pat| <= |b| && b[off..off + |pat|] == pat
  }

  lemma {:induction false} WordAt(words: seq<string>, i: nat)
    requires i < |words|
    ensures Pos(words, i) + |words[i]| < |Render(words)|
    ensures Render(words)[Pos(words, i)..][..|words[i]|] == words[i]
    ensures Render(words)[Pos(words, i) + |words[i]|] == ' '
    decreases i
  {
    hide Render;
    var b, rest := Render(words), Render(words[1..]);
    RenderFront(words);
    if i > 0 {
      WordAt(words[1..], i - 1);
      DropDrop(b, 1 + |words[0]|, Pos(words[1..], i - 1), |words[i]|);
    }
  }

  lemma DropDrop(b: string, m: nat, n: nat, k: nat)
    requires m + n + k < |b|
    ensures b[m..][n..] == b[m + n..] && b[m..][n + k] == b[m + n + k]
  {
  }

  lemma WordEnds(words: seq<string>, i: nat)
    requires i < |words| && Spaceless(words[i])
    ensures Pos(words, i) + |words[i]| < |Render(words)|
    ensures IndexOf(Render(words)[Pos(words, i)..], ' ') == |words[i]|
  {
    hide Render, Pos, IndexOf;
    WordAt(words, i);
    SpaceIs(Render(words)[Pos(words, i)..], |words[i]|);
  }

  /** Overwriting a word with nothing. */
  lemma {:induction false} RenderErase(words: seq<string>, i: nat)
    requires i < |words|
    ensures var b, p := Render(words), Pos(words, i);
            && p + |words[i]| <= |b|
            && Render(words[i := ""]) == b[..p] + b[p + |words[i]|..]
    decreases i
  {
    if i == 0 {
      RenderFront(words);
      assert words[0 := ""][1..] == words[1..];
      assert Render(words)[..1] == " ";
    } else {
      RenderErase(words[1..], i - 1);
      var p := Pos(words[1..], i - 1);
      assert words[i := ""][1..] == words[1..][i - 1 := ""];
      CutBehind(" " + words[0], Render(words[1..]), p, p + |words[i]|);
    }
  }

  lemma CutBehind(front: string, rest: string, p: nat, q: nat)
    requires p <= q <= |rest|
    ensures (front + rest)[..|front| + p] + (front + rest)[|front| + q..] == front + (rest[..p] + rest[q..])
  {
  }

  /** Some word that begins with s begins right after `off`. */
  ghost predicate Hit(words: seq<string>, s: string, off: nat) {
    exists i: nat :: i < |words| && s <= words[i] && off == Pos(words, i) - 1
  }

  lemma HitLater(words: seq<string>, s: string, off: nat)
    requires words != [] && off >= 1 + |words[0]|
    ensures Hit(words, s, off) <==> Hit(words[1..], s, off - 1 - |words[0]|)
  {
    var gap := 1 + |words[0]|;
    if Hit(words, s, off) {
      var i: nat :| i < |words| && s <= words[i] && off == Pos(words, i) - 1;
      assert s <= words[1..][i - 1] && off - gap == Pos(words[1..], i - 1) - 1;
    }
    if Hit(words[1..], s, off - gap) {
      var i: nat :| i < |words[1..]| && s <= words[1..][i] && off - gap == Pos(words[1..], i) - 1;
      assert s <= words[i + 1] && off == Pos(words, i + 1) - 1;
    }
  }

  /** A search for a space and a word finds the words it is a prefix of. */
  lemma {:induction false} SearchFinds(words: seq<string>, s: string, off: nat)
    requires forall i :: 0 <= i < |words| ==> Spaceless(words[i])
    requires Spaceless(s) && s != ""
    ensures Occurs(Render(words), " " + s, off) <==> Hit(words, s, off)
    decreases |words|
  {
    var b := Render(words);
    if words != [] {
      var w, rest := words[0], Render(words[1..]);
      var gap := 1 + |w|;
      assert b[gap..] == rest;
      if off >= gap {
        SearchFinds(words[1..], s, off - gap);
        HitLater(words, s, off);
        if off + 1 + |s| <= |b| {
          assert b[off..off + 1 + |s|] == rest[off - gap..off - gap + 1 + |s|];
        }
      } else if off > 0 {
        NotInGap(words, s, off);
      } else {
        FirstWord(words, s);
      }
    }
  }

  lemma NotInGap(words: seq<string>, s: string, off: nat)
    requires words != [] && 0 < off <= |words[0]| && Spaceless(words[0])
    ensures !Occurs(Render(words), " " + s, off) && !Hit(words, s, off)
  {
    hide Render, Occurs;
    var b, w := Render(words), words[0];
    RenderFront(words);
    assert b[off] == b[1..1 + |w|][off - 1] == w[off - 1] != ' ';
    OccursFront(b, " " + s, off);
    forall i: nat | i < |words|
      ensures Pos(words, i) - 1 != off
    {
      if i > 0 {
        PosIncreases(words, 1, i + 1);
      }
    }
  }

  lemma OccursFront(b: string, pat: string, off: nat)
    requires pat != ""
    ensures Occurs(b, pat, off) ==> off < |b| && b[off] == pat[0]
  {
    if Occurs(b, pat, off) {
      assert b[off] == b[off..off + |pat|][0];
    }
  }

  lemma FirstWord(words: seq<string>, s: string)
    requires words != [] && Spaceless(s) && s != ""
    ensures Occurs(Render(words), " " + s, 0) <==> s <= words[0]
    ensures Hit(words, s, 0) <==> s <= words[0]
  {
    var b, w := Render(words), words[0];
    var u := w + Render(words[1..]);
    assert b == " " + u && u[|w|] == ' ';
    if Occurs(b, " " + s, 0) {
      assert s == (" " + s)[1..] == b[..1 + |s|][1..] == u[..|s|];
      assert forall i :: 0 <= i < |s| ==> s[i] != ' ';
      assert |s| <= |w|;
      assert s == w[..|s|];
    }
    if s <= w {
      assert b[..1 + |s|] == " " + s;
      assert Pos(words, 0) == 1;
    }
  }

  lemma {:induction false} PosIncreases(words: seq<string>, i: nat, j: nat)
    requires i < j <= |words|
    ensures Pos(words, i) < Pos(words, j)
    decreases i
  {
    if i > 0 {
      PosIncreases(words[1..], i - 1, j - 1);
    }
  }

  class TruncIndex {
    var ids: set<string>
    var bytes: string

    /** The words of the byte string, left empty where one was deleted. */
    ghost function Slots(): seq<string>
      reads this
    {
      Words(bytes)
    }

    ghost predicate Valid()
      reads this
    {
      var words := Slots();
      bytes == Render(words) && Holds(words, ids)
    }

    constructor ()
      ensures Valid() && ids == {} && bytes == " "
    {
      ids, bytes := {}, " ";
      new;
      assert Words(" ") == [];
    }

    method Add(id: string) returns (r: Outcome<()>)
      requires Valid()
      modifies this
      ensures Valid()
      ensures r == if Spaceless(id) && id !in old(ids) then Success(()) else Failure
      ensures ids == if r.Success? then old(ids) + {id} else old(ids)
      ensures bytes == if r.Success? then old(bytes) + id + " " else old(bytes)
    {
      hide Render, Words, Holds;
      assert Spaceless(id) <==> ' ' !in id;
      if ' ' in id {
        return Failure;
      }
      if id in ids {
        return Failure;
      }
      ghost var words := Slots();
      ids := ids + {id};
      bytes := bytes + id + " ";
      RenderAppend(words, id);
      AddHolds(words, old(ids), id);
      WordsRender(words + [id]);
      return Success(());
    }

    /** Resolved exactly if the prefix occurs once after a space: without a space
        in it, if one id has it; with one, the answer is the part before it. */
    method Get(s: string) returns (r: Outcome<string>)
      requires Valid()
      ensures s == "" ==> r == if Slots() == [] then Panic else Failure
      ensures s != "" ==> !r.Panic? && (r.Success? <==> Once(bytes, " " + s))
      ensures s != "" && Spaceless(s) ==> (r.Success? <==> OneHas(ids, s))
      ensures s != "" && Spaceless(s) && r.Success? ==> r.value in ids && s <= r.value
      ensures s != "" && r.Success? ==> Spaceless(r.value) && (r.value != "" ==> r.value in ids)
      ensures !Spaceless(s) && r.Success? ==> r.value == s[..IndexOf(s, ' ')]
    {
      hide Render, Words, Once, Holds, OneHas, Pos;
      var bounds, slot := Lookup(s);
      match bounds
      case Success((before, after)) =>
        if after < before {
          return Panic;
        }
        if s != "" {
          Answer(Slots(), ids, s, before, after);
        }
        if Spaceless(s) {
          WordAt(Slots(), slot);
          assert bytes[before..after] == bytes[before..][..after - before];
        }
        return Success(bytes[before..after]);
      case _ =>
        return Failure;
    }

    /** An id can be deleted exactly if it is present, not empty, and begins no
        other id; any other call changes nothing. */
    method Delete(id: string) returns (r: Outcome<()>)
      requires Valid()
      modifies this
      ensures Valid()
      ensures r == if id != "" && id in old(ids) && (forall other :: other in old(ids) && id <= other ==> other == id)
                   then Success(()) else Failure
      ensures r.Success? ==> ids == old(ids) - {id}
      ensures r.Success? ==>
                exists i :: 0 <= i < |old(Slots())| && old(Slots())[i] == id && Slots() == old(Slots())[i := ""]
      ensures !r.Success? ==> ids == old(ids) && bytes == old(bytes)
    {
      hide Words, Render, Holds, Pos;
      if id !in ids {
        return Failure;
      }
      ghost var words := Slots();
      IdsSpaceless(words, ids, id);
      var bounds, slot := Lookup(id);
      match bounds
      case Success((before, after)) =>
        assert words[slot] == id;
        ids := ids - {id};
        RenderErase(words, slot);
        bytes := bytes[..before] + bytes[after..];
        DeleteHolds(words, old(ids), slot);
        WordsRender(words[slot := ""]);
        return Success(());
      case _ =>
        return Failure;
    }

    /** All places where the pattern occurs, as the suffix array gives them. */
    method SearchAll(pat: string) returns (offsets: seq<nat>)
      ensures forall i, j :: 0 <= i < j < |offsets| ==> offsets[i] != offsets[j]
      ensures forall off: nat :: off in offsets <==> Occurs(bytes, pat, off)
    {
      offsets := [];
      var n := 0;
      while n + |pat| <= |bytes|
        invariant forall i, j :: 0 <= i < j < |offsets| ==> offsets[i] != offsets[j]
        invariant forall off: nat :: off in offsets <==> off < n && Occurs(bytes, pat, off)
        invariant forall i :: 0 <= i < |offsets| ==> offsets[i] < n
        decreases |bytes| - n
      {
        if bytes[n..n + |pat|] == pat {
          offsets := offsets + [n];
        }
        n := n + 1;
      }
    }

    /** The bounds of the word that begins after the only occurrence. */
    method Lookup(s: string) returns (r: Outcome<(nat, int)>, ghost slot: nat)
      requires Valid()
      ensures !r.Panic?
      ensures r.Success? ==> r.value.0 <= |bytes| && -1 <= r.value.1 - r.value.0 <= |bytes| - r.value.0
      ensures s == "" ==> if Slots() == [] then r == Success((1, 0)) else r == Failure
      ensures s != "" ==> (r.Success? <==> Once(bytes, " " + s))
      ensures s != "" && r.Success? ==>
                && 0 < r.value.0 <= r.value.1 < |bytes| && Occurs(bytes, " " + s, r.value.0 - 1)
                && r.value.1 == r.value.0 + IndexOf(bytes[r.value.0..], ' ')
      ensures s != "" && Spaceless(s) ==> (r.Success? <==> OneHas(ids, s))
      ensures s != "" && Spaceless(s) && r.Success? ==>
                && slot < |Slots()| && s <= Slots()[slot] && Slots()[slot] in ids
                && r.value == (Pos(Slots(), slot), Pos(Slots(), slot) + |Slots()[slot]|)
    {
      hide Render, Words, Holds, Pos, OneHas, Once, IndexOf;
      slot := 0;
      var offsets := SearchAll(" " + s);
      OnceFound(bytes, " " + s, offsets);
      if s != "" && Spaceless(s) {
        OnceIsOne(Slots(), ids, s);
      }
      if s == "" {
        assert " " + s == " ";
        SpaceSearch(Slots(), offsets);
      }
      if |offsets| == 0 || |offsets| > 1 {
        return Failure, 0;
      }
      var before := offsets[0] + 1;
      assert Occurs(bytes, " " + s, offsets[0]);
      var after := before + IndexOf(bytes[before..], ' ');
      r := Success((before, after));
      if s != "" {
        LastIsSpace(Slots());
        assert bytes[before..][|bytes| - 1 - before] == ' ';
        assert ' ' in bytes[before..];
        if Spaceless(s) {
          assert offsets[0] in offsets;
          slot := TheOne(Slots(), ids, s, offsets[0]);
          WordEnds(Slots(), slot);
        }
      }
    }
  }

  /** Exactly one id begins with s. */
  ghost predicate OneHas(ids: set<string>, s: string) {
    exists id :: id in ids && s <= id && forall other :: other in ids && s <= other ==> other == id
  }

  lemma {:induction false} LastIsSpace(words: seq<string>)
    ensures var b := Render(words); b[|b| - 1] == ' '
    decreases |words|
  {
    if words != [] {
      LastIsSpace(words[1..]);
    }
  }

  /** The pattern occurs, and at one place only. */
  ghost predicate Once(b: string, pat: string) {
    exists off: nat :: Occurs(b, pat, off) && forall other: nat :: Occurs(b, pat, other) ==> other == off
  }

  /** A search finds one place exactly if there is one. */
  lemma OnceFound(b: string, pat: string, offsets: seq<nat>)
    requires forall i, j :: 0 <= i < j < |offsets| ==> offsets[i] != offsets[j]
    requires forall off: nat :: off in offsets <==> Occurs(b, pat, off)
    ensures |offsets| == 1 <==> Once(b, pat)
  {
    hide Occurs;
    if |offsets| > 0 {
      assert offsets[0] in offsets && Occurs(b, pat, offsets[0]);
    }
    if |offsets| > 1 {
      assert offsets[1] in offsets && Occurs(b, pat, offsets[1]) && offsets[1] != offsets[0];
    } else if |offsets| == 1 {
      forall other: nat | Occurs(b, pat, other)
        ensures other == offsets[0]
      {
        assert other in offsets;
      }
    } else {
      forall off: nat
        ensures !Occurs(b, pat, off)
      {
        assert off !in offsets;
      }
    }
  }

  /** The empty prefix finds every space, so it finds one only in an empty index. */
  lemma SpaceSearch(words: seq<string>, offsets: seq<nat>)
    requires forall i, j :: 0 <= i < j < |offsets| ==> offsets[i] != offsets[j]
    requires forall off: nat :: off in offsets <==> Occurs(Render(words), " ", off)
    ensures |offsets| == 1 <==> words == []
    ensures words == [] ==> offsets == [0] && |Render(words)| == 1
  {
    hide Occurs;
    LastIsSpace(words);
    var b := Render(words);
    OccursAt(b, 0);
    OccursAt(b, |b| - 1);
    assert words == [] <==> |b| == 1;
    if |offsets| == 1 {
      assert offsets[0] == 0 && offsets[0] == |b| - 1;
    }
    if |offsets| > 1 {
      var k := if offsets[0] == 0 then 1 else 0;
      assert offsets[k] != 0 && offsets[k] in offsets;
      OccursAt(b, offsets[k]);
    }
  }

  lemma OccursAt(b: string, off: nat)
    ensures Occurs(b, " ", off) <==> off < |b| && b[off] == ' '
  {
    if off < |b| {
      assert b[off..off + 1] == [b[off]];
    }
  }

  /** What Valid says of the words and ids. */
  ghost predicate Holds(words: seq<string>, ids: set<string>) {
    && (forall i :: 0 <= i < |words| ==> Spaceless(words[i]))
    && (forall i, j :: 0 <= i < j < |words| && words[i] == words[j] ==> words[i] == "")
    && (forall w :: w != "" ==> (w in words <==> w in ids))
    && ("" in ids ==> words != [])
  }

  lemma IdsSpaceless(words: seq<string>, ids: set<string>, id: string)
    requires Holds(words, ids) && id in ids
    ensures Spaceless(id) && (id == "" ==> words != [])
  {
    if id != "" {
      assert id in words;
    }
  }

  lemma AddHolds(words: seq<string>, ids: set<string>, id: string)
    requires Holds(words, ids) && Spaceless(id) && id !in ids
    ensures Holds(words + [id], ids + {id})
  {
  }

  lemma DeleteHolds(words: seq<string>, ids: set<string>, i: nat)
    requires Holds(words, ids) && i < |words| && words[i] != ""
    ensures Holds(words[i := ""], ids - {words[i]})
    ensures var fewer := words[i := ""]; forall j :: 0 <= j < |fewer| ==> Spaceless(fewer[j])
  {
    forall w | w != ""
      ensures w in words[i := ""] <==> w in words && w != words[i]
    {
      if w in words && w != words[i] {
        var j :| 0 <= j < |words| && words[j] == w;
        assert words[i := ""][j] == w;
      }
    }
  }

  /** One occurrence: one word, one id. */
  lemma TheOne(words: seq<string>, ids: set<string>, s: string, off: nat) returns (slot: nat)
    requires Holds(words, ids) && s != "" && Spaceless(s) && Occurs(Render(words), " " + s, off)
    requires forall other: nat :: Occurs(Render(words), " " + s, other) ==> other == off
    ensures slot < |words| && s <= words[slot] && words[slot] in ids && Spaceless(words[slot])
            && off == Pos(words, slot) - 1
    ensures OneHas(ids, s)
  {
    hide Render, Pos, Occurs;
    SearchFinds(words, s, off);
    slot :| slot < |words| && s <= words[slot] && off == Pos(words, slot) - 1;
    assert words[slot] in words;
    forall other | other in ids && s <= other
      ensures other == words[slot]
    {
      var j :| 0 <= j < |words| && words[j] == other;
      SearchFinds(words, s, Pos(words, j) - 1);
      assert Hit(words, s, Pos(words, j) - 1);
      if j < slot {
        PosIncreases(words, j, slot);
      } else if slot < j {
        PosIncreases(words, slot, j);
      }
    }
  }

  /** What stands between an occurrence and the next space. */
  lemma Answer(words: seq<string>, ids: set<string>, s: string, before: nat, after: nat)
    requires Holds(words, ids) && s != "" && 0 < before <= after < |Render(words)|
    requires Occurs(Render(words), " " + s, before - 1) && after == before + IndexOf(Render(words)[before..], ' ')
    ensures var w := Render(words)[before..after];
            && Spaceless(w) && (w != "" ==> w in ids)
            && (!Spaceless(s) ==> w == s[..IndexOf(s, ' ')])
  {
    hide Render, Holds, IndexOf, Occurs;
    var b := Render(words);
    var w := b[before..after];
    UpToSpace(b, s, before, after);
    if w != "" {
      BetweenSpaces(words, ids, w, before - 1);
    }
  }

  lemma UpToSpace(b: string, s: string, before: nat, after: nat)
    requires s != "" && 0 < before <= after < |b|
    requires Occurs(b, " " + s, before - 1) && after == before + IndexOf(b[before..], ' ')
    ensures var w := b[before..after];
            && Spaceless(w) && b[after] == ' ' && Occurs(b, " " + w, before - 1)
            && (!Spaceless(s) ==> w == s[..IndexOf(s, ' ')])
  {
    hide IndexOf;
    var tail, w := b[before..], b[before..after];
    assert tail[..|w|] == w;
    OccursFront(b, " " + s, before - 1);
    assert b[before - 1..after] == [b[before - 1]] + w;
    assert tail[..|s|] == s by {
      assert b[before - 1..before + |s|] == " " + s;
      assert b[before - 1..before + |s|][1..] == tail[..|s|];
      assert (" " + s)[1..] == s;
    }
    if !Spaceless(s) {
      var i := IndexOf(s, ' ');
      assert forall k :: 0 <= k < |s| ==> tail[k] == tail[..|s|][k];
      IndexIs(tail, ' ', i);
      assert tail[..i] == s[..i];
    }
  }

  /** Unless there is one occurrence, an id that begins with s is not the only one. */
  lemma AnotherId(words: seq<string>, ids: set<string>, s: string, id: string) returns (other: string)
    requires Holds(words, ids) && s != "" && Spaceless(s) && !Once(Render(words), " " + s)
    requires id in ids && s <= id
    ensures other in ids && s <= other && other != id
  {
    hide Render, Pos, Occurs;
    var j :| 0 <= j < |words| && words[j] == id;
    SearchFinds(words, s, Pos(words, j) - 1);
    assert Hit(words, s, Pos(words, j) - 1);
    var off: nat :| Occurs(Render(words), " " + s, off) && off != Pos(words, j) - 1;
    SearchFinds(words, s, off);
    var i: nat :| i < |words| && s <= words[i] && off == Pos(words, i) - 1;
    assert words[i] in words;
    other := words[i];
  }

  /** Without a space, a prefix occurs once exactly if one id has it. */
  lemma OnceIsOne(words: seq<string>, ids: set<string>, s: string)
    requires Holds(words, ids) && s != "" && Spaceless(s)
    ensures Once(Render(words), " " + s) <==> OneHas(ids, s)
  {
    hide Render, Occurs, Holds;
    if off: nat :| Occurs(Render(words), " " + s, off)
                   && forall other: nat :: Occurs(Render(words), " " + s, other) ==> other == off {
      var _ := TheOne(words, ids, s, off);
    } else {
      forall id | id in ids && s <= id
        ensures exists other :: other in ids && s <= other && other != id
      {
        var other := AnotherId(words, ids, s, id);
      }
    }
  }

  /** A word between two spaces is an id. */
  lemma BetweenSpaces(words: seq<string>, ids: set<string>, w: string, off: nat)
    requires Holds(words, ids) && w != "" && Spaceless(w) && Occurs(Render(words), " " + w, off)
    requires off + 1 + |w| < |Render(words)| && Render(words)[off + 1 + |w|] == ' '
    ensures w in ids
  {
    hide Render, Pos, Occurs;
    SearchFinds(words, w, off);
    var i: nat :| i < |words| && w <= words[i] && off == Pos(words, i) - 1;
    WordAt(words, i);
    var b := Render(words);
    forall k | 0 <= k < |words[i]|
      ensures b[Pos(words, i) + k] == words[i][k] && words[i][k] != ' '
    {
      assert b[Pos(words, i)..][..|words[i]|][k] == words[i][k];
    }
    assert w == words[i];
    assert words[i] in words;
  }

  /** The words of the byte string are the ids, each once, whatever was deleted. */
  lemma WordsAreIds(index: TruncIndex, id: string)
    requires index.Valid() && id != ""
    ensures id in index.ids <==> id in Words(index.bytes)
    ensures var words := Words(index.bytes);
            forall i, j :: 0 <= i < j < |words| && words[i] == words[j] ==> words[i] != id
  {
  }

  /** Get resolves exactly the prefixes of one id, but for those with a space in
      them that the byte string has once: no id has such a prefix. */
  lemma GetMatchesPrefixes(index: TruncIndex, s: string)
    requires index.Valid() && s != ""
    ensures (Once(index.bytes, " " + s) <==> OneHas(index.ids, s)) <==> Spaceless(s) || !Once(index.bytes, " " + s)
  {
    hide Render, Words, Once;
    if Spaceless(s) {
      OnceIsOne(index.Slots(), index.ids, s);
    } else {
      forall id | id in index.ids
        ensures !(s <= id)
      {
        IdsSpaceless(index.Slots(), index.ids, id);
        SpacelessPrefix(s, id);
      }
    }
  }

  lemma SpacelessPrefix(s: string, id: string)
    ensures s <= id && Spaceless(id) ==> Spaceless(s)
  {
    if s <= id && Spaceless(id) {
      assert forall k :: 0 <= k < |s| ==> s[k] == id[k];
    }
  }

  /** Every two ids in a row make such a prefix. */
  lemma SpacedOnce(x: string, y: string)
    requires x != "" && Spaceless(x)
    ensures Once(" " + x + " " + y + " ", " " + (x + " " + y))
  {
    var b, pat := " " + x + " " + y + " ", " " + (x + " " + y);
    assert b == pat + " ";
    assert Occurs(b, pat, 0);
    forall other: nat | Occurs(b, pat, other)
      ensures other == 0
    {
      assert other <= 1;
      assert b[other] == b[other..other + |pat|][0] == ' ';
      assert b[1] == x[0];
    }
  }

  method SpacedGet(x: string, y: string) returns (index: TruncIndex, r: Outcome<string>)
    requires Spaceless(x) && Spaceless(y) && x != "" && x != y
    ensures index.Valid() && index.ids == {x, y} && !OneHas(index.ids, x + " " + y)
    ensures r == Success(x)
  {
    hide Render, Words, Holds, Once;
    index := new TruncIndex();
    var _ := index.Add(x);
    var _ := index.Add(y);
    assert index.bytes == " " + x + " " + y + " ";
    SpacedOnce(x, y);
    var s := x + " " + y;
    assert s[|x|] == ' ';
    GetMatchesPrefixes(index, s);
    r := index.Get(s);
    IndexIs(s, ' ', |x|);
    assert s[..|x|] == x;
  }
}
