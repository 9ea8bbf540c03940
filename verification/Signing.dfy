/** The text that Sign of utils/utils.go authenticates: the form parameters are
    collected in map order, so they are sorted before they are joined. */
module Signing {
  import opened Sequences

  /** The byte order of strings. */
  predicate Leq(a: string, b: string) {
    a == "" || (b != "" && (a[0] < b[0] || (a[0] == b[0] && Leq(a[1..], b[1..]))))
  }

  lemma {:induction false} LeqTotal(a: string, b: string)
    ensures Leq(a, b) || Leq(b, a)
  {
    if a != "" && b != "" {
      LeqTotal(a[1..], b[1..]);
    }
  }

  lemma {:induction false} LeqAntisymmetric(a: string, b: string)
    requires Leq(a, b) && Leq(b, a)
    ensures a == b
  {
    if a != "" && b != "" {
      LeqAntisymmetric(a[1..], b[1..]);
      assert a == [a[0]] + a[1..] && b == [b[0]] + b[1..];
    }
  }

  lemma {:induction false} LeqTransitive(a: string, b: string, c: string)
    requires Leq(a, b) && Leq(b, c)
    ensures Leq(a, c)
  {
    if a != "" && a[0] == b[0] == c[0] {
      LeqTransitive(a[1..], b[1..], c[1..]);
    }
  }

  lemma LeqIsOrder()
    ensures Order(Leq)
  {
    forall a, b
      ensures Leq(a, b) || Leq(b, a)
      ensures Leq(a, b) && Leq(b, a) ==> a == b
    {
      LeqTotal(a, b);
      if Leq(a, b) && Leq(b, a) {
        LeqAntisymmetric(a, b);
      }
    }
    forall a, b, c | Leq(a, b) && Leq(b, c)
      ensures Leq(a, c)
    {
      LeqTransitive(a, b, c);
    }
    hide Leq;
  }

  /** The first character that differs decides; a prefix comes first. */
  lemma {:induction false} LeqDecides(a: string, b: string, i: nat)
    requires i <= |a| && i <= |b| && a[..i] == b[..i]
    ensures i == |a| ==> Leq(a, b)
    ensures i == |b| < |a| ==> !Leq(a, b)
    ensures i < |a| && i < |b| && a[i] != b[i] ==> (Leq(a, b) <==> a[i] < b[i])
    decreases i
  {
    if i > 0 {
      assert a[0] == a[..i][0] == b[..i][0] == b[0];
      assert a[1..][..i - 1] == a[..i][1..] && b[1..][..i - 1] == b[..i][1..];
      LeqDecides(a[1..], b[1..], i - 1);
    }
  }

  method SortParams(a: seq<string>) returns (b: seq<string>)
    ensures Sorted(b, Leq) && multiset(b) == multiset(a)
  {
    LeqIsOrder();
    b := Sort(a, Leq);
  }

  type Forms = map<string, seq<string>>

  function PairsOf(k: string, vs: seq<string>): (pairs: seq<string>)
    ensures |pairs| == |vs| && forall i :: 0 <= i < |vs| ==> pairs[i] == k + "=" + vs[i]
  {
    if vs == [] then [] else PairsOf(k, vs[..|vs| - 1]) + [k + "=" + vs[|vs| - 1]]
  }

  /** All key=value pairs of a form, however often each occurs. */
  ghost function Pairs(forms: Forms): multiset<string>
    decreases |forms.Keys|
  {
    if forms == map[] then multiset{}
    else
      var k :| k in forms;
      RemoveSmaller(forms, k);
      Pairs(forms - {k}) + multiset(PairsOf(k, forms[k]))
  }

  lemma RemoveSmaller(forms: Forms, k: string)
    requires k in forms
    ensures |(forms - {k}).Keys| < |forms.Keys|
  {
    assert forms.Keys == (forms - {k}).Keys + {k};
  }

  lemma RemoveBoth(forms: Forms, c: string, k: string)
    requires c in forms && k in forms && c != k
    ensures forms - {c} - {k} == forms - {k} - {c}
    ensures k in forms - {c} && (forms - {c})[k] == forms[k]
    ensures c in forms - {k} && (forms - {k})[c] == forms[c]
  {
  }

  /** It does not matter which key is taken first. */
  lemma {:induction false} PairsRemove(forms: Forms, k: string)
    requires k in forms
    ensures Pairs(forms) == Pairs(forms - {k}) + multiset(PairsOf(k, forms[k]))
    decreases |forms.Keys|
  {
    hide PairsOf;
    var c :| c in forms && Pairs(forms) == Pairs(forms - {c}) + multiset(PairsOf(c, forms[c]));
    if c != k {
      RemoveSmaller(forms, c);
      RemoveSmaller(forms, k);
      PairsRemove(forms - {c}, k);
      PairsRemove(forms - {k}, c);
      RemoveBoth(forms, c, k);
      hide Pairs;
    }
  }

  /** What is signed for these pairs: a string sorted into the only order there is. */
  ghost predicate IsParamString(pairs: multiset<string>, s: string) {
    exists order :: multiset(order) == pairs && Sorted(order, Leq) && s == Join(order, "&")
  }

  method AppendPairs(params: seq<string>, k: string, vs: seq<string>) returns (more: seq<string>)
    ensures more == params + PairsOf(k, vs)
  {
    more := params;
    var n := 0;
    while n < |vs|
      invariant n <= |vs| && more == params + PairsOf(k, vs[..n])
    {
      assert vs[..n + 1][..n] == vs[..n];
      more := more + [k + "=" + vs[n]];
      n := n + 1;
    }
    assert vs[..n] == vs;
  }

  lemma NoPairs()
    ensures Pairs(map[]) == multiset{}
  {
  }

  /** The keys are visited in any order. */
  method Collect(forms: Forms) returns (params: seq<string>)
    ensures multiset(params) == Pairs(forms)
  {
    hide Pairs, PairsOf;
    NoPairs();
    params := [];
    var todo := forms;
    while todo != map[]
      invariant multiset(params) + Pairs(todo) == Pairs(forms)
      decreases |todo.Keys|
    {
      var k :| k in todo;
      PairsRemove(todo, k);
      RemoveSmaller(todo, k);
      params := AppendPairs(params, k, todo[k]);
      todo := todo - {k};
    }
  }

  method StringToSign(verb: string, path: string, digest: string, date: string, forms: Forms)
    returns (text: string, ghost paramString: string)
    ensures text == verb + "\n" + path + "\n" + digest + "\n" + date + "\n" + paramString
    ensures IsParamString(Pairs(forms), paramString)
  {
    hide Pairs, Join;
    var params := Collect(forms);
    params := SortParams(params);
    var joined := Join(params, "&");
    paramString := joined;
    text := verb + "\n" + path + "\n" + digest + "\n" + date + "\n" + joined;
  }

  /** Equal pairs, equal text: neither the order in which the form is visited nor
      the way its pairs are grouped under keys shows. */
  lemma ParamStringUnique(pairs: multiset<string>, s: string, t: string)
    requires IsParamString(pairs, s) && IsParamString(pairs, t)
    ensures s == t
  {
    var a :| multiset(a) == pairs && Sorted(a, Leq) && s == Join(a, "&");
    var b :| multiset(b) == pairs && Sorted(b, Leq) && t == Join(b, "&");
    LeqIsOrder();
    SortedUnique(a, b, Leq);
  }

  predicate Pairwise(pairs: multiset<string>) {
    forall p :: p in pairs ==> Lacks(p, '&') && '=' in p
  }

  /** And back: the string splits into the sorted pairs. */
  lemma ParamStringSplits(pairs: multiset<string>, s: string)
    requires IsParamString(pairs, s) && Pairwise(pairs)
    ensures if |pairs| == 0 then s == ""
            else '=' in s && multiset(Split(s, '&')) == pairs && Sorted(Split(s, '&'), Leq)
  {
    hide Split, Leq;
    var order :| multiset(order) == pairs && Sorted(order, Leq) && s == Join(order, "&");
    if order != [] {
      forall i | 0 <= i < |order|
        ensures Lacks(order[i], '&')
      {
        assert order[i] in pairs;
      }
      SplitJoined(order, '&');
      assert order[0] in pairs;
      if |order| > 1 {
        JoinMore(order, '&');
      }
    }
  }

  lemma {:induction false} PairsHaveKeys(forms: Forms)
    ensures forall p :: p in Pairs(forms) ==> '=' in p
    decreases |forms.Keys|
  {
    if forms != map[] {
      var k :| k in forms;
      RemoveSmaller(forms, k);
      PairsHaveKeys(forms - {k});
      PairsRemove(forms, k);
      forall p | p in Pairs(forms)
        ensures '=' in p
      {
        if p in multiset(PairsOf(k, forms[k])) {
          var i :| 0 <= i < |forms[k]| && p == k + "=" + forms[k][i];
          assert p[|k|] == '=';
        }
      }
    }
    hide Pairs, PairsOf;
  }

  lemma SameRest(head: string, a: string, b: string)
    ensures head + a == head + b <==> a == b
  {
    assert (head + a)[|head|..] == a && (head + b)[|head|..] == b;
  }

  /** Without '&' in any pair, texts with the same method, path, digest and date
      are equal exactly if the forms have the same pairs. */
  method SignTwice(verb: string, path: string, digest: string, date: string, forms: Forms, forms': Forms)
    returns (text: string, text': string)
    ensures Pairs(forms) == Pairs(forms') ==> text == text'
    ensures (forall p :: p in Pairs(forms) + Pairs(forms') ==> Lacks(p, '&')) ==>
              (text == text' <==> Pairs(forms) == Pairs(forms'))
  {
    hide Pairs, IsParamString, Split, Leq;
    ghost var p, p';
    text, p := StringToSign(verb, path, digest, date, forms);
    text', p' := StringToSign(verb, path, digest, date, forms');
    SameRest(verb + "\n" + path + "\n" + digest + "\n" + date + "\n", p, p');
    if Pairs(forms) == Pairs(forms') {
      ParamStringUnique(Pairs(forms), p, p');
    }
    PairsHaveKeys(forms);
    PairsHaveKeys(forms');
    if forall p :: p in Pairs(forms) + Pairs(forms') ==> Lacks(p, '&') {
      ParamStringSplits(Pairs(forms), p);
      ParamStringSplits(Pairs(forms'), p');
    }
  }

  /** With '&' they need not have: two pairs in order sign like one. */
  lemma AmpersandMerges(k: string, v: string, k': string, v': string)
    requires Leq(k + "=" + v, k' + "=" + v')
    ensures exists s ::
              && IsParamString(multiset{k + "=" + v, k' + "=" + v'}, s)
              && IsParamString(multiset{k + "=" + (v + "&" + k' + "=" + v')}, s)
  {
    hide Leq, Join;
    var a, b := k + "=" + v, k' + "=" + v';
    var one := k + "=" + (v + "&" + k' + "=" + v');
    var s := Join([a, b], "&");
    JoinTwo(a, b, '&');
    assert a + "&" + b == one;
    assert multiset([a, b]) == multiset{a, b} && multiset([one]) == multiset{one};
    assert IsParamString(multiset{a, b}, s) by {
      assert Sorted([a, b], Leq);
    }
    assert Sorted([one], Leq);
    JoinTwo(one, one, '&');
    assert IsParamString(multiset{one}, s);
  }
}
