/** Command lines as text: words, joining, and the splitter of ArgvSplit. */
module Splitting {

  predicate IsQuote(c: char) {
    c == '\'' || c == '\"'
  }

  predicate QuoteFree(s: string) {
    forall i :: 0 <= i < |s| ==> !IsQuote(s[i])
  }

  /** The position of the first space, or the length. */
  function Space(s: string): (n: nat)
    ensures n <= |s| && (forall i :: 0 <= i < n ==> s[i] != ' ') && (n < |s| ==> s[n] == ' ')
  {
    if s == "" || s[0] == ' ' then 0 else 1 + Space(s[1..])
  }

  /** The non-empty stretches between spaces. */
  function Words(s: string): seq<string>
    decreases |s|
  {
    if s == "" then []
    else if s[0] == ' ' then Words(s[1..])
    else [s[..Space(s)]] + Words(s[Space(s)..])
  }

  function Join(ss: seq<string>): string {
    if |ss| == 0 then "" else if |ss| == 1 then ss[0] else ss[0] + " " + Join(ss[1..])
  }

  predicate IsWord(w: string) {
    w != "" && ' ' !in w
  }

  lemma {:induction false} SpaceIs(s: string, n: nat)
    requires n <= |s| && (forall i :: 0 <= i < n ==> s[i] != ' ') && (n < |s| ==> s[n] == ' ')
    ensures Space(s) == n
  {
    assert !(Space(s) < n);
    assert !(n < Space(s));
  }

  lemma {:induction false} Sliced(a: string, b: string, n: nat)
    requires n <= |a|
    ensures (a + " " + b)[..n] == a[..n] && (a + " " + b)[n..] == a[n..] + " " + b
  {
  }

  /** A space splits. */
  lemma {:induction false} WordsSplit(a: string, b: string)
    ensures Words(a + " " + b) == Words(a) + Words(b)
    decreases |a|
  {
    hide Space;
    var s := a + " " + b;
    if a == "" {
      Sliced(a, b, 0);
      assert s[1..] == b;
    } else if a[0] == ' ' {
      Sliced(a, b, 1);
      WordsSplit(a[1..], b);
    } else {
      var n := Space(a);
      Sliced(a, b, n);
      SpaceIs(s, n);
      WordsSplit(a[n..], b);
      assert Words(s) == [a[..n]] + Words(a[n..] + " " + b);
    }
  }

  lemma {:induction false} WordsOfWord(w: string)
    requires IsWord(w)
    ensures Words(w) == [w]
  {
    SpaceIs(w, |w|);
    assert w[..|w|] == w && w[|w|..] == "";
  }

  lemma {:induction false} WordsAreWords(s: string)
    ensures forall i :: 0 <= i < |Words(s)| ==> IsWord(Words(s)[i])
    decreases |s|
  {
    if s != "" {
      if s[0] == ' ' {
        WordsAreWords(s[1..]);
      } else {
        WordsAreWords(s[Space(s)..]);
      }
    }
  }

  /** Splitting undoes joining. */
  lemma {:induction false} WordsOfJoin(ws: seq<string>)
    requires forall i :: 0 <= i < |ws| ==> IsWord(ws[i])
    ensures Words(Join(ws)) == ws
  {
    if |ws| == 1 {
      WordsOfWord(ws[0]);
    } else if |ws| > 1 {
      WordsOfWord(ws[0]);
      WordsOfJoin(ws[1..]);
      WordsSplit(ws[0], Join(ws[1..]));
    }
  }

  /** No space at either end and no two together. */
  predicate SingleSpaced(s: string) {
    s == "" || (s[0] != ' ' && s[|s| - 1] != ' ' && forall i :: 0 <= i < |s| - 1 ==> s[i] != ' ' || s[i + 1] != ' ')
  }

  /** Joining undoes splitting exactly for single-spaced text. */
  lemma {:induction false} JoinOfWords(s: string)
    ensures Join(Words(s)) == s <==> SingleSpaced(s)
  {
    WordsAreWords(s);
    if SingleSpaced(s) {
      SingleSpacedJoins(s);
    } else if Join(Words(s)) == s {
      JoinIsSingleSpaced(Words(s));
    }
  }

  lemma {:induction false} AfterSpace(s: string, n: nat)
    requires SingleSpaced(s) && n < |s| && s[n] == ' '
    ensures s[n + 1..] != "" && SingleSpaced(s[n + 1..])
  {
    var t := s[n + 1..];
    assert t != "";
    forall i | 0 <= i < |t|
      ensures t[i] == s[n + 1 + i] && (i < |t| - 1 ==> t[i] != ' ' || t[i + 1] != ' ')
    {
      assert s[n + 1 + i] != ' ' || i == |t| - 1 || s[n + 1 + i + 1] != ' ';
    }
    assert t[0] != ' ' by {
      assert s[n] != ' ' || s[n + 1] != ' ';
    }
  }

  lemma {:induction false} SingleSpacedJoins(s: string)
    requires SingleSpaced(s)
    ensures Join(Words(s)) == s && (s != "" ==> Words(s) != [])
    decreases |s|
  {
    if s != "" {
      assert s[0] != ' ';
      hide SingleSpaced, Space;
      var n := Space(s);
      if n == |s| {
        assert s[..n] == s && s[n..] == "";
      } else {
        var t := s[n + 1..];
        AfterSpace(s, n);
        SingleSpacedJoins(t);
        assert s[n..][1..] == t && s == s[..n] + " " + t;
        assert Words(s[n..]) == Words(t);
        assert Words(s)[1..] == Words(t);
      }
    }
  }

  lemma {:induction false} JoinIsSingleSpaced(ws: seq<string>)
    requires forall i :: 0 <= i < |ws| ==> IsWord(ws[i])
    ensures SingleSpaced(Join(ws)) && (ws != [] ==> Join(ws) != "")
  {
    if |ws| > 1 {
      JoinIsSingleSpaced(ws[1..]);
      SpacedOut(ws[0], Join(ws[1..]));
    }
  }

  lemma {:induction false} SpacedOut(w: string, t: string)
    requires IsWord(w) && SingleSpaced(t) && t != ""
    ensures SingleSpaced(w + " " + t)
  {
    var s := w + " " + t;
    forall i | 0 <= i < |s| - 1
      ensures s[i] != ' ' || s[i + 1] != ' '
    {
      if i < |w| {
        assert s[i] == w[i];
      } else if i > |w| {
        assert s[i] == t[i - |w| - 1] && s[i + 1] == t[i - |w|];
      }
    }
  }

  lemma {:induction false} JoinSnoc(ss: seq<string>, x: string)
    ensures Join(ss + [x]) == if ss == [] then x else Join(ss) + " " + x
  {
    if ss == [] {
      assert ss + [x] == [x];
    } else {
      JoinSnoc(ss[1..], x);
      assert (ss + [x])[1..] == ss[1..] + [x];
    }
  }

  /** CxString::join with a space. */
  method JoinStrings(ss: seq<string>) returns (out: string)
    ensures out == Join(ss)
  {
    hide Join;
    if ss == [] {
      JoinNone();
      return "";
    }
    out := "";
    JoinNone();
    for i := 0 to |ss|
      invariant out == Join(ss[..i]) + if 0 < i < |ss| then " " else ""
    {
      JoinSnoc(ss[..i], ss[i]);
      assert ss[..i + 1] == ss[..i] + [ss[i]];
      out := out + ss[i];
      if i + 1 < |ss| {
        out := out + " ";
      }
    }
    assert ss[..|ss|] == ss;
  }

  lemma {:induction false} JoinNone()
    ensures Join([]) == ""
  {
  }
}
