/** What the splitter makes of quotes. */
module QuotedLines {
  import opened Splitting
  import opened CommandLine

  // ---- Lines without open quotes ----------------------------------------------------------------------------

  predicate NothingOpen(s: string) {
    FirstOpen(s, QUOTES, 0) == |s|
  }

  lemma {:induction false} SplitUnquoted(s: string, stray: nat -> set<char>)
    requires NothingOpen(s)
    ensures Split(s, stray) == Words(s)
  {
    hide FirstOpen, Words, FirstPart;
    NoWords();
    if s != "" {
      PartUnquoted(s, stray(|s|));
      assert Split("", stray) == [];
    }
  }

  /** The number of characters before position n that are no spaces. */
  function Marks(s: string, n: nat): nat
    requires n <= |s|
  {
    if n == 0 then 0 else Marks(s, n - 1) + if s[n - 1] == ' ' then 0 else 1
  }

  function Ink(s: string): nat {
    Marks(s, |s|)
  }

  lemma {:induction false} MarksAscend(s: string, i: nat, j: nat)
    requires i <= j <= |s|
    ensures Marks(s, i) <= Marks(s, j)
  {
    if i < j {
      MarksAscend(s, i, j - 1);
    }
  }

  lemma {:induction false} MarksOfPrefix(s: string, t: string, n: nat)
    requires n <= |s| && n <= |t| && s[..n] == t[..n]
    ensures Marks(s, n) == Marks(t, n)
  {
    if n > 0 {
      assert s[..n - 1] == s[..n][..n - 1] == t[..n - 1];
      assert s[n - 1] == s[..n][n - 1] == t[n - 1];
      MarksOfPrefix(s, t, n - 1);
    }
  }

  lemma {:induction false} InkOfSlice(s: string, i: nat, j: nat)
    requires i <= j <= |s|
    ensures Ink(s[i..j]) == Marks(s, j) - Marks(s, i)
  {
    if i < j {
      InkOfSlice(s, i, j - 1);
      var t := s[i..j];
      assert t[..j - 1 - i] == s[i..j - 1];
      MarksOfPrefix(t, s[i..j - 1], j - 1 - i);
    }
  }

  lemma {:induction false} InkAdds(a: string, b: string)
    ensures Ink(a + b) == Ink(a) + Ink(b)
  {
    var s := a + b;
    InkOfSlice(s, 0, |a|);
    InkOfSlice(s, |a|, |s|);
    assert s[0..|a|] == a && s[|a|..|s|] == b;
  }

  function InkOfAll(ss: seq<string>): nat {
    if ss == [] then 0 else Ink(ss[0]) + InkOfAll(ss[1..])
  }

  lemma {:induction false} InkOfAllAdds(x: seq<string>, y: seq<string>)
    ensures InkOfAll(x + y) == InkOfAll(x) + InkOfAll(y)
  {
    hide Ink;
    if x == [] {
      assert x + y == y;
    } else {
      InkOfAllAdds(x[1..], y);
      assert (x + y)[1..] == x[1..] + y;
    }
  }

  /** Splitting at spaces loses no ink. */
  lemma {:induction false} InkOfWords(s: string)
    ensures InkOfAll(Words(s)) == Ink(s)
    decreases |s|
  {
    if s != "" {
      hide Ink, Space;
      var n := if s[0] == ' ' then 1 else Space(s);
      InkAdds(s[..n], s[n..]);
      assert s == s[..n] + s[n..];
      if s[0] == ' ' {
        InkOfOne(' ');
        assert s[..1] == [' '];
        InkOfWords(s[1..]);
      } else {
        SpaceIsLater(s);
        InkOfWords(s[n..]);
        InkOfAllAdds([s[..n]], Words(s[n..]));
        InkOfAllOne(s[..n]);
      }
    }
  }

  lemma {:induction false} SpaceIsLater(s: string)
    requires s != "" && s[0] != ' '
    ensures Space(s) > 0
  {
  }

  lemma {:induction false} InkOfOne(c: char)
    ensures Ink([c]) == if c == ' ' then 0 else 1
  {
    assert Marks([c], 0) == 0;
  }

  lemma {:induction false} InkOfAllOne(s: string)
    ensures InkOfAll([s]) == Ink(s) && InkOfAll([]) == 0
  {
    hide Ink;
    assert [s][1..] == [];
  }

  lemma {:induction false} InkOfAround(before: string, quoted: string, after: string)
    ensures Ink(Around(before, quoted, after)) <= Ink(before) + Ink(quoted) + Ink(after)
  {
    InkAdds(before, quoted);
    InkAdds(before + quoted, after);
  }

  /** The quotes themselves are lost. */
  lemma {:induction false} InkOfPart(s: string, stray: set<char>)
    requires s != ""
    ensures var p := FirstPart(s, stray);
            && Ink(p.plain) + Ink(p.argument) + Ink(p.rest) <= Ink(s)
            && (!NothingOpen(s) ==> Ink(p.plain) + Ink(p.argument) + Ink(p.rest) < Ink(s))
  {
    hide FirstOpen, LastSpace, FirstPart, Around, Ink, Marks, Space;
    var q: int := FirstOpen(s, QUOTES, 0);
    InkOfNothing();
    if q == |s| {
      PartUnquoted(s, stray);
    } else {
      QuoteIsInk(s, q);
      var front := LastSpace(s, q - 1);
      InkBefore(s, front, q);
      var e := FirstOpen(s, {s[q]} + stray, q + 1);
      if e == |s| {
        PartUnclosed(s, stray, q);
        InkOfSlice(s, q + 1, |s|);
        InkOfAround(s[front + 1..q], s[q + 1..], "");
        assert s[q + 1..] == s[q + 1..|s|];
        InkOfWhole(s);
      } else {
        InkClosed(s, stray, q, e);
      }
    }
  }

  lemma {:induction false} InkOfNothing()
    ensures Ink("") == 0
  {
  }

  lemma {:induction false} InkOfWhole(s: string)
    ensures Ink(s) == Marks(s, |s|)
  {
  }

  lemma {:induction false} QuoteIsInk(s: string, q: nat)
    requires q < |s| && q == FirstOpen(s, QUOTES, 0)
    ensures Marks(s, q + 1) == Marks(s, q) + 1
  {
    FirstIsOpen(s, QUOTES, 0);
  }

  /** What stands before the quote is split between the words and the argument. */
  lemma {:induction false} InkBefore(s: string, front: int, q: nat)
    requires -1 <= front < q < |s|
    ensures Ink(if front == -1 then "" else s[..front]) + Ink(s[front + 1..q]) <= Marks(s, q)
  {
    hide Ink, Marks;
    InkOfNothing();
    InkOfSlice(s, front + 1, q);
    if front != -1 {
      InkOfSlice(s, 0, front);
      assert s[0..front] == s[..front];
      MarksAscend(s, front, front + 1);
    }
  }

  lemma {:induction false} InkClosed(s: string, stray: set<char>, q: nat, e: nat)
    requires q < e < |s| && FirstOpen(s, QUOTES, 0) == q && FirstOpen(s, {s[q]} + stray, q + 1) == e
    requires Marks(s, q + 1) == Marks(s, q) + 1
    ensures var p := FirstPart(s, stray);
            Ink(p.plain) + Ink(p.argument) + Ink(p.rest) < Ink(s)
  {
    hide FirstOpen, LastSpace, FirstPart, Around, Ink, Marks, Space;
    var end := ArgumentEnd(s, e);
    var front := LastSpace(s, q - 1);
    PartClosed(s, stray, q, e);
    InkBefore(s, front, q);
    var after := if end > e then s[e + 1..end] else "";
    InkOfAround(s[front + 1..q], s[q + 1..e], after);
    InkOfSlice(s, q + 1, e);
    InkOfSlice(s, end + 1, |s|);
    assert s[end + 1..|s|] == s[end + 1..];
    InkOfNothing();
    InkOfWhole(s);
    if end > e {
      InkOfSlice(s, e + 1, end);
    }
    MarksAscend(s, e, e + 1);
    MarksAscend(s, end, end + 1);
  }

  lemma {:induction false} InkOfSplit(s: string, stray: nat -> set<char>)
    ensures InkOfAll(Split(s, stray)) <= Ink(s)
    ensures !NothingOpen(s) ==> InkOfAll(Split(s, stray)) < Ink(s)
    decreases |s|
  {
    hide Ink, FirstPart, Words, NothingOpen;
    if s == "" {
      NothingOpenInNothing();
    } else {
      var p := FirstPart(s, stray(|s|));
      var argument := if p.argument == "" then [] else [p.argument];
      InkOfPart(s, stray(|s|));
      InkOfSplit(p.rest, stray);
      InkOfWords(p.plain);
      InkOfAllOne(p.argument);
      InkOfAllAdds(Words(p.plain), argument);
      InkOfAllAdds(Words(p.plain) + argument, Split(p.rest, stray));
    }
  }

  lemma {:induction false} NothingOpenInNothing()
    ensures NothingOpen("")
  {
  }

  lemma {:induction false} NothingOpenMeans(s: string)
    ensures NothingOpen(s) <==>
            forall i :: 0 <= i < |s| && (s[i] == '\'' || s[i] == '\"') ==> i > 0 && s[i - 1] == '\\'
  {
    FirstIsOpen(s, QUOTES, 0);
    if !NothingOpen(s) {
      var n := FirstOpen(s, QUOTES, 0);
      assert Open(s, n, QUOTES);
    } else {
      forall i | 0 <= i < |s| && (s[i] == '\'' || s[i] == '\"')
        ensures i > 0 && s[i - 1] == '\\'
      {
        assert !Open(s, i, QUOTES);
      }
    }
  }

  /**
   * A line is split into its words exactly when every single or double quote in it comes right after a backslash; any
   * other is dropped.
   */
  lemma {:induction false} WordsExactlyUnquoted(s: string, stray: nat -> set<char>)
    ensures Split(s, stray) == Words(s) <==>
            forall i :: 0 <= i < |s| && (s[i] == '\'' || s[i] == '\"') ==> i > 0 && s[i - 1] == '\\'
  {
    hide Split, Words, Ink, NothingOpen;
    NothingOpenMeans(s);
    if NothingOpen(s) {
      SplitUnquoted(s, stray);
    } else {
      InkOfSplit(s, stray);
      InkOfWords(s);
    }
  }

  /** No argument is empty, whatever the quotes do. */
  lemma {:induction false} ArgumentsAreFilled(s: string, stray: nat -> set<char>)
    ensures "" !in Split(s, stray)
    decreases |s|
  {
    hide Words, FirstPart;
    if s != "" {
      var p := FirstPart(s, stray(|s|));
      WordsAreWords(p.plain);
      ArgumentsAreFilled(p.rest, stray);
    }
  }

  // ---- Lines typed with quotes ------------------------------------------------------------------------------

  /** An argument as it is typed: bare, or with a part of it between quotes. */
  datatype Element = Bare(text: string) | Quoted(before: string, mark: char, text: string, after: string)

  function Typed(e: Element): string {
    if e.Bare? then e.text else e.before + [e.mark] + e.text + [e.mark] + e.after
  }

  function Said(e: Element): string {
    if e.Bare? then e.text else e.before + e.text + e.after
  }

  /** No character of the text closes the quotes before it, and the quote behind it is not escaped. */
  predicate Stays(chars: set<char>, t: string) {
    (t == "" || t[|t| - 1] != '\\') && forall i :: 0 <= i < |t| ==> !Open(t, i, chars)
  }

  /** Text that can stand right before a quote in the same argument. */
  predicate Leads(before: string) {
    ' ' !in before && NothingOpen(before) && (before == "" || before[|before| - 1] != '\\')
  }

  /** `also` are the characters that count as closing quotes too when this element is reached. */
  predicate Sayable(e: Element, also: set<char>) {
    match e
    case Bare(text) => IsWord(text) && NothingOpen(text)
    case Quoted(before, mark, text, after) =>
      && Leads(before) && (mark == '\'' || mark == '\"') && text != "" && Stays({mark} + also, text) && ' ' !in after
  }

  /**
   * Each element is sayable with the characters found in memory when the search reaches it, and the line does not end
   * in text behind a quote.
   */
  predicate Typable(es: seq<Element>, also: set<char>, stray: nat -> set<char>) {
    es != [] ==>
      && Sayable(es[0], also) && (|es| == 1 && es[0].Quoted? ==> es[0].after == "")
      && Typable(es[1..], if es[0].Bare? then also else stray(|Line(es[1..])|), stray)
  }

  function Line(es: seq<Element>): string {
    if |es| == 0 then "" else if |es| == 1 then Typed(es[0]) else Typed(es[0]) + " " + Line(es[1..])
  }

  function Texts(es: seq<Element>): seq<string> {
    if es == [] then [] else [Said(es[0])] + Texts(es[1..])
  }

  /** The arguments of a text, with these closing characters for its first part. */
  function SplitFrom(s: string, also: set<char>, stray: nat -> set<char>): seq<string> {
    if s == "" then []
    else
      var p := FirstPart(s, also);
      Words(p.plain) + (if p.argument == "" then [] else [p.argument]) + Split(p.rest, stray)
  }

  lemma {:induction false} SplitStep(s: string, stray: nat -> set<char>)
    ensures Split(s, stray) == SplitFrom(s, stray(|s|), stray)
  {
    hide Words, FirstPart;
  }

  lemma {:induction false} SplitFromUnquoted(s: string, also: set<char>, stray: nat -> set<char>)
    requires NothingOpen(s)
    ensures SplitFrom(s, also, stray) == Words(s)
  {
    hide FirstOpen, Words, FirstPart;
    NoWords();
    if s != "" {
      PartUnquoted(s, also);
      assert Split("", stray) == [];
    }
  }

  lemma {:induction false} OpenBehind(a: string, r: string, i: nat, chars: set<char>)
    requires a != "" && a[|a| - 1] != '\\' && i < |r|
    ensures Open(a + r, |a| + i, chars) <==> Open(r, i, chars)
  {
    var s := a + r;
    assert s[|a| + i] == r[i];
    if i > 0 {
      assert s[|a| + i - 1] == r[i - 1];
    } else {
      assert s[|a| - 1] == a[|a| - 1];
    }
  }

  lemma {:induction false} OpenBefore(a: string, r: string, i: nat, chars: set<char>)
    requires i < |a|
    ensures Open(a + r, i, chars) <==> Open(a, i, chars)
  {
  }

  lemma {:induction false} FirstOpenBehind(a: string, r: string, chars: set<char>, from: nat)
    requires a != "" && a[|a| - 1] != '\\' && from <= |r|
    ensures FirstOpen(a + r, chars, |a| + from) == |a| + FirstOpen(r, chars, from)
    decreases |r| - from
  {
    hide Open;
    if from < |r| {
      OpenBehind(a, r, from, chars);
      if !Open(r, from, chars) {
        FirstOpenBehind(a, r, chars, from + 1);
      }
    }
  }

  lemma {:induction false} LastSpaceBehind(a: string, r: string, upTo: int)
    requires a != "" && a[|a| - 1] == ' ' && -1 <= upTo < |r|
    ensures var n := LastSpace(r, upTo);
            LastSpace(a + r, |a| + upTo) == if n == -1 then |a| - 1 else |a| + n
    decreases upTo
  {
    if upTo != -1 && r[upTo] != ' ' {
      LastSpaceBehind(a, r, upTo - 1);
    }
  }

  /** A bare word in front, or a space, leaves the search for quotes where it was. */
  lemma {:induction false} FirstQuoteBehind(w: string, r: string)
    requires NothingOpen(w)
    ensures FirstOpen(w + " " + r, QUOTES, 0) == |w| + 1 + FirstOpen(r, QUOTES, 0)
  {
    hide Open, FirstOpen;
    var s, a := w + " " + r, w + " ";
    var n := |a| + FirstOpen(r, QUOTES, 0);
    FirstIsOpen(r, QUOTES, 0);
    FirstIsOpen(w, QUOTES, 0);
    forall i | 0 <= i < n
      ensures !Open(s, i, QUOTES)
    {
      if i < |w| {
        OpenBefore(a, r, i, QUOTES);
        OpenBefore(w, " ", i, QUOTES);
      } else if i == |w| {
        SpaceIsNotOpen(s, i);
      } else {
        OpenBehind(a, r, i - |a|, QUOTES);
      }
    }
    if n < |s| {
      OpenBehind(a, r, n - |a|, QUOTES);
    }
    FirstOpenIs(s, QUOTES, 0, n);
  }

  lemma {:induction false} SpaceIsNotOpen(s: string, i: nat)
    requires i < |s| && s[i] == ' '
    ensures !Open(s, i, QUOTES)
  {
  }

  lemma {:induction false} FollowingBehind(a: string, r: string, e: nat)
    requires e < |r|
    ensures Following(a + r, |a| + e) == Following(r, e)
    ensures (a + r)[ArgumentEnd(a + r, |a| + e) + 1..] == r[ArgumentEnd(r, e) + 1..]
  {
    hide Space;
    var s, end := a + r, ArgumentEnd(r, e);
    assert s[|a| + e + 1..] == r[e + 1..];
    assert s[|a| + end + 1..] == r[end + 1..];
    if end > e {
      assert s[|a| + e + 1..|a| + end] == r[e + 1..end];
    }
  }

  lemma {:induction false} PlainBehind(w: string, r: string, q: nat)
    requires q < |r|
    ensures var s, k := w + " " + r, |w| + 1;
            && Attached(s, k + q) == Attached(r, q)
            && Words(PlainBefore(s, k + q)) == Words(w) + Words(PlainBefore(r, q))
  {
    hide LastSpace, Words;
    var a := w + " ";
    var s, front := a + r, LastSpace(r, q - 1);
    NoWords();
    LastSpaceBehind(a, r, q - 1);
    var front' := LastSpace(s, |a| + q - 1);
    SliceBehind(a, r, front + 1, q);
    if front == -1 {
      assert s[..front'] == w;
    } else {
      assert s[..front'] == w + " " + r[..front];
      WordsSplit(w, r[..front]);
    }
  }

  /** With words in front, the first part has them before its other words. */
  lemma {:induction false} PartBehind(w: string, r: string, also: set<char>)
    requires NothingOpen(w) && !NothingOpen(r)
    ensures r != "" && var p, o := FirstPart(r, also), FirstPart(w + " " + r, also);
            o.argument == p.argument && o.rest == p.rest && Words(o.plain) == Words(w) + Words(p.plain)
  {
    hide FirstOpen, PlainBefore, Attached, FirstPart, Words;
    var a := w + " ";
    var q := FirstOpen(r, QUOTES, 0);
    FirstQuoteBehind(w, r);
    PlainBehind(w, r, q);
    var e := FirstOpen(r, {r[q]} + also, q + 1);
    FirstOpenBehind(a, r, {r[q]} + also, q + 1);
    if e == |r| {
      UnclosedBehind(a, r, also, q);
    } else {
      ClosedBehind(a, r, also, q, e);
    }
  }

  lemma {:induction false} UnclosedBehind(a: string, r: string, also: set<char>, q: nat)
    requires q < |r| && FirstOpen(r, QUOTES, 0) == q && FirstOpen(r, {r[q]} + also, q + 1) == |r|
    requires var s, k := a + r, |a| + q; FirstOpen(s, QUOTES, 0) == k && FirstOpen(s, {s[k]} + also, k + 1) == |s|
    requires Attached(a + r, |a| + q) == Attached(r, q)
    ensures var s, k := a + r, |a| + q;
            FirstPart(s, also) == FirstPart(r, also).(plain := PlainBefore(s, k)) &&
            FirstPart(r, also).plain == PlainBefore(r, q)
  {
    hide FirstOpen, FirstPart, Around, Attached, PlainBefore;
    var s, k := a + r, |a| + q;
    PartUnclosed(r, also, q);
    PartUnclosed(s, also, k);
    assert s[k + 1..] == r[q + 1..];
  }

  lemma {:induction false} SliceBehind(a: string, r: string, i: nat, j: nat)
    requires i <= j <= |r|
    ensures (a + r)[|a| + i..|a| + j] == r[i..j]
  {
  }

  lemma {:induction false} ClosedBehind(a: string, r: string, also: set<char>, q: nat, e: nat)
    requires q < e < |r| && FirstOpen(r, QUOTES, 0) == q && FirstOpen(r, {r[q]} + also, q + 1) == e
    requires var s, k := a + r, |a| + q; FirstOpen(s, QUOTES, 0) == k && FirstOpen(s, {s[k]} + also, k + 1) == |a| + e
    requires Attached(a + r, |a| + q) == Attached(r, q)
    ensures var s, k := a + r, |a| + q;
            FirstPart(s, also) == FirstPart(r, also).(plain := PlainBefore(s, k)) &&
            FirstPart(r, also).plain == PlainBefore(r, q)
  {
    hide FirstOpen, FirstPart, Around, Attached, PlainBefore, Following, ArgumentEnd;
    var s, k := a + r, |a| + q;
    FollowingBehind(a, r, e);
    PartClosed(r, also, q, e);
    PartClosed(s, also, k, |a| + e);
    SliceBehind(a, r, q + 1, e);
  }

  /** Text without open quotes, up to a space, gives its words. */
  lemma {:induction false} SplitBare(w: string, r: string, also: set<char>, stray: nat -> set<char>)
    requires NothingOpen(w)
    ensures SplitFrom(w + " " + r, also, stray) == Words(w) + SplitFrom(r, also, stray)
  {
    hide Words, FirstPart, NothingOpen, Split;
    var s := w + " " + r;
    if NothingOpen(r) {
      OpenNowhere(w, r);
      SplitFromUnquoted(r, also, stray);
      SplitFromUnquoted(s, also, stray);
      WordsSplit(w, r);
    } else {
      PartBehind(w, r, also);
    }
  }

  lemma {:induction false} OpenNowhere(w: string, r: string)
    requires NothingOpen(w) && NothingOpen(r)
    ensures NothingOpen(w + " " + r)
  {
    FirstQuoteBehind(w, r);
  }

  lemma {:induction false} MarksAreQuotes(mark: char)
    ensures mark in QUOTES <==> mark == '\'' || mark == '\"'
  {
  }

  /** The quote behind text that leads to it is the first open one. */
  lemma {:induction false} QuoteFound(before: string, r: string)
    requires Leads(before) && r != "" && r[0] in QUOTES
    ensures FirstOpen(before + r, QUOTES, 0) == |before|
  {
    hide FirstOpen;
    var s := before + r;
    FirstIsOpen(before, QUOTES, 0);
    forall i | 0 <= i < |before|
      ensures !Open(s, i, QUOTES)
    {
      OpenBefore(before, r, i, QUOTES);
    }
    FirstOpenIs(s, QUOTES, 0, |before|);
  }

  /** Nothing closes the quotes before the text's end. */
  lemma {:induction false} NotClosedInside(mark: char, t: string, u: string, chars: set<char>)
    requires forall i :: 0 <= i < |t| ==> !Open(t, i, chars)
    requires mark != '\\'
    ensures forall i :: 1 <= i < |t| + 1 ==> !Open([mark] + t + u, i, chars)
  {
    var s := [mark] + t + u;
    forall i | 1 <= i < |t| + 1
      ensures !Open(s, i, chars)
    {
      assert !Open(t, i - 1, chars);
      assert s[i] == t[i - 1];
      assert i > 1 ==> s[i - 1] == t[i - 2];
    }
  }

  lemma {:induction false} CloseFound(mark: char, t: string, u: string, chars: set<char>)
    requires mark in QUOTES && mark in chars && Stays(chars, t)
    ensures FirstOpen([mark] + t + [mark] + u, chars, 1) == |t| + 1
  {
    hide FirstOpen;
    var s := [mark] + t + [mark] + u;
    assert s == [mark] + t + ([mark] + u);
    NotClosedInside(mark, t, [mark] + u, chars);
    assert s[|t| + 1] == mark && (t != "" ==> s[|t|] == t[|t| - 1]);
    FirstOpenIs(s, chars, 1, |t| + 1);
  }

  /** A search that starts behind a quote does not depend on what leads to it. */
  lemma {:induction false} SearchBehind(before: string, r: string, chars: set<char>)
    requires Leads(before) && r != ""
    ensures FirstOpen(before + r, chars, |before| + 1) == |before| + FirstOpen(r, chars, 1)
  {
    hide FirstOpen;
    if before == "" {
      assert before + r == r;
    } else {
      FirstOpenBehind(before, r, chars, 1);
    }
  }

  lemma {:induction false} NothingBefore(before: string, r: string)
    requires ' ' !in before && r != ""
    ensures PlainBefore(before + r, |before|) == "" && Attached(before + r, |before|) == before
  {
    NoSpaceUpTo(before + r, |before| - 1);
    assert (before + r)[0..|before|] == before;
  }

  lemma {:induction false} NoSpaceUpTo(s: string, upTo: int)
    requires -1 <= upTo < |s| && ' ' !in s[..upTo + 1]
    ensures LastSpace(s, upTo) == -1
    decreases upTo
  {
    if upTo != -1 {
      assert s[upTo] == s[..upTo + 1][upTo];
      assert s[..upTo] == s[..upTo + 1][..upTo];
      NoSpaceUpTo(s, upTo - 1);
    }
  }

  lemma {:induction false} BetweenQuotes(before: string, mark: char, t: string, u: string)
    ensures var s, k := before + [mark] + t + [mark] + u, |before|;
            && s == before + ([mark] + t + [mark] + u) && |s| == k + |t| + |u| + 2 && s[k] == mark
            && s[k + 1..k + |t| + 1] == t && s[k + |t| + 2..] == u
  {
    var s, k := before + [mark] + t + [mark] + u, |before|;
    assert s[..k + |t| + 1] == before + [mark] + t;
    assert s[k + 1..k + |t| + 1] == s[..k + |t| + 1][k + 1..];
  }

  /** What follows a closing quote in the same argument; at the line's end its last character is lost. */
  function Tail(u: string): string {
    var n := Space(u);
    if n < |u| then u[..n] else if u == "" then "" else u[..n - 1]
  }

  /** What is left to parse. */
  function Left(u: string): string {
    var n := Space(u);
    if n < |u| then u[n + 1..] else ""
  }

  lemma {:induction false} PartQuoted(before: string, mark: char, t: string, u: string, also: set<char>)
    requires Leads(before) && mark in QUOTES && Stays({mark} + also, t)
    ensures FirstPart(before + [mark] + t + [mark] + u, also)
         == Part("", if t == "" then "" else before + t + Tail(u), Left(u))
  {
    hide *;
    var s, k := before + [mark] + t + [mark] + u, |before|;
    var r, e := [mark] + t + [mark] + u, k + |t| + 1;
    BetweenQuotes(before, mark, t, u);
    QuoteFound(before, r);
    assert {s[k]} + also == {mark} + also;
    CloseFound(mark, t, u, {mark} + also);
    SearchBehind(before, r, {mark} + also);
    FollowingIs(s, e, u);
    LeadsIs(before);
    NothingBefore(before, r);
    PartClosed(s, also, k, e);
    AroundIs(before, t, Following(s, e));
  }

  lemma {:induction false} LeadsIs(before: string)
    requires Leads(before)
    ensures ' ' !in before
  {
  }

  lemma {:induction false} FollowingIs(s: string, e: nat, u: string)
    requires e < |s| && u == s[e + 1..]
    ensures Following(s, e) == Tail(u) && s[ArgumentEnd(s, e) + 1..] == Left(u)
  {
    hide Space;
    var n := Space(u);
    assert n == |u| || u[n + 1..] == s[e + 1 + n + 1..];
  }

  /** A part between quotes that are closed, with what stands around it. */
  lemma {:induction false} SplitQuoted(before: string, mark: char, t: string, u: string, also: set<char>,
                                       stray: nat -> set<char>)
    requires Leads(before) && (mark == '\'' || mark == '\"') && Stays({mark} + also, t)
    ensures SplitFrom(before + [mark] + t + [mark] + u, also, stray) ==
            (if t == "" then [] else [before + t + Tail(u)]) + Split(Left(u), stray)
  {
    hide Tail, Left, FirstPart, Stays, Leads, Words, Split;
    MarksAreQuotes(mark);
    PartQuoted(before, mark, t, u, also);
    NoWords();
    assert before + [mark] + t + [mark] + u != "";
  }

  lemma {:induction false} PartOpen(before: string, mark: char, t: string, also: set<char>)
    requires Leads(before) && mark in QUOTES && forall i :: 0 <= i < |t| ==> !Open(t, i, {mark} + also)
    ensures FirstPart(before + [mark] + t, also) == Part("", if t == "" then "" else before + t, "")
  {
    hide FirstOpen, FirstPart, PlainBefore, Attached, Leads, Open;
    var s, k, r := before + [mark] + t, |before|, [mark] + t;
    assert s == before + r && s[k] == mark && s[k + 1..] == t;
    QuoteFound(before, r);
    NotClosedInside(mark, t, "", {mark} + also);
    assert r == [mark] + t + "";
    FirstOpenIs(r, {mark} + also, 1, |r|);
    SearchBehind(before, r, {mark} + also);
    LeadsIs(before);
    NothingBefore(before, r);
    PartUnclosed(s, also, k);
    assert before + t + "" == before + t;
  }

  /** A part between quotes that are not closed reaches to the line's end. */
  lemma {:induction false} SplitOpen(before: string, mark: char, t: string, also: set<char>, stray: nat -> set<char>)
    requires Leads(before) && (mark == '\'' || mark == '\"') && forall i :: 0 <= i < |t| ==> !Open(t, i, {mark} + also)
    ensures SplitFrom(before + [mark] + t, also, stray) == if t == "" then [] else [before + t]
  {
    hide FirstPart, Leads, Words, Open;
    MarksAreQuotes(mark);
    PartOpen(before, mark, t, also);
    NoWords();
    assert Split("", stray) == [] && before + [mark] + t != "";
  }

  lemma {:induction false} TypedFrom(es: seq<Element>, also: set<char>, stray: nat -> set<char>)
    requires Typable(es, also, stray)
    ensures SplitFrom(Line(es), also, stray) == Texts(es)
    decreases |es|
  {
    hide Split, SplitFrom, Stays, Leads, NothingOpen, IsWord, Words;
    if es == [] {
      SplitFromNothing(also, stray);
    } else {
      var e, r := es[0], Line(es[1..]);
      if |es| == 1 {
        SplitLast(e, also, stray);
        assert es[1..] == [];
      } else if e.Bare? {
        TypedFrom(es[1..], also, stray);
        SplitBare(e.text, r, also, stray);
        WordsOfWord(e.text);
      } else {
        TypedFrom(es[1..], stray(|r|), stray);
        SplitStep(r, stray);
        SplitQuoted(e.before, e.mark, e.text, e.after + " " + r, also, stray);
        TailBeforeSpace(e.after, r);
        assert Line(es) == e.before + [e.mark] + e.text + [e.mark] + (e.after + " " + r);
      }
    }
  }

  lemma {:induction false} TailBeforeSpace(after: string, r: string)
    requires ' ' !in after
    ensures Tail(after + " " + r) == after && Left(after + " " + r) == r
  {
    var u := after + " " + r;
    SpaceIs(u, |after|);
    assert u[..|after|] == after && u[|after| + 1..] == r;
  }

  /** A line typed with quotes where they are needed is split into the texts that were meant. */
  lemma {:induction false} TypedLine(es: seq<Element>, stray: nat -> set<char>)
    requires Typable(es, stray(|Line(es)|), stray)
    ensures Split(Line(es), stray) == Texts(es)
  {
    hide Split, SplitFrom, Typable, Line, Texts;
    SplitStep(Line(es), stray);
    TypedFrom(es, stray(|Line(es)|), stray);
  }

  lemma {:induction false} SplitFromNothing(also: set<char>, stray: nat -> set<char>)
    ensures SplitFrom("", also, stray) == [] && Split("", stray) == []
  {
  }

  lemma {:induction false} NoTail()
    ensures Tail("") == "" && Left("") == ""
  {
  }

  lemma {:induction false} SplitLast(e: Element, also: set<char>, stray: nat -> set<char>)
    requires Sayable(e, also) && (e.Quoted? ==> e.after == "")
    ensures SplitFrom(Typed(e), also, stray) == [Said(e)]
  {
    hide Split, SplitFrom, Stays, Leads, NothingOpen, IsWord, Words, Tail, Left;
    if e.Bare? {
      SplitFromUnquoted(e.text, also, stray);
      WordsOfWord(e.text);
    } else {
      SplitQuoted(e.before, e.mark, e.text, "", also, stray);
      NoTail();
      SplitFromNothing(also, stray);
    }
  }

  /** Text that follows a closing quote up to the line's end arrives whole only if there is none. */
  lemma {:induction false} TailLosesItsLast(mark: char, t: string, u: string, stray: nat -> set<char>)
    requires (mark == '\'' || mark == '\"') && ' ' !in u && t != "" && Stays({mark} + stray(|t| + |u| + 2), t)
    ensures Split([mark] + t + [mark] + u, stray) == [t + u] <==> u == ""
  {
    hide Split, SplitFrom, Stays, Tail, Left;
    var s := [mark] + t + [mark] + u;
    SplitStep(s, stray);
    assert |s| == |t| + |u| + 2;
    NothingLeads();
    assert "" + [mark] + t + [mark] + u == s && "" + t + Tail(u) == t + Tail(u);
    SplitQuoted("", mark, t, u, stray(|s|), stray);
    SplitFromNothing({}, stray);
    TailAtEnd(u);
    assert Split(s, stray) == [t + Tail(u)];
    if u == "" {
      assert t + Tail(u) == t + u;
    } else {
      assert Split(s, stray)[0] == t + Tail(u) && |t + Tail(u)| < |t + u|;
    }
  }

  lemma {:induction false} TailAtEnd(u: string)
    requires ' ' !in u
    ensures Left(u) == "" && Tail(u) == if u == "" then "" else u[..|u| - 1]
  {
    SpaceIs(u, |u|);
  }

  lemma {:induction false} NothingLeads()
    ensures Leads("")
  {
  }

  // ---- When quoting works -----------------------------------------------------------------------------------

  lemma {:induction false} WordsAreShort(s: string, i: nat)
    requires i < |Words(s)|
    ensures |Words(s)[i]| <= |s|
    decreases |s|
  {
    if s[0] == ' ' {
      WordsAreShort(s[1..], i);
    } else if i > 0 {
      WordsAreShort(s[Space(s)..], i - 1);
    }
  }

  lemma {:induction false} ArgumentsAreShort(s: string, stray: nat -> set<char>, i: nat)
    requires i < |Split(s, stray)|
    ensures |Split(s, stray)[i]| <= |s|
    decreases |s|
  {
    hide Words, FirstPart, Split;
    SplitStep(s, stray);
    if s != "" {
      var p := FirstPart(s, stray(|s|));
      var n := |Words(p.plain)|;
      var m := n + if p.argument == "" then 0 else 1;
      PartIsShort(s, stray(|s|));
      if i < n {
        WordsAreShort(p.plain, i);
      } else if i >= m {
        ArgumentsAreShort(p.rest, stray, i - m);
      }
    }
  }

  lemma {:induction false} PartIsShort(s: string, also: set<char>)
    requires s != ""
    ensures var p := FirstPart(s, also);
            |p.plain| <= |s| && |p.argument| <= |s| && |p.rest| < |s|
  {
    hide *;
    var q: int := FirstOpen(s, QUOTES, 0);
    if q == |s| {
      PartUnquoted(s, also);
    } else {
      PiecesBeforeAreShort(s, q);
      var e := FirstOpen(s, {s[q]} + also, q + 1);
      if e == |s| {
        PartUnclosed(s, also, q);
        AroundIsShort(Attached(s, q), s[q + 1..], "");
      } else {
        PartClosed(s, also, q, e);
        FollowingIsShort(s, e);
        AroundIsShort(Attached(s, q), s[q + 1..e], Following(s, e));
      }
    }
  }

  lemma {:induction false} PiecesBeforeAreShort(s: string, q: nat)
    requires q < |s|
    ensures |PlainBefore(s, q)| <= q && |Attached(s, q)| <= q
  {
  }

  lemma {:induction false} FollowingIsShort(s: string, e: nat)
    requires e < |s|
    ensures |Following(s, e)| <= |s| - e - 1
  {
    hide Space;
  }

  lemma {:induction false} AroundIsShort(before: string, quoted: string, after: string)
    ensures |Around(before, quoted, after)| <= |before| + |quoted| + |after|
  {
  }

  /** Where the search for the closing quote ends if the text cannot stand between quotes. */
  lemma {:induction false} ClosedElsewhere(mark: char, t: string, also: set<char>)
    requires mark in QUOTES && t != "" && !Stays({mark} + also, t)
    ensures var s := [mark] + t + [mark];
            FirstOpen(s, QUOTES, 0) == 0 && FirstOpen(s, {s[0]} + also, 1) != |t| + 1
  {
    hide FirstOpen;
    var s := [mark] + t + [mark];
    FirstOpenIs(s, QUOTES, 0, 0);
    var chars := {s[0]} + also;
    FirstIsOpen(s, chars, 1);
    if t[|t| - 1] == '\\' {
      assert s[|t|] == '\\';
    } else {
      var i :| 0 <= i < |t| && Open(t, i, {mark} + also);
      assert s[i + 1] == t[i] && (i > 0 ==> s[i] == t[i - 1]);
      assert Open(s, i + 1, chars);
    }
  }

  lemma {:induction false} StaysMeans(chars: set<char>, t: string)
    ensures Stays(chars, t) <==>
            && (t == "" || t[|t| - 1] != '\\')
            && forall i :: 0 <= i < |t| && t[i] in chars ==> i > 0 && t[i - 1] == '\\'
  {
    if Stays(chars, t) {
      forall i | 0 <= i < |t| && t[i] in chars
        ensures i > 0 && t[i - 1] == '\\'
      {
        assert !Open(t, i, chars);
      }
    }
  }

  /**
   * Quoting a text makes it one argument exactly when there is one, it does not end in a backslash, and every quote of
   * that kind in it, or other character that the search takes for one, comes right after a backslash.
   */
  lemma {:induction false} QuotingIsExact(mark: char, t: string, stray: nat -> set<char>)
    requires mark == '\'' || mark == '\"'
    ensures Split([mark] + t + [mark], stray) == [t] <==>
            && t != "" && t[|t| - 1] != '\\'
            && forall i :: 0 <= i < |t| && t[i] in {mark} + stray(|t| + 2) ==> i > 0 && t[i - 1] == '\\'
  {
    hide *;
    var s := [mark] + t + [mark];
    var also := stray(|s|);
    SplitStep(s, stray);
    StaysMeans({mark} + also, t);
    MarksAreQuotes(mark);
    if t == "" {
      ArgumentsAreFilled(s, stray);
    } else if Stays({mark} + also, t) {
      NothingLeads();
      NoTail();
      SplitQuoted("", mark, t, "", also, stray);
      SplitFromNothing(also, stray);
      assert "" + [mark] + t + [mark] + "" == s && "" + t + "" == t;
    } else {
      NotQuoted(mark, t, also, stray);
    }
  }

  lemma {:induction false} NotQuoted(mark: char, t: string, also: set<char>, stray: nat -> set<char>)
    requires mark in QUOTES && t != "" && !Stays({mark} + also, t)
    ensures SplitFrom([mark] + t + [mark], also, stray) != [t]
  {
    hide Split, Stays, FirstPart, FirstOpen, Words;
    var s := [mark] + t + [mark];
    var e := FirstOpen(s, {s[0]} + also, 1);
    ClosedElsewhere(mark, t, also);
    NothingBefore("", s);
    assert "" + s == s;
    NoWords();
    var p := FirstPart(s, also);
    if e == |s| {
      PartUnclosed(s, also, 0);
      AroundIs("", s[1..], "");
      assert |p.argument| > |t| && SplitFrom(s, also, stray)[0] == p.argument;
    } else {
      PartClosed(s, also, 0, e);
      ClosedEarly(s, e);
      if p.argument != "" {
        assert SplitFrom(s, also, stray)[0] == p.argument;
      } else {
        assert SplitFrom(s, also, stray) == Split(p.rest, stray);
        if |Split(p.rest, stray)| > 0 {
          ArgumentsAreShort(p.rest, stray, 0);
        }
      }
    }
  }

  lemma {:induction false} ClosedEarly(s: string, e: nat)
    requires 1 <= e < |s| - 1
    ensures |Around("", s[1..e], Following(s, e))| < |s| - 2
    ensures |s[ArgumentEnd(s, e) + 1..]| < |s| - 2
  {
    hide Space;
  }
}
