/** ArgvSplit: a command line cut into arguments. */
module CommandLine {
  import opened Splitting

  const QUOTES: set<char> := {'\'', '\"'}

  predicate Escaped(s: string, at: nat) {
    0 < at <= |s| && s[at - 1] == '\\'
  }

  /** One of these characters with no backslash before it. */
  predicate Open(s: string, at: nat, chars: set<char>)
    requires at < |s|
  {
    s[at] in chars && !Escaped(s, at)
  }

  /** The first such position, or the length. */
  function FirstOpen(s: string, chars: set<char>, from: nat): (n: nat)
    requires from <= |s|
    ensures from <= n <= |s|
    decreases |s| - from
  {
    if from == |s| || Open(s, from, chars) then from else FirstOpen(s, chars, from + 1)
  }

  lemma {:induction false} FirstIsOpen(s: string, chars: set<char>, from: nat)
    requires from <= |s|
    ensures var n := FirstOpen(s, chars, from);
            (n < |s| ==> Open(s, n, chars)) && forall i :: from <= i < n ==> !Open(s, i, chars)
    decreases |s| - from
  {
    hide Open;
    if from < |s| && !Open(s, from, chars) {
      FirstIsOpen(s, chars, from + 1);
    }
  }

  /** The last space up to a position, or -1. */
  function LastSpace(s: string, upTo: int): (n: int)
    requires -1 <= upTo < |s|
    ensures -1 <= n <= upTo && (n != -1 ==> s[n] == ' ')
    decreases upTo
  {
    if upTo == -1 || s[upTo] == ' ' then upTo else LastSpace(s, upTo - 1)
  }

  // ---- What a line is cut into ------------------------------------------------------------------------------

  /** A text cut at its first quoted part: what comes before the argument, the argument, what is left to parse. */
  datatype Part = Part(plain: string, argument: string, rest: string)

  /** The argument around a quoted part, which is dropped as a whole when there is nothing between the quotes. */
  function Around(before: string, quoted: string, after: string): string {
    if quoted == "" then "" else before + quoted + after
  }

  /** Where the argument of a quoted part that is closed at e ends: at a space, or before the last character. */
  function ArgumentEnd(s: string, e: nat): (end: nat)
    requires e < |s|
    ensures e <= end < |s|
  {
    var n := e + 1 + Space(s[e + 1..]);
    if n == |s| then |s| - 1 else n
  }

  /** What follows the closing quote at e in the same argument. */
  function Following(s: string, e: nat): string
    requires e < |s|
  {
    var end := ArgumentEnd(s, e);
    if end > e then s[e + 1..end] else ""
  }

  /** The words before an argument with its first quote at q. */
  function PlainBefore(s: string, q: nat): string
    requires q < |s|
  {
    var front := LastSpace(s, q - 1);
    if front == -1 then "" else s[..front]
  }

  /** What stands in the same argument before its first quote. */
  function Attached(s: string, q: nat): string
    requires q < |s|
  {
    s[LastSpace(s, q - 1) + 1..q]
  }

  /** `stray` are characters that count as closing quotes too. */
  function FirstPart(s: string, stray: set<char>): (p: Part)
    requires s != ""
    ensures |p.rest| < |s|
  {
    var q := FirstOpen(s, QUOTES, 0);
    if q == |s| then Part(s, "", "")
    else
      var e := FirstOpen(s, {s[q]} + stray, q + 1);
      if e == |s| then Part(PlainBefore(s, q), Around(Attached(s, q), s[q + 1..], ""), "")
      else
        Part(PlainBefore(s, q), Around(Attached(s, q), s[q + 1..e], Following(s, e)), s[ArgumentEnd(s, e) + 1..])
  }

  /**
   * The arguments of a line. The source searches for the closing quote with a set of characters that has no
   * terminator: `stray` gives those that follow it in memory, for each length of what is left to parse.
   */
  function Split(s: string, stray: nat -> set<char>): seq<string>
    decreases |s|
  {
    if s == "" then []
    else
      var p := FirstPart(s, stray(|s|));
      Words(p.plain) + (if p.argument == "" then [] else [p.argument]) + Split(p.rest, stray)
  }

  // ---- The searches. Positions are -1 where the source has npos. --------------------------------------------

  function Position(s: string, n: nat): int {
    if n == |s| then -1 else n
  }

  /** find_first_of. */
  method FindAny(s: string, chars: set<char>, from: nat) returns (at: int)
    requires from <= |s|
    ensures at == -1 || (from <= at < |s| && s[at] in chars)
    ensures forall i :: from <= i < (if at == -1 then |s| else at) ==> s[i] !in chars
  {
    at := from;
    while at < |s|
      invariant from <= at <= |s| && forall i :: from <= i < at ==> s[i] !in chars
    {
      if s[at] in chars {
        return;
      }
      at := at + 1;
    }
    at := -1;
  }

  lemma {:induction false} FirstOpenIs(s: string, chars: set<char>, from: nat, n: nat)
    requires from <= n <= |s| && (n < |s| ==> Open(s, n, chars)) && forall i :: from <= i < n ==> !Open(s, i, chars)
    ensures FirstOpen(s, chars, from) == n
  {
    hide Open, FirstOpen;
    FirstIsOpen(s, chars, from);
    assert !(FirstOpen(s, chars, from) < n);
    assert !(n < FirstOpen(s, chars, from));
  }

  /** Searching on while what was found is escaped finds the first open one. */
  method FindOpen(s: string, chars: set<char>, from: nat) returns (at: int)
    requires from <= |s|
    ensures at == Position(s, FirstOpen(s, chars, from))
  {
    at := FindAny(s, chars, from);
    while at != -1 && Escaped(s, at)
      invariant at == -1 || (from <= at < |s| && s[at] in chars)
      invariant forall i :: from <= i < (if at == -1 then |s| else at) ==> !Open(s, i, chars)
      decreases if at == -1 then 0 else |s| - at
    {
      at := FindAny(s, chars, at + 1);
    }
    FirstOpenIs(s, chars, from, if at == -1 then |s| else at);
  }

  /** The first quote that no backslash precedes. */
  method FindFirstQuote(s: string) returns (at: int)
    ensures at == Position(s, FirstOpen(s, QUOTES, 0))
    ensures at == -1 ||
            (0 <= at < |s| && (s[at] == '\'' || s[at] == '\"') && (at > 0 ==> s[at - 1] != '\\'))
    ensures forall i :: 0 <= i < (if at == -1 then |s| else at) && (s[i] == '\'' || s[i] == '\"') ==>
              i > 0 && s[i - 1] == '\\'
  {
    FirstIsOpen(s, QUOTES, 0);
    at := FindOpen(s, QUOTES, 0);
    forall i | 0 <= i < (if at == -1 then |s| else at) && (s[i] == '\'' || s[i] == '\"')
      ensures i > 0 && s[i - 1] == '\\'
    {
      assert !Open(s, i, QUOTES);
    }
  }

  /** The quote that closes the one at `first`. */
  method FindMatching(s: string, first: int, stray: set<char>) returns (at: int)
    requires first == -1 || 0 <= first < |s|
    ensures at == if first == -1 then -1 else Position(s, FirstOpen(s, {s[first]} + stray, first + 1))
  {
    at := -1;
    if first != -1 {
      at := FindOpen(s, {s[first]} + stray, first + 1);
    }
  }

  method FindSpace(s: string, from: nat) returns (at: int)
    requires from <= |s|
    ensures at == Position(s, from + Space(s[from..]))
  {
    var n := from + Space(s[from..]);
    at := if n == |s| then -1 else n;
  }

  method FindLastSpace(s: string, upTo: nat) returns (at: int)
    requires upTo < |s|
    ensures at == LastSpace(s, upTo)
  {
    at := upTo;
    while at >= 0 && s[at] != ' '
      invariant -1 <= at <= upTo && LastSpace(s, at) == LastSpace(s, upTo)
    {
      at := at - 1;
    }
  }

  lemma {:induction false} NoWords()
    ensures Words("") == [] && QuoteFree("")
  {
  }

  /** What one element read up to a space contributes. */
  lemma {:induction false} NextWord(s: string, at: nat)
    requires at < |s|
    ensures var n := Space(s[at..]);
            at + n <= |s| &&
            Words(s[at..]) == (if n == 0 then [] else [s[at..at + n]]) +
                              Words(s[if at + n < |s| then at + n + 1 else |s|..])
  {
    hide Space;
    var rest := s[at..];
    var n := Space(rest);
    assert rest[..n] == s[at..at + n] && rest[n..] == s[at + n..];
    if at + n < |s| {
      assert s[at + n..][1..] == s[at + n + 1..] && rest[1..] == s[at + 1..];
    } else {
      assert s[at + n..] == "" && s[|s|..] == "";
    }
  }

  lemma {:induction false} BeforeQuote(s: string)
    ensures var q := FirstOpen(s, QUOTES, 0);
            q < |s| ==> LastSpace(s, q) == LastSpace(s, q - 1)
  {
    FirstIsOpen(s, QUOTES, 0);
  }

  lemma {:induction false} PartUnquoted(s: string, stray: set<char>)
    requires s != "" && FirstOpen(s, QUOTES, 0) == |s|
    ensures FirstPart(s, stray) == Part(s, "", "")
  {
    hide FirstOpen, Around, Attached, PlainBefore, Following, ArgumentEnd, Open, Escaped;
  }

  lemma {:induction false} PartUnclosed(s: string, stray: set<char>, q: nat)
    requires q < |s| && FirstOpen(s, QUOTES, 0) == q && FirstOpen(s, {s[q]} + stray, q + 1) == |s|
    ensures FirstPart(s, stray) == Part(PlainBefore(s, q), Around(Attached(s, q), s[q + 1..], ""), "")
  {
    hide FirstOpen, Around, Attached, PlainBefore, Following, ArgumentEnd, Open, Escaped;
  }

  lemma {:induction false} PartClosed(s: string, stray: set<char>, q: nat, e: nat)
    requires q < e < |s| && FirstOpen(s, QUOTES, 0) == q && FirstOpen(s, {s[q]} + stray, q + 1) == e
    ensures FirstPart(s, stray)
         == Part(PlainBefore(s, q), Around(Attached(s, q), s[q + 1..e], Following(s, e)), s[ArgumentEnd(s, e) + 1..])
  {
    hide FirstOpen, Around, Attached, PlainBefore, Following, ArgumentEnd, Open, Escaped;
  }

  lemma {:induction false} BeforeIs(s: string, q: nat, front: int)
    requires q < |s| && front == LastSpace(s, q - 1)
    ensures PlainBefore(s, q) == (if front == -1 then "" else s[..front]) && Attached(s, q) == s[front + 1..q]
  {
  }

  lemma {:induction false} EndIs(s: string, e: nat, space: int)
    requires e < |s| && space == Position(s, e + 1 + Space(s[e + 1..]))
    ensures var end := if space == -1 then |s| - 1 else space;
            end == ArgumentEnd(s, e) && Following(s, e) == if end > e then s[e + 1..end] else ""
  {
    hide Space;
  }

  /** Around the quotes found, the second one at -1 for nowhere. */
  method CutQuoted(line: string, quote: nat, matching: int, ghost stray: set<char>)
    returns (front: int, back: nat, argument: string)
    requires quote < |line| && quote == FirstOpen(line, QUOTES, 0)
    requires matching == Position(line, FirstOpen(line, {line[quote]} + stray, quote + 1))
    ensures -1 <= front <= |line| && back < |line|
    ensures FirstPart(line, stray) == Part(if front == -1 then "" else line[..front], argument, line[back + 1..])
  {
    hide *;
    PositionTells(line, FirstOpen(line, {line[quote]} + stray, quote + 1));
    var quoted, after := "", "";
    back := |line| - 1;
    if matching != -1 {
      quoted := line[quote + 1..matching];
      var space := FindSpace(line, matching + 1);
      EndIs(line, matching, space);
      if space != -1 {
        back := space;
      }
      after := if back > matching then line[matching + 1..back] else "";
      PartClosed(line, stray, quote, matching);
    } else {
      quoted := line[quote + 1..];
      PartUnclosed(line, stray, quote);
      assert line[back + 1..] == "";
    }
    ghost var part := FirstPart(line, stray);
    assert part == Part(PlainBefore(line, quote), Around(Attached(line, quote), quoted, after), line[back + 1..]);
    front := FindLastSpace(line, quote);
    BeforeQuote(line);
    BeforeIs(line, quote, front);
    var before := line[front + 1..quote];
    AroundIs(before, quoted, after);
    argument := if quoted == "" then "" else before + quoted + after;
  }

  lemma {:induction false} PositionTells(s: string, n: nat)
    ensures Position(s, n) == -1 <==> n == |s|
    ensures n != |s| ==> Position(s, n) == n
  {
  }

  /**
   * The analysis of a non-empty text: up to where it is split by spaces (-1 for nowhere), after which position the
   * next call starts, and the quoted argument with what is attached to it.
   */
  method Cut(line: string, stray: set<char>) returns (front: int, back: int, argument: string)
    requires line != ""
    ensures -1 <= front <= |line| && 0 <= back < |line|
    ensures FirstPart(line, stray) == Part(if front == -1 then "" else line[..front], argument, line[back + 1..])
  {
    hide FirstOpen, FirstPart;
    var quote := FindFirstQuote(line);
    var matching := FindMatching(line, quote, stray);
    if quote != matching {
      front, back, argument := CutQuoted(line, quote, matching, stray);
    } else {
      PartUnquoted(line, stray);
      front, back, argument := |line|, |line| - 1, "";
      assert line[|line|..] == "" && line[..|line|] == line;
    }
  }

  lemma {:induction false} AroundIs(before: string, quoted: string, after: string)
    ensures Around(before, quoted, after) == if quoted == "" then "" else before + quoted + after
  {
  }

  class ArgvSplit {
    const stray: nat -> set<char>
    var arguments: seq<string>

    constructor (stray: nat -> set<char>)
      ensures arguments == [] && this.stray == stray
    {
      this.stray := stray;
      arguments := [];
    }

    /** splitStrToVectorBy with a space. */
    method SplitBySpace(s: string)
      modifies this
      ensures arguments == old(arguments) + Words(s)
    {
      hide Words, Space;
      var at := 0;
      NoWords();
      assert s[0..] == s && s[|s|..] == "";
      while at < |s|
        invariant at <= |s| && arguments + Words(s[at..]) == old(arguments) + Words(s)
      {
        NextWord(s, at);
        var n := Space(s[at..]);
        if n != 0 {
          arguments := arguments + [s[at..at + n]];
        }
        at := if at + n < |s| then at + n + 1 else |s|;
      }
    }

    lemma {:induction false} SplitNext(s: string, before: seq<string>, stray: nat -> set<char>)
      requires s != ""
      ensures var p := FirstPart(s, stray(|s|));
              before + Split(s, stray)
              == before + Words(p.plain) + (if p.argument == "" then [] else [p.argument]) + Split(p.rest, stray)
    {
      hide Words, FirstPart;
    }

    /** _parse. */
    method ParseRest(line: string)
      modifies this
      ensures arguments == old(arguments) + Split(line, stray)
      decreases |line|
    {
      hide *;
      NoWords();
      if line == "" {
        SplitNothing(stray);
        return;
      }
      SplitNext(line, arguments, stray);
      var front, back, argument := Cut(line, stray(|line|));
      if front != -1 {
        SplitBySpace(line[..front]);
      }
      if argument != "" {
        arguments := arguments + [argument];
      }
      ParseRest(line[back + 1..]);
    }

    lemma {:induction false} SplitNothing(stray: nat -> set<char>)
      ensures Split("", stray) == []
    {
    }

    method Parse(line: string)
      modifies this
      ensures arguments == Split(line, stray)
    {
      arguments := [];
      ParseRest(line);
    }
  }
}
