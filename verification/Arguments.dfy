/** CxArguments: options and their values collected from an argument vector, and printed back as a command line. */
module Arguments {
  import opened Splitting

  predicate BeginWith(s: string, prefix: string) {
    |s| >= |prefix| && s[..|prefix|] == prefix
  }

  predicate IsOption(arg: string) {
    arg != "" && arg[0] == '-'
  }

  /** The name after one dash or two. */
  function KeyOf(arg: string): string
    requires IsOption(arg)
  {
    if |arg| > 1 && arg[1] == '-' then arg[2..] else arg[1..]
  }

  lemma {:induction false} Dashes(arg: string)
    ensures BeginWith(arg, "-") <==> IsOption(arg)
    ensures IsOption(arg) ==> (BeginWith(arg, "--") <==> |arg| > 1 && arg[1] == '-')
  {
    assert IsOption(arg) ==> arg[..1] == "-";
    assert |arg| > 1 && IsOption(arg) && arg[1] == '-' ==> arg[..2] == "--";
  }

  /** An option and the arguments up to the next option. */
  datatype Section = Section(option: string, values: seq<string>)

  type Option = s: Section | IsOption(s.option) witness Section("-", [])

  /** The sections of an argument vector without its program name; arguments before the first option are in none. */
  function Sections(args: seq<string>): seq<Option> {
    if args == [] then []
    else
      var before, last := Sections(args[..|args| - 1]), args[|args| - 1];
      if IsOption(last) then before + [Section(last, [])]
      else if before == [] then []
      else
        var open := before[|before| - 1];
        before[..|before| - 1] + [Section(open.option, open.values + [last])]
  }

  /** A section is recorded unless its option is dashes only. */
  predicate Recorded(s: Option) {
    KeyOf(s.option) != ""
  }

  // ---- The maps ---------------------------------------------------------------------------------------------

  /** Values joined by spaces, a later section replacing an earlier one of the same key. */
  function StringMap(ss: seq<Option>): map<string, string> {
    if ss == [] then map[]
    else
      var m, s := StringMap(ss[..|ss| - 1]), ss[|ss| - 1];
      if Recorded(s) then m[KeyOf(s.option) := Join(s.values)] else m
  }

  function VectorMap(ss: seq<Option>): map<string, seq<string>> {
    if ss == [] then map[]
    else
      var m, s := VectorMap(ss[..|ss| - 1]), ss[|ss| - 1];
      if Recorded(s) then m[KeyOf(s.option) := s.values] else m
  }

  /** As argsToMapVector builds it: a section without values changes nothing. */
  function FilledMap(ss: seq<Option>): map<string, seq<string>> {
    if ss == [] then map[]
    else
      var m, s := FilledMap(ss[..|ss| - 1]), ss[|ss| - 1];
      if Recorded(s) && s.values != [] then m[KeyOf(s.option) := s.values] else m
  }

  /** The keys in the order of their sections, repeats included. */
  function KeyList(ss: seq<Option>): seq<string> {
    if ss == [] then []
    else KeyList(ss[..|ss| - 1]) + if Recorded(ss[|ss| - 1]) then [KeyOf(ss[|ss| - 1].option)] else []
  }

  /** The one-line rendering that init keeps: each recorded option, then its values. */
  function Rendered(ss: seq<Option>): string {
    if ss == [] then ""
    else
      var s := ss[|ss| - 1];
      Rendered(ss[..|ss| - 1]) +
      if Recorded(s) then " " + s.option + (if s.values == [] then "" else " " + Join(s.values)) else ""
  }

  /** Section i is the last recorded one with its key. */
  predicate Last(ss: seq<Option>, i: nat)
    requires i < |ss|
  {
    Recorded(ss[i]) && forall j :: i < j < |ss| && Recorded(ss[j]) ==> KeyOf(ss[j].option) != KeyOf(ss[i].option)
  }

  predicate LastFilled(ss: seq<Option>, i: nat)
    requires i < |ss|
  {
    Recorded(ss[i]) && ss[i].values != [] &&
    forall j :: i < j < |ss| && Recorded(ss[j]) && ss[j].values != [] ==> KeyOf(ss[j].option) != KeyOf(ss[i].option)
  }

  /** The string map holds exactly the recorded keys, each with the joined values of its last section. */
  lemma {:induction false} LastSectionWins(ss: seq<Option>, k: string)
    ensures k in StringMap(ss) <==> k in KeyList(ss)
    ensures k in StringMap(ss) ==>
              exists i ::
                && 0 <= i < |ss| && Last(ss, i) && KeyOf(ss[i].option) == k
                && StringMap(ss)[k] == Join(ss[i].values)
    decreases |ss|
  {
    hide KeyOf, Join;
    if ss != [] {
      var n := |ss| - 1;
      LastSectionWins(ss[..n], k);
      if Recorded(ss[n]) && KeyOf(ss[n].option) == k {
        assert Last(ss, n);
      } else if k in StringMap(ss) {
        var i :| 0 <= i < n && Last(ss[..n], i) && KeyOf(ss[..n][i].option) == k &&
                 StringMap(ss[..n])[k] == Join(ss[..n][i].values);
        assert Last(ss, i);
      }
    }
  }

  /** The collectors agree: same keys, and each string is the join of the vector. */
  lemma {:induction false} MapsAgree(ss: seq<Option>)
    ensures StringMap(ss).Keys == VectorMap(ss).Keys
    ensures forall k :: k in StringMap(ss) ==> StringMap(ss)[k] == Join(VectorMap(ss)[k])
    decreases |ss|
  {
    hide KeyOf, Join;
    if ss != [] {
      MapsAgree(ss[..|ss| - 1]);
    }
  }

  /** argsToMapVector holds the keys that ever had values, each with the last values it had. */
  lemma {:induction false} LastFilledWins(ss: seq<Option>, k: string)
    ensures k in FilledMap(ss) <==> exists i :: 0 <= i < |ss| && LastFilled(ss, i) && KeyOf(ss[i].option) == k
    ensures forall i :: 0 <= i < |ss| && LastFilled(ss, i) && KeyOf(ss[i].option) == k ==>
              k in FilledMap(ss) && FilledMap(ss)[k] == ss[i].values
    decreases |ss|
  {
    hide KeyOf;
    if ss != [] {
      var n := |ss| - 1;
      LastFilledWins(ss[..n], k);
      assert forall i :: 0 <= i < n ==> ss[..n][i] == ss[i];
      if Recorded(ss[n]) && ss[n].values != [] && KeyOf(ss[n].option) == k {
        assert LastFilled(ss, n);
      } else {
        forall i | 0 <= i < n && KeyOf(ss[i].option) == k
          ensures LastFilled(ss, i) <==> LastFilled(ss[..n], i)
        {
        }
      }
    }
  }

  /** The two vector maps are the same exactly when no key was last given without values. */
  lemma {:induction false} FilledOrNot(ss: seq<Option>)
    ensures FilledMap(ss) == VectorMap(ss) <==> forall k :: k in VectorMap(ss) ==> VectorMap(ss)[k] != []
  {
    FilledInside(ss);
    if forall k :: k in VectorMap(ss) ==> VectorMap(ss)[k] != [] {
      assert FilledMap(ss).Keys == VectorMap(ss).Keys;
    }
  }

  lemma {:induction false} FilledInside(ss: seq<Option>)
    ensures forall k :: k in FilledMap(ss) ==> k in VectorMap(ss) && FilledMap(ss)[k] != []
    ensures forall k :: k in VectorMap(ss) && VectorMap(ss)[k] != [] ==>
                          k in FilledMap(ss) && FilledMap(ss)[k] == VectorMap(ss)[k]
    decreases |ss|
  {
    hide KeyOf;
    if ss != [] {
      FilledInside(ss[..|ss| - 1]);
    }
  }

  // ---- The collecting loops ---------------------------------------------------------------------------------

  /** Everything after the program's name. */
  function Given(argv: seq<string>): seq<string> {
    if argv == [] then [] else argv[1..]
  }

  /** The key and values held while a section is being read. */
  predicate Reading(ss: seq<Option>, key: string, values: seq<string>) {
    if ss == [] then key == ""
    else key == KeyOf(ss[|ss| - 1].option) && values == ss[|ss| - 1].values
  }

  function Closed(ss: seq<Option>): seq<Option> {
    if ss == [] then [] else ss[..|ss| - 1]
  }

  /** Reading one more argument. */
  lemma {:induction false} NextArgument(argv: seq<string>, i: nat)
    requires 1 <= i < |argv|
    ensures var before, after := Sections(Given(argv)[..i - 1]), Sections(Given(argv)[..i]);
            && (IsOption(argv[i]) ==> after == before + [Section(argv[i], [])] && Closed(after) == before)
            && (!IsOption(argv[i]) && before == [] ==> after == [])
            && (!IsOption(argv[i]) && before != [] ==>
                && Closed(after) == Closed(before) && after != []
                && after[|after| - 1].option == before[|before| - 1].option
                && after[|after| - 1].values == before[|before| - 1].values + [argv[i]])
  {
    var args := Given(argv);
    assert args[..i][..i - 1] == args[..i - 1] && args[..i][i - 1] == argv[i];
  }

  lemma {:induction false} AllGiven(argv: seq<string>)
    ensures Given(argv)[..|Given(argv)|] == Given(argv) && Sections(Given(argv)[..0]) == []
  {
  }

  /** The name cut out of an option as the loops cut it. */
  method CutKey(arg: string) returns (key: string)
    requires IsOption(arg)
    ensures key == KeyOf(arg)
  {
    Dashes(arg);
    if BeginWith(arg, "--") {
      key := arg[2..];
    } else {
      key := arg[1..];
    }
  }

  lemma {:induction false} CloseStrings(ss: seq<Option>, key: string, values: seq<string>)
    requires Reading(ss, key, values)
    ensures StringMap(ss) == if key != "" then StringMap(Closed(ss))[key := Join(values)] else StringMap(Closed(ss))
  {
  }

  method ArgsToMapString(argv: seq<string>) returns (m: map<string, string>)
    ensures m == StringMap(Sections(Given(argv)))
  {
    hide KeyOf, Join, Sections, StringMap, IsOption, BeginWith, Reading, Closed;
    m := map[];
    var key, values, i := "", [], 1;
    ghost var args := Given(argv);
    AllGiven(argv);
    ReadingFromStart();
    while i < |argv|
      invariant 1 <= i && i - 1 <= |args| && (i >= |argv| ==> i - 1 == |args|)
      invariant Reading(Sections(args[..i - 1]), key, values) && m == StringMap(Closed(Sections(args[..i - 1])))
    {
      NextArgument(argv, i);
      Dashes(argv[i]);
      if BeginWith(argv[i], "-") {
        CloseStrings(Sections(args[..i - 1]), key, values);
        if key != "" {
          if values != [] {
            var value := JoinStrings(values);
            m := m[key := value];
          } else {
            JoinNone();
            m := m[key := ""];
          }
        }
        values := [];
        key := CutKey(argv[i]);
        ReadingOption(Sections(args[..i - 1]), argv[i]);
      } else {
        ReadingValue(Sections(args[..i - 1]), Sections(args[..i]), key, values, argv[i]);
        values := values + [argv[i]];
      }
      i := i + 1;
    }
    CloseStrings(Sections(args), key, values);
    if key != "" {
      if values != [] {
        var value := JoinStrings(values);
        m := m[key := value];
      } else {
        JoinNone();
        m := m[key := ""];
      }
    }
  }

  lemma {:induction false} ReadingFromStart()
    ensures Reading([], "", []) && StringMap(Closed([])) == map[] && VectorMap(Closed([])) == map[]
    ensures FilledMap(Closed([])) == map[] && KeyList([]) == [] && Rendered(Closed([])) == ""
  {
  }

  lemma {:induction false} ReadingOption(ss: seq<Option>, arg: string)
    requires IsOption(arg)
    ensures Reading(ss + [Section(arg, [])], KeyOf(arg), [])
  {
  }

  lemma {:induction false} ReadingValue(ss: seq<Option>, tt: seq<Option>, key: string, values: seq<string>, arg: string)
    requires Reading(ss, key, values)
    requires ss == [] ==> tt == []
    requires ss != [] ==> tt != [] && tt[|tt| - 1].option == ss[|ss| - 1].option &&
                          tt[|tt| - 1].values == ss[|ss| - 1].values + [arg]
    ensures Reading(tt, key, values + [arg])
  {
  }

  lemma {:induction false} CloseFilled(ss: seq<Option>, key: string, values: seq<string>)
    requires Reading(ss, key, values)
    ensures FilledMap(ss)
         == if key != "" && values != [] then FilledMap(Closed(ss))[key := values] else FilledMap(Closed(ss))
  {
  }

  method ArgsToMapVector(argv: seq<string>) returns (m: map<string, seq<string>>)
    ensures m == FilledMap(Sections(Given(argv)))
  {
    hide KeyOf, Sections, FilledMap, IsOption, BeginWith, Reading, Closed;
    m := map[];
    var key, values, i := "", [], 1;
    ghost var args := Given(argv);
    AllGiven(argv);
    ReadingFromStart();
    while i < |argv|
      invariant 1 <= i && i - 1 <= |args| && (i >= |argv| ==> i - 1 == |args|)
      invariant Reading(Sections(args[..i - 1]), key, values) && m == FilledMap(Closed(Sections(args[..i - 1])))
    {
      NextArgument(argv, i);
      Dashes(argv[i]);
      if BeginWith(argv[i], "-") {
        CloseFilled(Sections(args[..i - 1]), key, values);
        if key != "" && values != [] {
          m := m[key := values];
        }
        values := [];
        key := CutKey(argv[i]);
        ReadingOption(Sections(args[..i - 1]), argv[i]);
      } else {
        ReadingValue(Sections(args[..i - 1]), Sections(args[..i]), key, values, argv[i]);
        values := values + [argv[i]];
      }
      i := i + 1;
    }
    CloseFilled(Sections(args), key, values);
    if key != "" && values != [] {
      m := m[key := values];
    }
  }

  // ---- The process-wide record ------------------------------------------------------------------------------

  lemma {:induction false} CloseVectors(ss: seq<Option>, key: string, values: seq<string>)
    requires Reading(ss, key, values)
    ensures VectorMap(ss) == if key != "" then VectorMap(Closed(ss))[key := values] else VectorMap(Closed(ss))
  {
  }

  /** The rendering while a section is open: its values are still to come. */
  function RenderedOpen(ss: seq<Option>): string {
    Rendered(Closed(ss)) + if ss != [] && Recorded(ss[|ss| - 1]) then " " + ss[|ss| - 1].option else ""
  }

  lemma {:induction false} CloseRendered(ss: seq<Option>, key: string, values: seq<string>)
    requires Reading(ss, key, values)
    ensures Rendered(ss) == RenderedOpen(ss) + if key != "" && values != [] then " " + Join(values) else ""
  {
    hide KeyOf, Join;
  }

  lemma {:induction false} OpenOption(ss: seq<Option>, arg: string)
    requires IsOption(arg)
    ensures RenderedOpen(ss + [Section(arg, [])]) == Rendered(ss) + if KeyOf(arg) != "" then " " + arg else ""
    ensures KeyList(ss + [Section(arg, [])]) == KeyList(ss) + if KeyOf(arg) != "" then [KeyOf(arg)] else []
  {
    hide KeyOf;
    var tt := ss + [Section(arg, [])];
    assert tt[..|tt| - 1] == ss;
  }

  /** A further value leaves the open section's option, and so its key and rendering, as they are. */
  lemma {:induction false} KeepOption(ss: seq<Option>, tt: seq<Option>)
    requires ss == [] ==> tt == []
    requires ss != [] ==> tt != [] && Closed(tt) == Closed(ss) && tt[|tt| - 1].option == ss[|ss| - 1].option
    ensures RenderedOpen(tt) == RenderedOpen(ss) && KeyList(tt) == KeyList(ss)
  {
  }

  /** The file-level variables that init overwrites. */
  class Record {
    var arg0: string
    var arg1: string
    var args: string
    var argKeys: seq<string>
    var argMapVector: map<string, seq<string>>
    var argMapString: map<string, string>

    method Init(argv: seq<string>)
      modifies this
      ensures arg0 == (if |argv| > 0 then argv[0] else "") && arg1 == (if |argv| > 1 then argv[1] else "")
      ensures argKeys == KeyList(Sections(Given(argv))) && args == Rendered(Sections(Given(argv)))
      ensures argMapVector == VectorMap(Sections(Given(argv))) && argMapString == StringMap(Sections(Given(argv)))
    {
      hide KeyOf, Sections, VectorMap, StringMap, KeyList, Rendered, RenderedOpen, Join;
      hide IsOption, BeginWith, Reading, Closed;
      var text, keys, vectors, strings := "", [], map[], map[];
      var key, values, i := "", [], 1;
      ghost var given := Given(argv);
      ghost var ss := Sections(given[..0]);
      AllGiven(argv);
      ReadingFromStart();
      NothingOpen();
      JoinNone();
      while i < |argv|
        invariant 1 <= i && i - 1 <= |given| && (i >= |argv| ==> i - 1 == |given|) && ss == Sections(given[..i - 1])
        invariant Reading(ss, key, values) && keys == KeyList(ss) && text == RenderedOpen(ss)
        invariant vectors == VectorMap(Closed(ss)) && strings == StringMap(Closed(ss))
        modifies {}
      {
        NextArgument(argv, i);
        Dashes(argv[i]);
        ghost var tt := Sections(given[..i]);
        if BeginWith(argv[i], "-") {
          CloseStrings(ss, key, values);
          CloseVectors(ss, key, values);
          CloseRendered(ss, key, values);
          text, vectors, strings := Flush(key, values, text, vectors, strings);
          OpenOption(ss, argv[i]);
          ReadingOption(ss, argv[i]);
          key := CutKey(argv[i]);
          values := [];
          if key != "" {
            keys := keys + [key];
            text := text + " " + argv[i];
          }
        } else {
          ReadingValue(ss, tt, key, values, argv[i]);
          KeepOption(ss, tt);
          values := values + [argv[i]];
        }
        i, ss := i + 1, tt;
      }
      CloseStrings(ss, key, values);
      CloseVectors(ss, key, values);
      CloseRendered(ss, key, values);
      text, vectors, strings := Flush(key, values, text, vectors, strings);
      arg0 := if |argv| > 0 then argv[0] else "";
      arg1 := if |argv| > 1 then argv[1] else "";
      args, argKeys, argMapVector, argMapString := text, keys, vectors, strings;
    }
  }

  lemma {:induction false} NothingOpen()
    ensures RenderedOpen([]) == ""
  {
  }

  /** The end of a section in init. */
  method Flush(key: string, values: seq<string>, text: string, vectors: map<string, seq<string>>,
               strings: map<string, string>)
      returns (t: string, v: map<string, seq<string>>, s: map<string, string>)
    ensures t == text + if key != "" && values != [] then " " + Join(values) else ""
    ensures v == if key != "" then vectors[key := values] else vectors
    ensures s == if key != "" then strings[key := Join(values)] else strings
  {
    hide Join;
    JoinNone();
    t, v, s := text, vectors, strings;
    if key != "" {
      var value := "";
      if values != [] {
        v := v[key := values];
        value := JoinStrings(values);
        s := s[key := value];
        t := t + " " + value;
      } else {
        v := v[key := []];
        s := s[key := value];
        t := t + value;
      }
    }
  }
}
