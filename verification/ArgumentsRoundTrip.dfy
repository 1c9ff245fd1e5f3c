/** argsToString and parseCommandLine undo each other. */
module ArgumentsRoundTrip {
  import opened Splitting
  import opened CommandLine
  import opened Arguments
  import opened QuotedLines

  // ---- Printing ---------------------------------------------------------------------------------------------

  /** An option and its value. */
  function Entry(k: string, v: string): string {
    "-" + k + " " + v
  }

  /** Each key and value with the space that follows it. */
  function Printed(keys: seq<string>, m: map<string, string>): string
    requires forall k :: k in keys ==> k in m
  {
    if keys == [] then ""
    else
      var k := keys[|keys| - 1];
      Printed(keys[..|keys| - 1], m) + Entry(k, m[k]) + " "
  }

  function Trimmed(s: string): string {
    if s == "" then "" else s[..|s| - 1]
  }

  /** The iterator visits the map's keys, in ascending order in the source; nothing here depends on the order. */
  ghost predicate Visits(keys: seq<string>, m: map<string, string>) {
    forall k :: k in keys <==> k in m
  }

  method ArgsToString(m: map<string, string>, keys: seq<string>) returns (r: string)
    requires Visits(keys, m)
    ensures r == Trimmed(Printed(keys, m))
  {
    r := "";
    for i := 0 to |keys|
      invariant r == Printed(keys[..i], m)
    {
      assert keys[..i + 1][..i] == keys[..i];
      ghost var before := r;
      r := r + "-";
      r := r + keys[i];
      r := r + " ";
      r := r + m[keys[i]];
      r := r + " ";
      assert r == before + Entry(keys[i], m[keys[i]]) + " ";
    }
    assert keys[..|keys|] == keys;
    if r != "" {
      r := r[..|r| - 1];
    }
  }

  /** The options and values that are printed. */
  function Options(keys: seq<string>, m: map<string, string>): seq<string>
    requires forall k :: k in keys ==> k in m
  {
    seq(|keys|, i requires 0 <= i < |keys| => "-" + keys[i] + " " + m[keys[i]])
  }

  /** The printed text is these, with a space between any two. */
  lemma {:induction false} PrintedMeans(keys: seq<string>, m: map<string, string>)
    requires forall k :: k in keys ==> k in m
    ensures Trimmed(Printed(keys, m)) == Join(Options(keys, m))
    ensures keys != [] ==> Printed(keys, m) == Join(Options(keys, m)) + " "
    decreases |keys|
  {
    hide Join, Entry, Printed, Trimmed, Options;
    PrintedLast(keys, m);
    OptionsLast(keys, m);
    if keys == [] {
      JoinNone();
    } else {
      var n := |keys| - 1;
      var before, entry := Options(keys[..n], m), "-" + keys[n] + " " + m[keys[n]];
      PrintedMeans(keys[..n], m);
      JoinSnoc(before, entry);
      TrimSpace(Join(before + [entry]));
      if n == 0 {
        OptionsLast(keys[..n], m);
        PrintedLast(keys[..n], m);
        assert "" + entry + " " == entry + " ";
      }
    }
  }

  lemma {:induction false} PrintedLast(keys: seq<string>, m: map<string, string>)
    requires forall k :: k in keys ==> k in m
    ensures keys == [] ==> Printed(keys, m) == "" && Trimmed(Printed(keys, m)) == ""
    ensures keys != [] ==>
              var n := |keys| - 1;
              Printed(keys, m) == Printed(keys[..n], m) + ("-" + keys[n] + " " + m[keys[n]]) + " "
  {
  }

  lemma {:induction false} OptionsLast(keys: seq<string>, m: map<string, string>)
    requires forall k :: k in keys ==> k in m
    ensures keys == [] ==> Options(keys, m) == []
    ensures keys != [] ==>
              var n := |keys| - 1;
              |Options(keys[..n], m)| == n
              && Options(keys, m) == Options(keys[..n], m) + ["-" + keys[n] + " " + m[keys[n]]]
  {
  }

  // ---- Parsing ----------------------------------------------------------------------------------------------

  /** A string through c_str(): it ends at the first zero. */
  function CString(s: string): string {
    if s == "" || s[0] == '\0' then "" else [s[0]] + CString(s[1..])
  }

  /** It is the text before the first zero. */
  lemma {:induction false} CStringMeans(s: string, rest: string)
    requires '\0' !in s
    ensures CString(s) == s && CString(s + ['\0'] + rest) == s
  {
    if s == "" {
      assert (s + ['\0'] + rest)[0] == '\0';
    } else {
      CStringMeans(s[1..], rest);
      assert (s + ['\0'] + rest)[1..] == s[1..] + ['\0'] + rest;
    }
  }

  function CStrings(ss: seq<string>): seq<string> {
    seq(|ss|, i requires 0 <= i < |ss| => CString(ss[i]))
  }

  /** The arguments a line is cut into. */
  function Argv(line: string, stray: nat -> set<char>): seq<string> {
    CStrings(Split(line, stray))
  }

  method ParseCommandLine(line: string, name: string, stray: nat -> set<char>)
    returns (m: map<string, string>, argv0: string)
    ensures m == StringMap(Sections(Given(Argv(line, stray))))
    ensures argv0 == if Split(line, stray) == [] then name else CString(Split(line, stray)[0])
  {
    hide StringMap, Sections, Split;
    argv0 := name;
    var parser := new ArgvSplit(stray);
    parser.Parse(line);
    var argv := CStrings(parser.arguments);
    if |argv| > 0 {
      argv0 := argv[0];
    }
    m := ArgsToMapString(argv);
  }

  // ---- The round trip ---------------------------------------------------------------------------------------

  predicate Plain(s: string) {
    QuoteFree(s) && '\0' !in s
  }

  predicate GoodKey(k: string) {
    IsWord(k) && Plain(k) && !IsOption(k)
  }

  /** Empty, or words with one space between them, none of which would be taken for an option. */
  predicate Spoken(v: string) {
    SingleSpaced(v) && forall i :: 0 <= i < |Words(v)| ==> !IsOption(Words(v)[i])
  }

  predicate GoodValue(v: string) {
    Plain(v) && Spoken(v)
  }

  ghost predicate Good(keys: seq<string>, m: map<string, string>) {
    forall k :: k in keys ==> k in m && GoodKey(k) && GoodValue(m[k])
  }

  /** As good, but for keys that begin with a dash. */
  ghost predicate Fair(keys: seq<string>, m: map<string, string>) {
    forall k :: k in keys ==> k in m && IsWord(k) && Plain(k) && GoodValue(m[k])
  }

  /** No quotes and no zeros anywhere. */
  ghost predicate AllPlain(keys: seq<string>, m: map<string, string>) {
    forall k :: k in keys ==> k in m && Plain(k) && Plain(m[k])
  }

  /** The arguments that the printed text holds. */
  function Flat(keys: seq<string>, m: map<string, string>): seq<string>
    requires forall k :: k in keys ==> k in m
  {
    if keys == [] then []
    else
      var k := keys[|keys| - 1];
      Flat(keys[..|keys| - 1], m) + ["-" + k] + Words(m[k])
  }

  lemma {:induction false} PlainPieces(a: string, b: string)
    ensures Plain(a + b) <==> Plain(a) && Plain(b)
  {
    assert forall i :: 0 <= i < |a| ==> (a + b)[i] == a[i];
    assert forall i :: 0 <= i < |b| ==> (a + b)[|a| + i] == b[i];
  }

  lemma {:induction false} PlainWords(s: string)
    requires Plain(s)
    ensures forall i :: 0 <= i < |Words(s)| ==> Plain(Words(s)[i])
    decreases |s|
  {
    if s != "" {
      if s[0] == ' ' {
        PlainWords(s[1..]);
      } else {
        PlainWords(s[Space(s)..]);
      }
    }
  }

  lemma {:induction false} TrimSpace(s: string)
    ensures Trimmed(s + " ") == s
  {
  }

  /** One more entry, seen without the space that ends it. */
  lemma {:induction false} PrintedNext(keys: seq<string>, m: map<string, string>)
    requires keys != [] && forall k :: k in keys ==> k in m
    ensures var n := |keys| - 1;
            var entry := Entry(keys[n], m[keys[n]]);
            Trimmed(Printed(keys, m)) == if n == 0 then entry else Trimmed(Printed(keys[..n], m)) + " " + entry
  {
    hide Entry, Trimmed;
    var n := |keys| - 1;
    var before := Printed(keys[..n], m);
    TrimSpace(before + Entry(keys[n], m[keys[n]]));
    if n > 0 {
      var j := keys[..n][n - 1];
      TrimSpace(Printed(keys[..n][..n - 1], m) + Entry(j, m[j]));
    }
  }

  lemma {:induction false} WordsOfEntry(k: string, v: string)
    requires IsWord(k)
    ensures Words(Entry(k, v)) == ["-" + k] + Words(v)
  {
    hide Words;
    assert ' ' !in "-" + k;
    WordsOfWord("-" + k);
    WordsSplit("-" + k, v);
  }

  /** The printed text is cut into the arguments it was made of. */
  lemma {:induction false} WordsOfPrinted(keys: seq<string>, m: map<string, string>)
    requires Fair(keys, m)
    ensures Words(Trimmed(Printed(keys, m))) == Flat(keys, m)
    decreases |keys|
  {
    if keys != [] {
      var n := |keys| - 1;
      var k := keys[n];
      hide Words, Trimmed, Printed, Entry, IsWord, GoodValue;
      WordsOfPrinted(keys[..n], m);
      PrintedNext(keys, m);
      WordsOfEntry(k, m[k]);
      WordsSplit(Trimmed(Printed(keys[..n], m)), Entry(k, m[k]));
      Regrouped(Flat(keys[..n], m), ["-" + k], Words(m[k]));
      if n == 0 {
        assert Flat(keys[..n], m) == [];
      }
    }
  }

  lemma {:induction false} Regrouped(x: seq<string>, y: seq<string>, z: seq<string>)
    ensures (x + y) + z == x + (y + z)
    ensures x == [] ==> x + (y + z) == y + z
  {
  }

  lemma {:induction false} PlainPrinted(keys: seq<string>, m: map<string, string>)
    requires AllPlain(keys, m)
    ensures Plain(Trimmed(Printed(keys, m)))
    decreases |keys|
  {
    if keys != [] {
      var n := |keys| - 1;
      var k := keys[n];
      hide Trimmed, Printed, Plain;
      PlainPrinted(keys[..n], m);
      PrintedNext(keys, m);
      PlainMarks();
      PlainPieces("-", k);
      PlainPieces("-" + k, " ");
      PlainPieces("-" + k + " ", m[k]);
      PlainPieces(Trimmed(Printed(keys[..n], m)), " ");
      PlainPieces(Trimmed(Printed(keys[..n], m)) + " ", Entry(k, m[k]));
    }
  }

  lemma {:induction false} PlainMarks()
    ensures Plain("") && Plain("-") && Plain(" ")
  {
  }

  /** The sections those arguments form. */
  function Entries(keys: seq<string>, m: map<string, string>): seq<Option>
    requires forall k :: k in keys ==> k in m
  {
    if keys == [] then []
    else Entries(keys[..|keys| - 1], m) + [Section("-" + keys[|keys| - 1], Words(m[keys[|keys| - 1]]))]
  }

  lemma {:induction false} SectionsSnoc(args: seq<string>, x: string)
    ensures IsOption(x) ==> Sections(args + [x]) == Sections(args) + [Section(x, [])]
    ensures !IsOption(x) && Sections(args) != [] ==>
              var ss := Sections(args);
              var open := ss[|ss| - 1];
              Sections(args + [x]) == ss[..|ss| - 1] + [Section(open.option, open.values + [x])]
  {
    hide IsOption;
    assert (args + [x])[..|args|] == args;
  }

  lemma {:induction false} SectionsOfOption(args: seq<string>, option: string, values: seq<string>)
    requires IsOption(option) && forall i :: 0 <= i < |values| ==> !IsOption(values[i])
    ensures Sections(args + [option] + values) == Sections(args) + [Section(option, values)]
    decreases |values|
  {
    hide IsOption, Sections;
    if values == [] {
      SectionsSnoc(args, option);
      assert args + [option] + values == args + [option];
    } else {
      var n := |values| - 1;
      SectionsOfOption(args, option, values[..n]);
      SectionsSnoc(args + [option] + values[..n], values[n]);
      assert values[..n] + [values[n]] == values;
      Regrouped(args + [option], values[..n], [values[n]]);
    }
  }

  lemma {:induction false} SectionsOfFlat(keys: seq<string>, m: map<string, string>)
    requires Fair(keys, m)
    ensures Sections(Flat(keys, m)) == Entries(keys, m)
    decreases |keys|
  {
    hide Sections, Words;
    if keys == [] {
      NoSections();
    } else {
      var n := |keys| - 1;
      SectionsOfFlat(keys[..n], m);
      SectionsOfOption(Flat(keys[..n], m), "-" + keys[n], Words(m[keys[n]]));
    }
  }

  lemma {:induction false} NoSections()
    ensures Sections([]) == []
  {
  }

  lemma {:induction false} StringMapSnoc(ss: seq<Option>, s: Option)
    ensures StringMap(ss + [s]) ==
              if Recorded(s) then StringMap(ss)[KeyOf(s.option) := Join(s.values)] else StringMap(ss)
  {
    hide Join, KeyOf;
    assert (ss + [s])[..|ss|] == ss;
  }

  lemma {:induction false} MapOfEntries(keys: seq<string>, m: map<string, string>)
    requires Good(keys, m)
    ensures StringMap(Entries(keys, m)) == map k | k in keys :: m[k]
    decreases |keys|
  {
    hide Words, Join, StringMap;
    if keys == [] {
      NoEntries();
    } else {
      var n := |keys| - 1;
      var k := keys[n];
      MapOfEntries(keys[..n], m);
      JoinOfWords(m[k]);
      StringMapSnoc(Entries(keys[..n], m), Section("-" + k, Words(m[k])));
      assert KeyOf("-" + k) == k;
      assert keys == keys[..n] + [k];
    }
  }

  lemma {:induction false} NoEntries()
    ensures StringMap([]) == map[]
  {
  }

  lemma {:induction false} PlainArgv(line: string, stray: nat -> set<char>)
    requires Plain(line)
    ensures Split(line, stray) == Argv(line, stray) == Words(line)
  {
    hide Words, FirstOpen, Split;
    PlainWords(line);
    FirstIsOpen(line, QUOTES, 0);
    SplitUnquoted(line, stray);
    forall i | 0 <= i < |Words(line)|
      ensures CString(Words(line)[i]) == Words(line)[i]
    {
      CStringMeans(Words(line)[i], "");
    }
  }

  // ---- Nothing else survives ----------------------------------------------------------------------------------

  /** A section read from words. */
  ghost predicate OfWords(s: Option) {
    IsWord(s.option) && forall i :: 0 <= i < |s.values| ==> IsWord(s.values[i]) && !IsOption(s.values[i])
  }

  lemma {:induction false} SectionsOfWords(args: seq<string>)
    requires forall i :: 0 <= i < |args| ==> IsWord(args[i])
    ensures forall i :: 0 <= i < |Sections(args)| ==> OfWords(Sections(args)[i])
    decreases |args|
  {
    hide IsWord, IsOption;
    if args != [] {
      SectionsOfWords(args[..|args| - 1]);
    }
  }

  lemma {:induction false} ReadFromWords(s: Option)
    requires OfWords(s) && Recorded(s)
    ensures IsWord(KeyOf(s.option)) && Spoken(Join(s.values))
  {
    hide Words, Join;
    WordsOfJoin(s.values);
    JoinIsSingleSpaced(s.values);
  }

  lemma {:induction false} MapFromWords(ss: seq<Option>)
    requires forall i :: 0 <= i < |ss| ==> OfWords(ss[i])
    ensures forall k :: k in StringMap(ss) ==> IsWord(k) && Spoken(StringMap(ss)[k])
    decreases |ss|
  {
    hide Join, IsWord, KeyOf, Spoken, OfWords;
    if ss != [] {
      var n := |ss| - 1;
      MapFromWords(ss[..n]);
      if Recorded(ss[n]) {
        ReadFromWords(ss[n]);
      }
    }
  }

  /** Whatever the line, the map read from it has words for keys and spoken values. */
  lemma {:induction false} MapFromLine(program: string, text: string)
    requires IsWord(program)
    ensures Words(program + " " + text) == [program] + Words(text)
    ensures var m := StringMap(Sections(Words(text)));
            forall k :: k in m ==> IsWord(k) && Spoken(m[k])
  {
    hide *;
    WordsOfWord(program);
    WordsSplit(program, text);
    WordsAreWords(text);
    SectionsOfWords(Words(text));
    MapFromWords(Sections(Words(text)));
  }

  /** Every key read back was printed with one or no dash more. */
  lemma {:induction false} KeysOfEntries(keys: seq<string>, m: map<string, string>, d: string)
    requires Fair(keys, m) && d in StringMap(Entries(keys, m)) && IsOption(d)
    ensures "-" + d in keys
    decreases |keys|
  {
    hide Words, Join, StringMap, Fair;
    if keys == [] {
      NoEntries();
    } else {
      var n := |keys| - 1;
      var k := keys[n];
      FairBefore(keys, m);
      StringMapSnoc(Entries(keys[..n], m), Section("-" + k, Words(m[k])));
      if d in StringMap(Entries(keys[..n], m)) {
        KeysOfEntries(keys[..n], m, d);
      } else {
        assert d == KeyOf("-" + k);
        assert k[0] == '-';
        assert k == "-" + d;
      }
    }
  }

  lemma {:induction false} FairBefore(keys: seq<string>, m: map<string, string>)
    requires Fair(keys, m) && keys != []
    ensures Fair(keys[..|keys| - 1], m) && forall k :: k in keys ==> k in m
  {
  }

  lemma {:induction false} Longest(keys: seq<string>) returns (i: nat)
    requires exists k :: k in keys && IsOption(k)
    ensures i < |keys| && IsOption(keys[i])
    ensures forall j :: 0 <= j < |keys| && IsOption(keys[j]) ==> |keys[j]| <= |keys[i]|
  {
    var n := |keys| - 1;
    if exists k :: k in keys[..n] && IsOption(k) {
      i := Longest(keys[..n]);
      assert forall j :: 0 <= j < n ==> keys[..n][j] == keys[j];
      if IsOption(keys[n]) && |keys[n]| > |keys[i]| {
        i := n;
      }
    } else {
      i := n;
      assert forall j :: 0 <= j < n ==> keys[j] in keys[..n];
    }
  }

  /** If a key began with a dash, another with one dash more would have to be there, and so on. */
  lemma {:induction false} NoDashes(keys: seq<string>, m: map<string, string>)
    requires Visits(keys, m) && Fair(keys, m) && StringMap(Entries(keys, m)) == m
    ensures Good(keys, m)
  {
    hide StringMap, Entries, GoodValue, IsWord, Plain;
    if exists k :: k in keys && IsOption(k) {
      var i := Longest(keys);
      KeysOfEntries(keys, m, keys[i]);
      assert false;
    }
  }

  /**
   * Parsing a program's name followed by a printed map gives the name back; and the map, if it is free of quotes and
   * zeros, exactly when its keys are words without a dash in front and its values are single-spaced words that are
   * no options.
   */
  lemma {:induction false} RoundTrip(program: string, keys: seq<string>, m: map<string, string>,
                                     stray: nat -> set<char>)
    requires IsWord(program) && Plain(program) && Visits(keys, m) && AllPlain(keys, m)
    ensures var line := program + " " + Trimmed(Printed(keys, m));
            && (StringMap(Sections(Given(Argv(line, stray)))) == m <==> Good(keys, m))
            && Split(line, stray) != [] && CString(Split(line, stray)[0]) == program
  {
    hide Words, Sections, StringMap, Printed, Trimmed, CString, IsWord, Spoken, SingleSpaced, Split;
    var text := Trimmed(Printed(keys, m));
    var line := program + " " + text;
    MapFromLine(program, text);
    PlainPrinted(keys, m);
    PlainMarks();
    PlainPieces(program, " ");
    PlainPieces(program + " ", text);
    PlainArgv(line, stray);
    CStringMeans(program, "");
    assert Given([program] + Words(text)) == Words(text);
    if Good(keys, m) {
      WordsOfPrinted(keys, m);
      SectionsOfFlat(keys, m);
      MapOfEntries(keys, m);
      assert (map k | k in keys :: m[k]) == m;
    } else if StringMap(Sections(Words(text))) == m {
      assert Fair(keys, m) by {
        SpokenIsGood(keys, m);
      }
      WordsOfPrinted(keys, m);
      SectionsOfFlat(keys, m);
      NoDashes(keys, m);
      assert false;
    }
  }

  lemma {:induction false} SpokenIsGood(keys: seq<string>, m: map<string, string>)
    requires AllPlain(keys, m) && forall k :: k in m ==> IsWord(k) && Spoken(m[k])
    ensures Fair(keys, m)
  {
    hide Words, IsWord, SingleSpaced, Plain;
  }
}
