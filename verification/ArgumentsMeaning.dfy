/** What the sections, the keys and the rendered line of an argument vector are, seen from the arguments themselves. */
module ArgumentsMeaning {
  import opened Splitting
  import opened Arguments

  /** The key is what follows one dash or two. */
  lemma {:induction false} KeyOfNames(k: string)
    ensures KeyOf("--" + k) == k
    ensures k == "" || k[0] != '-' ==> KeyOf("-" + k) == k
  {
  }

  /** A section is recorded unless its option is a bare dash or two. */
  lemma {:induction false} RecordedMeans(s: Option)
    ensures Recorded(s) <==> s.option != "-" && s.option != "--"
  {
    if !Recorded(s) {
      if |s.option| > 1 {
        assert s.option == ['-', '-'];
      } else {
        assert s.option == ['-'];
      }
    }
  }

  /** The arguments of some sections, one after the other. */
  function Flattened(ss: seq<Option>): seq<string> {
    if ss == [] then [] else [ss[0].option] + ss[0].values + Flattened(ss[1..])
  }

  lemma {:induction false} FlattenedAppend(x: seq<Option>, y: seq<Option>)
    ensures Flattened(x + y) == Flattened(x) + Flattened(y)
  {
    if x == [] {
      assert x + y == y;
    } else {
      FlattenedAppend(x[1..], y);
      assert (x + y)[0] == x[0] && (x + y)[1..] == x[1..] + y;
      Regrouped([x[0].option] + x[0].values, Flattened(x[1..]), Flattened(y));
    }
  }

  lemma {:induction false} Regrouped(x: seq<string>, y: seq<string>, z: seq<string>)
    ensures (x + y) + z == x + (y + z)
  {
  }

  lemma {:induction false} FlattenedOne(s: Option)
    ensures Flattened([s]) == [s.option] + s.values
  {
    assert [s][1..] == [];
  }

  predicate Dashed(x: string) {
    x != "" && x[0] == '-'
  }

  /** Sections begin at dashed arguments and hold the others. */
  predicate Divided(ss: seq<Option>) {
    forall i :: 0 <= i < |ss| ==>
      Dashed(ss[i].option) && forall j :: 0 <= j < |ss[i].values| ==> !Dashed(ss[i].values[j])
  }

  /**
   * Sections lose nothing but the arguments before the first dashed one, and keep the order: flattened, they are the
   * arguments from there on.
   */
  lemma {:induction false} SectionsMean(args: seq<string>) returns (n: nat)
    ensures n <= |args| && (forall i :: 0 <= i < n ==> !Dashed(args[i])) && (n < |args| ==> Dashed(args[n]))
    ensures Divided(Sections(args)) && Flattened(Sections(args)) == args[n..]
    decreases |args|
  {
    hide Flattened, Dashed, Sections;
    if args == [] {
      n := 0;
      FlattenedNothing();
    } else {
      var before, last := args[..|args| - 1], args[|args| - 1];
      n := SectionsMean(before);
      assert args == before + [last];
      LastArgument(args, n);
      if n == |before| && !Dashed(last) {
        n := n + 1;
      }
    }
  }

  lemma {:induction false} FlattenedNothing()
    ensures Sections([]) == [] && Flattened([]) == []
  {
  }

  lemma {:induction false} OptionIsDashed(x: string)
    ensures IsOption(x) <==> Dashed(x)
  {
  }

  lemma {:induction false} SectionsLast(args: seq<string>)
    requires args != []
    ensures var before, last := Sections(args[..|args| - 1]), args[|args| - 1];
            Sections(args) ==
            if IsOption(last) then before + [Section(last, [])]
            else if before == [] then []
            else before[..|before| - 1] + [Section(before[|before| - 1].option, before[|before| - 1].values + [last])]
  {
  }

  lemma {:induction false} LastArgument(args: seq<string>, n: nat)
    requires args != [] && n < |args|
    requires var before := args[..|args| - 1];
             Divided(Sections(before)) && Flattened(Sections(before)) == before[n..]
             && (n < |before| ==> Dashed(before[n]))
    ensures var last := args[|args| - 1];
            && Divided(Sections(args))
            && Flattened(Sections(args)) == args[if n == |args| - 1 && !Dashed(last) then n + 1 else n..]
  {
    hide Flattened, Dashed, Sections, IsOption;
    var before, last := args[..|args| - 1], args[|args| - 1];
    var ss := Sections(before);
    SectionsLast(args);
    OptionIsDashed(last);
    FlattenedNothing();
    if IsOption(last) {
      FlattenedAppend(ss, [Section(last, [])]);
      FlattenedOne(Section(last, []));
      assert args[n..] == before[n..] + [last];
    } else if ss == [] {
      assert before[n..] == [];
      assert args[n + 1..] == [];
    } else {
      var k := |ss| - 1;
      var open := ss[k];
      var more := Section(open.option, open.values + [last]);
      FlattenedMore(ss[..k], open, last);
      assert ss == ss[..k] + [open];
      FlattenedIsLonger(ss);
      assert args[n..] == before[n..] + [last];
      DividedMore(ss, last);
    }
  }

  lemma {:induction false} FlattenedMore(ss: seq<Option>, open: Option, x: string)
    ensures Flattened(ss + [Section(open.option, open.values + [x])]) == Flattened(ss + [open]) + [x]
  {
    hide Flattened;
    var more := Section(open.option, open.values + [x]);
    FlattenedAppend(ss, [open]);
    FlattenedAppend(ss, [more]);
    FlattenedOne(open);
    FlattenedOne(more);
    Regrouped([open.option], open.values, [x]);
    Regrouped(Flattened(ss), [open.option] + open.values, [x]);
  }

  lemma {:induction false} DividedMore(ss: seq<Option>, x: string)
    requires ss != [] && Divided(ss) && !Dashed(x)
    ensures var k := |ss| - 1;
            Divided(ss[..k] + [Section(ss[k].option, ss[k].values + [x])])
  {
    hide Dashed;
  }

  lemma {:induction false} FlattenedIsLonger(ss: seq<Option>)
    requires ss != []
    ensures Flattened(ss) != []
  {
  }

  /** The sections that are recorded, in order. */
  function Kept(ss: seq<Option>): seq<Option> {
    if ss == [] then []
    else Kept(ss[..|ss| - 1]) + if ss[|ss| - 1].option == "-" || ss[|ss| - 1].option == "--" then [] else [ss[|ss| - 1]]
  }

  lemma {:induction false} JoinAppend(x: seq<string>, y: seq<string>)
    requires x != [] && y != []
    ensures Join(x + y) == Join(x) + " " + Join(y)
  {
    if |x| == 1 {
      assert (x + y)[1..] == y;
    } else {
      JoinAppend(x[1..], y);
      assert (x + y)[1..] == x[1..] + y;
    }
  }

  function Spaced(xs: seq<string>): string {
    if xs == [] then "" else " " + Join(xs)
  }

  lemma {:induction false} SpacedAppend(x: seq<string>, y: seq<string>)
    ensures Spaced(x + y) == Spaced(x) + Spaced(y)
  {
    hide Join;
    if x == [] {
      assert x + y == y;
    } else if y == [] {
      assert x + y == x;
    } else {
      JoinAppend(x, y);
      Spacing(Join(x), Join(y));
    }
  }

  lemma {:induction false} Spacing(a: string, b: string)
    ensures " " + (a + " " + b) == (" " + a) + (" " + b)
  {
  }

  lemma {:induction false} SpacedSection(s: Option)
    ensures Spaced([s.option] + s.values) == " " + s.option + if s.values == [] then "" else " " + Join(s.values)
  {
    hide Join;
    SpacedAppend([s.option], s.values);
    JoinOne(s.option);
  }

  lemma {:induction false} JoinOne(x: string)
    ensures Join([x]) == x
  {
  }

  /** The line that init keeps is the recorded sections' arguments, each after a space. */
  lemma {:induction false} RenderedMeans(ss: seq<Option>)
    ensures Rendered(ss) == Spaced(Flattened(Kept(ss)))
    decreases |ss|
  {
    hide Spaced, Flattened, Join, Recorded;
    if ss == [] {
      FlattenedNothing();
      SpacedNothing();
    } else {
      var n := |ss| - 1;
      RenderedMeans(ss[..n]);
      RecordedMeans(ss[n]);
      FlattenedAppend(Kept(ss[..n]), [ss[n]]);
      FlattenedOne(ss[n]);
      SpacedSection(ss[n]);
      SpacedAppend(Flattened(Kept(ss[..n])), [ss[n].option] + ss[n].values);
      var line := Rendered(ss[..n]);
      assert line + "" == line && Kept(ss[..n]) + [] == Kept(ss[..n]);
      assert Kept(ss) == if Recorded(ss[n]) then Kept(ss[..n]) + [ss[n]] else Kept(ss[..n]);
    }
  }

  lemma {:induction false} SpacedNothing()
    ensures Spaced([]) == ""
  {
  }

  /** The key list has one key for each recorded section, in the order of the sections. */
  lemma {:induction false} KeyListMeans(ss: seq<Option>)
    ensures |KeyList(ss)| == |Kept(ss)|
    ensures forall i :: 0 <= i < |Kept(ss)| ==> KeyList(ss)[i] == KeyOf(Kept(ss)[i].option)
    decreases |ss|
  {
    hide Recorded, KeyOf;
    if ss != [] {
      var n := |ss| - 1;
      KeyListMeans(ss[..n]);
      RecordedMeans(ss[n]);
    }
  }

  /** The vector map holds exactly the keys of recorded sections, each with the values of its last one. */
  lemma {:induction false} LastVectorWins(ss: seq<Option>, k: string)
    ensures k in VectorMap(ss) <==> k in KeyList(ss)
    ensures k in VectorMap(ss) ==>
              exists i ::
                && 0 <= i < |ss| && Last(ss, i) && KeyOf(ss[i].option) == k && VectorMap(ss)[k] == ss[i].values
    decreases |ss|
  {
    hide KeyOf;
    if ss != [] {
      var n := |ss| - 1;
      LastVectorWins(ss[..n], k);
      if Recorded(ss[n]) && KeyOf(ss[n].option) == k {
        assert Last(ss, n);
      } else if k in VectorMap(ss) {
        var i :| 0 <= i < n && Last(ss[..n], i) && KeyOf(ss[..n][i].option) == k &&
                 VectorMap(ss[..n])[k] == ss[..n][i].values;
        assert Last(ss, i);
      }
    }
  }
}
