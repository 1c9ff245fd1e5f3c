/** collectAllConfigs, toLines and walkItems, and the paths they give to value fields. */
module Configuration {
  import opened ConfigTree

  /** What is emitted for a value field: the path of its item, its key and its text. */
  datatype Entry = Entry(path: string, key: string, value: string)

  /** std::to_string of an array index. */
  function Decimal(n: nat): (s: string)
    ensures s != ""
  {
    if n < 10 then [Digit(n)] else Decimal(n / 10) + [Digit(n % 10)]
  }

  function Digit(d: nat): char
    requires d < 10
  {
    ('0' as int + d) as char
  }

  /** A number read from the left in base ten. */
  function ReadTen(s: string): int {
    if s == "" then 0 else 10 * ReadTen(s[..|s| - 1]) + (s[|s| - 1] as int - '0' as int)
  }

  lemma {:induction false} DigitIs(d: nat)
    requires d < 10
    ensures Digit(d) as int - '0' as int == d && '0' <= Digit(d) <= '9'
  {
  }

  /** An index is written in decimal digits that read back as the index, without leading zeros. */
  lemma {:induction false} DecimalReadsBack(n: nat)
    ensures ReadTen(Decimal(n)) == n
    ensures forall i :: 0 <= i < |Decimal(n)| ==> '0' <= Decimal(n)[i] <= '9'
    ensures |Decimal(n)| > 1 ==> Decimal(n)[0] != '0'
    ensures n > 0 ==> Decimal(n)[0] != '0'
  {
    hide Digit;
    var s := Decimal(n);
    DigitIs(n % 10);
    assert s[..|s| - 1] == if n < 10 then "" else Decimal(n / 10);
    if n >= 10 {
      DecimalReadsBack(n / 10);
    } else {
      assert ReadTen("") == 0;
      DigitIs(n);
    }
  }

  function Extended(prefix: string, key: string): string {
    if prefix == "" then key else prefix + "." + key
  }

  /** The path of the i-th item held by a field of the item at `prefix`. */
  function ChildPath(prefix: string, f: Field, i: nat): string {
    if f.Array? then Extended(prefix, f.key) + "[" + Decimal(i) + "]" else Extended(prefix, f.key)
  }

  /** The entry of a value field, from its address. */
  function EntryAt(t: Item, a: Address, prefix: string): Entry
    requires IsLeaf(t, a)
    decreases a
  {
    var f := t.fields[a.field];
    match f
    case Leaf(key, value) => Entry(prefix, key, value)
    case _ => EntryAt(Entered(t, a.field, a.index), a.rest, ChildPath(prefix, f, a.index))
  }

  function FullPath(e: Entry): string {
    Extended(e.path, e.key)
  }

  /** Of what a path is made: keys, dots between them, and indices in brackets. */
  lemma {:induction false} PathStep(t: Item, a: Address, prefix: string)
    requires IsLeaf(t, a)
    ensures var f := t.fields[a.field];
            var path := if prefix == "" then f.key else prefix + "." + f.key;
            match f
            case Leaf(key, value) =>
              EntryAt(t, a, prefix) == Entry(prefix, key, value) && FullPath(EntryAt(t, a, prefix)) == path
            case Object(key, child) => EntryAt(t, a, prefix) == EntryAt(child, a.rest, path)
            case Array(key, items) =>
              a.index < |items| &&
              EntryAt(t, a, prefix) == EntryAt(items[a.index], a.rest, path + "[" + Decimal(a.index) + "]")
  {
    hide Decimal;
  }

  // ---- The traversals ---------------------------------------------------------------------------------------

  /** The entries of some value fields, one for each. */
  ghost predicate Describes(out: seq<Entry>, t: Item, list: seq<Address>, prefix: string) {
    && |out| == |list|
    && forall i :: 0 <= i < |list| ==> IsLeaf(t, list[i]) && out[i] == EntryAt(t, list[i], prefix)
  }

  /** Entries found below one child, seen from the item that holds it. */
  lemma {:induction false} DescribesUnder(out: seq<Entry>, t: Item, k: nat, i: nat, list: seq<Address>, prefix: string)
    requires Enters(t, k, i)
    requires Describes(out, Entered(t, k, i), list, ChildPath(prefix, t.fields[k], i))
    ensures Describes(out, t, Under(k, i, list), prefix)
  {
    hide ChildPath;
    forall n | 0 <= n < |list|
      ensures IsLeaf(t, Under(k, i, list)[n]) && out[n] == EntryAt(t, Under(k, i, list)[n], prefix)
    {
    }
  }

  lemma {:induction false} DescribesJoin(o: seq<Entry>, p: seq<Entry>, t: Item, x: seq<Address>, y: seq<Address>,
                                         prefix: string)
    requires Describes(o, t, x, prefix) && Describes(p, t, y, prefix)
    ensures Describes(o + p, t, x + y, prefix)
  {
    hide IsLeaf, EntryAt;
  }

  lemma {:induction false} DescribesValue(t: Item, k: nat, prefix: string)
    requires k < |t.fields| && t.fields[k].Leaf?
    ensures Describes([Entry(prefix, t.fields[k].key, t.fields[k].value)], t, [Into(k, 0, Here)], prefix)
  {
  }

  lemma {:induction false} DescribesNothing(t: Item, prefix: string)
    ensures Describes([], t, [], prefix)
  {
  }

  /** Appends exactly one entry for each value field, in the order of the addresses. */
  method CollectAllConfigs(root: Item, prefix: string, out: seq<Entry>) returns (r: seq<Entry>)
    ensures out <= r && Describes(r[|out|..], root, AllLeaves(root), prefix)
    decreases root, |root.fields| + 1
  {
    hide Describes, Leaves, LeavesOfChildren, Under;
    r := out;
    ghost var added := [];
    NothingYet(root);
    DescribesNothing(root, prefix);
    for k := 0 to |root.fields|
      invariant r == out + added && Describes(added, root, Leaves(root, k), prefix)
    {
      var f := root.fields[k];
      LeavesNext(root, k + 1);
      ghost var before := r;
      r := CollectField(root, k, prefix, r);
      ghost var more := r[|before|..];
      DescribesJoin(added, more, root, Leaves(root, k), FieldLeaves(root, k), prefix);
      added := added + more;
    }
    assert r[|out|..] == added;
  }

  ghost function FieldLeaves(t: Item, k: nat): seq<Address>
    requires k < |t.fields|
  {
    if t.fields[k].Leaf? then [Into(k, 0, Here)] else LeavesOfChildren(t.fields[k], k, |Children(t.fields[k])|)
  }

  /** The callback on one field. */
  method CollectField(t: Item, k: nat, prefix: string, out: seq<Entry>) returns (r: seq<Entry>)
    requires k < |t.fields|
    ensures out <= r && Describes(r[|out|..], t, FieldLeaves(t, k), prefix)
    decreases t, k
  {
    hide Describes, LeavesOfChildren, Leaves, Under;
    r := out;
    ghost var more := [];
    var f := t.fields[k];
    var path := if prefix == "" then f.key else prefix + "." + f.key;
    NoChildYet(f, k);
    DescribesNothing(t, prefix);
    if f.Object? {
      LeavesChild(f, k, 1);
      r := CollectAllConfigs(f.child, path, r);
      more := r[|out|..];
      DescribesUnder(more, t, k, 0, AllLeaves(f.child), prefix);
      DescribesJoin([], more, t, [], Under(k, 0, AllLeaves(f.child)), prefix);
      assert [] + more == more && |Children(f)| == 1;
    } else if f.Array? {
      for i := 0 to |f.items|
        invariant r == out + more && Describes(more, t, LeavesOfChildren(f, k, i), prefix)
      {
        LeavesChild(f, k, i + 1);
        ghost var before := r;
        r := CollectAllConfigs(f.items[i], path + "[" + Decimal(i) + "]", r);
        ghost var found := r[|before|..];
        DescribesUnder(found, t, k, i, AllLeaves(f.items[i]), prefix);
        DescribesJoin(more, found, t, LeavesOfChildren(f, k, i), Under(k, i, AllLeaves(f.items[i])), prefix);
        more := more + found;
      }
    } else {
      DescribesValue(t, k, prefix);
      more := [Entry(prefix, f.key, f.value)];
      r := r + [Entry(prefix, f.key, f.value)];
    }
    assert r[|out|..] == more;
  }

  /** One line for each value field: its full path and its text. */
  method ToLines(root: Item) returns (lines: seq<string>)
    ensures |lines| == |AllLeaves(root)|
    ensures forall i :: 0 <= i < |lines| ==>
              && IsLeaf(root, AllLeaves(root)[i])
              && lines[i] == FullPath(EntryAt(root, AllLeaves(root)[i], "")) + " = " +
                             EntryAt(root, AllLeaves(root)[i], "").value
  {
    hide Leaves, EntryAt, IsLeaf;
    lines := [];
    var items := CollectAllConfigs(root, "", []);
    assert items[0..] == items;
    for i := 0 to |items|
      invariant |lines| == i
      invariant forall j :: 0 <= j < i ==> lines[j] == FullPath(items[j]) + " = " + items[j].value
    {
      var e := items[i];
      var s := (if e.path == "" then e.key else e.path + "." + e.key) + " = " + e.value;
      lines := lines + [s];
    }
  }

  /** The items at some addresses, in order. */
  ghost predicate Visits(log: seq<Item>, t: Item, list: seq<Address>) {
    |log| == |list| && forall i :: 0 <= i < |list| ==> IsItem(t, list[i]) && log[i] == At(t, list[i])
  }

  lemma {:induction false} VisitsUnder(log: seq<Item>, t: Item, k: nat, i: nat, list: seq<Address>)
    requires Enters(t, k, i) && Visits(log, Entered(t, k, i), list)
    ensures Visits(log, t, Under(k, i, list))
  {
  }

  lemma {:induction false} VisitsJoin(o: seq<Item>, p: seq<Item>, t: Item, x: seq<Address>, y: seq<Address>)
    requires Visits(o, t, x) && Visits(p, t, y)
    ensures Visits(o + p, t, x + y)
  {
    hide IsItem, At;
  }

  lemma {:induction false} VisitsHere(t: Item)
    ensures Visits([t], t, [Here]) && Visits([], t, [])
  {
  }

  /** The callback, here a log, sees every item in the order of the walk. */
  method WalkItems(root: Item, log: seq<Item>) returns (r: seq<Item>)
    ensures log <= r && Visits(r[|log|..], root, Walk(root))
    decreases root, |root.fields| + 1
  {
    hide Visits, WalkFields, WalkChildren, Under;
    r := log + [root];
    ghost var added := [];
    NothingYet(root);
    VisitsHere(root);
    for k := 0 to |root.fields|
      invariant r == log + [root] + added && Visits(added, root, WalkFields(root, k))
    {
      WalkNext(root, k + 1);
      ghost var before := r;
      r := WalkField(root, k, r);
      ghost var more := r[|before|..];
      VisitsJoin(added, more, root, WalkFields(root, k), WalkChildren(root.fields[k], k, |Children(root.fields[k])|));
      added := added + more;
    }
    VisitsJoin([root], added, root, [Here], WalkFields(root, |root.fields|));
    assert r[|log|..] == [root] + added;
  }

  method WalkField(t: Item, k: nat, log: seq<Item>) returns (r: seq<Item>)
    requires k < |t.fields|
    ensures log <= r && Visits(r[|log|..], t, WalkChildren(t.fields[k], k, |Children(t.fields[k])|))
    decreases t, k
  {
    hide Visits, WalkChildren, Walk, Under;
    r := log;
    ghost var more := [];
    var f := t.fields[k];
    NoChildYet(f, k);
    VisitsHere(t);
    if f.Object? {
      WalkChild(f, k, 1);
      r := WalkItems(f.child, r);
      more := r[|log|..];
      VisitsUnder(more, t, k, 0, Walk(f.child));
      VisitsJoin([], more, t, [], Under(k, 0, Walk(f.child)));
      assert [] + more == more && |Children(f)| == 1;
    } else if f.Array? {
      for i := 0 to |f.items|
        invariant r == log + more && Visits(more, t, WalkChildren(f, k, i))
      {
        WalkChild(f, k, i + 1);
        ghost var before := r;
        r := WalkItems(f.items[i], r);
        ghost var found := r[|before|..];
        VisitsUnder(found, t, k, i, Walk(f.items[i]));
        VisitsJoin(more, found, t, WalkChildren(f, k, i), Under(k, i, Walk(f.items[i])));
        more := more + found;
      }
    }
    assert r[|log|..] == more;
  }

  // ---- Paths tell value fields apart ------------------------------------------------------------------------

  predicate GoodKey(k: string) {
    k != "" && '.' !in k && '[' !in k && ']' !in k
  }

  /** Keys are plain and differ between the fields of one item, at every depth. */
  ghost predicate WellNamed(t: Item)
    decreases t
  {
    && (forall k :: 0 <= k < |t.fields| ==> GoodKey(t.fields[k].key))
    && (forall j, k :: 0 <= j < k < |t.fields| ==> t.fields[j].key != t.fields[k].key)
    && forall k :: 0 <= k < |t.fields| ==>
                     match t.fields[k]
                     case Leaf(_, _) => true
                     case Object(_, child) => WellNamed(child)
                     case Array(_, items) => forall i :: 0 <= i < |items| ==> WellNamed(items[i])
  }

  /** A field's part of a path. */
  function Segment(f: Field, i: nat): string {
    if f.Array? then f.key + "[" + Decimal(i) + "]" else f.key
  }

  /** The path from an item to a value field inside it. */
  function RelativePath(t: Item, a: Address): string
    requires IsLeaf(t, a)
    decreases a
  {
    var f := t.fields[a.field];
    if f.Leaf? then f.key
    else Segment(f, a.index) + "." + RelativePath(Entered(t, a.field, a.index), a.rest)
  }

  lemma {:induction false} WellNamedHere(t: Item, j: nat, k: nat)
    requires WellNamed(t) && j < |t.fields| && k < |t.fields|
    ensures GoodKey(t.fields[j].key) && GoodKey(t.fields[k].key)
    ensures t.fields[j].key == t.fields[k].key ==> j == k
  {
    hide GoodKey;
    assert j < k ==> t.fields[j].key != t.fields[k].key;
    assert k < j ==> t.fields[k].key != t.fields[j].key;
  }

  lemma {:induction false} WellNamedBelow(t: Item, k: nat, i: nat)
    requires WellNamed(t) && Enters(t, k, i)
    ensures WellNamed(Entered(t, k, i))
  {
    hide GoodKey;
  }

  lemma {:induction false} DigitIsPlain(d: nat)
    requires d < 10
    ensures Digit(d) != '.' && Digit(d) != '[' && Digit(d) != ']'
    ensures forall e: nat :: e < 10 && Digit(e) == Digit(d) ==> e == d
  {
  }

  lemma {:induction false} DecimalIsPlain(n: nat)
    ensures '.' !in Decimal(n) && '[' !in Decimal(n) && ']' !in Decimal(n)
  {
    hide Digit;
    DigitIsPlain(n % 10);
    if n >= 10 {
      DecimalIsPlain(n / 10);
    }
  }

  /** Distinct numbers are written differently. */
  lemma {:induction false} DecimalIsInjective(m: nat, n: nat)
    requires Decimal(m) == Decimal(n)
    ensures m == n
    decreases m
  {
    hide Digit;
    var s, t := Decimal(m), Decimal(n);
    DigitIsPlain(m % 10);
    assert s[|s| - 1] == Digit(m % 10) && t[|t| - 1] == Digit(n % 10);
    assert (m >= 10 ==> |s| > 1) && (n >= 10 ==> |t| > 1);
    if m >= 10 {
      assert s[..|s| - 1] == Decimal(m / 10) && t[..|t| - 1] == Decimal(n / 10);
      DecimalIsInjective(m / 10, n / 10);
    }
  }

  function First(s: string, c: char): nat {
    if s == "" || s[0] == c then 0 else 1 + First(s[1..], c)
  }

  lemma {:induction false} FirstIs(x: string, c: char, u: string)
    requires c !in x
    ensures First(x + [c] + u, c) == |x|
  {
    if x != "" {
      assert (x + [c] + u)[1..] == x[1..] + [c] + u;
      FirstIs(x[1..], c, u);
    }
  }

  /** Text up to the first occurrence of a character is determined. */
  lemma {:induction false} CutOnce(x: string, y: string, c: char, u: string, v: string)
    requires c !in x && c !in y && x + [c] + u == y + [c] + v
    ensures x == y && u == v
  {
    var s, t := x + [c] + u, y + [c] + v;
    FirstIs(x, c, u);
    FirstIs(y, c, v);
    assert s[..|x|] == x && t[..|y|] == y;
    assert s[|x| + 1..] == u && t[|y| + 1..] == v;
  }

  lemma {:induction false} SegmentIsPlain(f: Field, i: nat)
    requires GoodKey(f.key)
    ensures '.' !in Segment(f, i) && Segment(f, i) != ""
    ensures '[' in Segment(f, i) <==> f.Array?
  {
    hide Decimal;
    DecimalIsPlain(i);
    assert f.Array? ==> Segment(f, i)[|f.key|] == '[';
  }

  /** A segment tells which field of its item it names, and which of that field's items. */
  lemma {:induction false} SegmentsDiffer(t: Item, a: Address, b: Address)
    requires WellNamed(t) && a.Into? && b.Into? && Enters(t, a.field, a.index) && Enters(t, b.field, b.index)
    requires Segment(t.fields[a.field], a.index) == Segment(t.fields[b.field], b.index)
    ensures a.field == b.field && a.index == b.index
  {
    hide Decimal, WellNamed;
    var f, g := t.fields[a.field], t.fields[b.field];
    WellNamedHere(t, a.field, b.field);
    DecimalIsPlain(a.index);
    DecimalIsPlain(b.index);
    SegmentIsPlain(f, a.index);
    SegmentIsPlain(g, b.index);
    if f.Array? && g.Array? {
      var u, v := Decimal(a.index) + "]", Decimal(b.index) + "]";
      assert Segment(f, a.index) == f.key + ['['] + u && Segment(g, b.index) == g.key + ['['] + v;
      CutOnce(f.key, g.key, '[', u, v);
      CutOnce(Decimal(a.index), Decimal(b.index), ']', "", "");
      DecimalIsInjective(a.index, b.index);
    }
  }

  /** Value fields with the same path are the same. */
  lemma {:induction false} PathsTellApart(t: Item, a: Address, b: Address)
    requires WellNamed(t) && IsLeaf(t, a) && IsLeaf(t, b) && RelativePath(t, a) == RelativePath(t, b)
    ensures a == b
    decreases a
  {
    hide Segment, WellNamed;
    var f, g := t.fields[a.field], t.fields[b.field];
    WellNamedHere(t, a.field, b.field);
    if f.Leaf? {
      PathOfNested(t, b);
    } else if g.Leaf? {
      PathOfNested(t, a);
    } else {
      var c, d := Entered(t, a.field, a.index), Entered(t, b.field, b.index);
      SegmentIsPlain(f, a.index);
      SegmentIsPlain(g, b.index);
      CutOnce(Segment(f, a.index), Segment(g, b.index), '.', RelativePath(c, a.rest), RelativePath(d, b.rest));
      SegmentsDiffer(t, a, b);
      WellNamedBelow(t, a.field, a.index);
      PathsTellApart(c, a.rest, b.rest);
    }
  }

  lemma {:induction false} PathOfNested(t: Item, a: Address)
    requires IsLeaf(t, a)
    ensures !t.fields[a.field].Leaf? ==> '.' in RelativePath(t, a)
  {
    hide Segment;
    var f := t.fields[a.field];
    if !f.Leaf? {
      assert RelativePath(t, a)[|Segment(f, a.index)|] == '.';
    }
  }

  /** The full path is the prefix, a dot if there is a prefix, and the path from the item. */
  lemma {:induction false} FullPathIsRelative(t: Item, a: Address, prefix: string)
    requires WellNamed(t) && IsLeaf(t, a)
    ensures FullPath(EntryAt(t, a, prefix)) == (if prefix == "" then "" else prefix + ".") + RelativePath(t, a)
    decreases a
  {
    hide WellNamed, Decimal;
    var f := t.fields[a.field];
    WellNamedHere(t, a.field, a.field);
    if !f.Leaf? {
      WellNamedBelow(t, a.field, a.index);
      FullPathIsRelative(Entered(t, a.field, a.index), a.rest, ChildPath(prefix, f, a.index));
      var p := if prefix == "" then "" else prefix + ".";
      assert ChildPath(prefix, f, a.index) == p + Segment(f, a.index);
      var rest := RelativePath(Entered(t, a.field, a.index), a.rest);
      assert (p + Segment(f, a.index)) + "." + rest == p + (Segment(f, a.index) + "." + rest);
    }
  }

  /**
   * Flattening loses nothing: each value field has exactly one place in the emitted list, and no two entries share
   * their full path.
   */
  lemma {:induction false} FlatteningIsLossless(t: Item, out: seq<Entry>)
    requires WellNamed(t) && Describes(out, t, AllLeaves(t), "")
    ensures forall a :: IsLeaf(t, a) <==> a in AllLeaves(t)
    ensures forall i, j :: 0 <= i < j < |out| ==>
              AllLeaves(t)[i] != AllLeaves(t)[j] && FullPath(out[i]) != FullPath(out[j])
  {
    hide WellNamed, Leaves, EntryAt, IsLeaf, FullPath, RelativePath;
    var list := AllLeaves(t);
    forall a
      ensures IsLeaf(t, a) <==> a in list
    {
      LeavesAreComplete(t, |t.fields|, a);
      LeafStep(t, a);
    }
    LeavesAscend(t, |t.fields|);
    forall i, j | 0 <= i < j < |out|
      ensures list[i] != list[j] && FullPath(out[i]) != FullPath(out[j])
    {
      assert Precedes(list[i], list[j]);
      PrecedesBothWays(list[i], list[j]);
      FullPathIsRelative(t, list[i], "");
      FullPathIsRelative(t, list[j], "");
      if FullPath(out[i]) == FullPath(out[j]) {
        assert "" + RelativePath(t, list[i]) == RelativePath(t, list[i]);
        assert "" + RelativePath(t, list[j]) == RelativePath(t, list[j]);
        PathsTellApart(t, list[i], list[j]);
      }
    }
  }
}
