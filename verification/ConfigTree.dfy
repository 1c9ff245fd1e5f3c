/** Configuration items as trees, the addresses of their parts, and the order of the two traversals. */
module ConfigTree {

  /** A configuration item; its value fields are taken as already rendered text. */
  datatype Item = Item(fields: seq<Field>)

  datatype Field =
    | Leaf(key: string, value: string)
    | Object(key: string, child: Item)
    | Array(key: string, items: seq<Item>)

  /** A path from an item: into one of its fields, and there into one of the items that the field holds. */
  datatype Address = Here | Into(field: nat, index: nat, rest: Address)

  function Children(f: Field): seq<Item> {
    match f
    case Leaf(_, _) => []
    case Object(_, child) => [child]
    case Array(_, items) => items
  }

  predicate Enters(t: Item, k: nat, i: nat) {
    k < |t.fields| && i < |Children(t.fields[k])|
  }

  function Entered(t: Item, k: nat, i: nat): Item
    requires Enters(t, k, i)
  {
    Children(t.fields[k])[i]
  }

  predicate IsItem(t: Item, a: Address) {
    match a
    case Here => true
    case Into(k, i, rest) => Enters(t, k, i) && IsItem(Entered(t, k, i), rest)
  }

  function At(t: Item, a: Address): Item
    requires IsItem(t, a)
  {
    match a
    case Here => t
    case Into(k, i, rest) => At(Entered(t, k, i), rest)
  }

  /** The path to an item and on to the position of a value field in it. */
  predicate IsLeaf(t: Item, a: Address): (r: bool)
    ensures r ==> a.Into?
  {
    match a
    case Here => false
    case Into(k, i, rest) =>
      k < |t.fields| &&
      if t.fields[k].Leaf? then i == 0 && rest == Here else Enters(t, k, i) && IsLeaf(Entered(t, k, i), rest)
  }

  // ---- The order of addresses -------------------------------------------------------------------------------

  /** Field by field, and an item before everything inside it. */
  predicate Precedes(a: Address, b: Address) {
    && b.Into?
    && (a.Here? || a.field < b.field || (a.field == b.field && a.index < b.index) ||
        (a.field == b.field && a.index == b.index && Precedes(a.rest, b.rest)))
  }

  predicate Ascending(list: seq<Address>) {
    forall i, j :: 0 <= i < j < |list| ==> Precedes(list[i], list[j])
  }

  function Under(k: nat, i: nat, list: seq<Address>): (r: seq<Address>)
    ensures |r| == |list|
  {
    seq(|list|, n requires 0 <= n < |list| => Into(k, i, list[n]))
  }

  /** The addresses in the order walkItems visits the items. */
  function Walk(t: Item): seq<Address>
    decreases t, |t.fields| + 1
  {
    [Here] + WalkFields(t, |t.fields|)
  }

  function WalkFields(t: Item, n: nat): seq<Address>
    requires n <= |t.fields|
    decreases t, n
  {
    if n == 0 then []
    else WalkFields(t, n - 1) + WalkChildren(t.fields[n - 1], n - 1, |Children(t.fields[n - 1])|)
  }

  function WalkChildren(f: Field, k: nat, n: nat): seq<Address>
    requires n <= |Children(f)|
    decreases f, n
  {
    if n == 0 then []
    else
      WalkChildren(f, k, n - 1) +
      match f
      case Object(_, child) => Under(k, n - 1, Walk(child))
      case Array(_, items) => Under(k, n - 1, Walk(items[n - 1]))
  }

  /** The addresses of the value fields in the order collectAllConfigs emits them. */
  function Leaves(t: Item, n: nat): seq<Address>
    requires n <= |t.fields|
    decreases t, n
  {
    if n == 0 then []
    else
      Leaves(t, n - 1) +
      if t.fields[n - 1].Leaf? then [Into(n - 1, 0, Here)]
      else LeavesOfChildren(t.fields[n - 1], n - 1, |Children(t.fields[n - 1])|)
  }

  function LeavesOfChildren(f: Field, k: nat, n: nat): seq<Address>
    requires n <= |Children(f)|
    decreases f, n
  {
    if n == 0 then []
    else
      LeavesOfChildren(f, k, n - 1) +
      match f
      case Object(_, child) => Under(k, n - 1, Leaves(child, |child.fields|))
      case Array(_, items) => Under(k, n - 1, Leaves(items[n - 1], |items[n - 1].fields|))
  }

  function AllLeaves(t: Item): seq<Address> {
    Leaves(t, |t.fields|)
  }

  /** Where the children of a field are kept. */
  lemma {:induction false} ChildIs(f: Field, i: nat)
    requires i < |Children(f)|
    ensures f.Object? || (f.Array? && i < |f.items|)
    ensures Children(f)[i] == if f.Object? then f.child else f.items[i]
  {
  }

  // ---- One step of each traversal ---------------------------------------------------------------------------

  lemma {:induction false} WalkNext(t: Item, n: nat)
    requires 0 < n <= |t.fields|
    ensures WalkFields(t, n) ==
              WalkFields(t, n - 1) + WalkChildren(t.fields[n - 1], n - 1, |Children(t.fields[n - 1])|)
  {
  }

  lemma {:induction false} WalkChild(f: Field, k: nat, n: nat)
    requires 0 < n <= |Children(f)|
    ensures WalkChildren(f, k, n) == WalkChildren(f, k, n - 1) + Under(k, n - 1, Walk(Children(f)[n - 1]))
  {
    hide Walk, Under;
  }

  lemma {:induction false} LeavesNext(t: Item, n: nat)
    requires 0 < n <= |t.fields|
    ensures Leaves(t, n) == Leaves(t, n - 1) +
                            if t.fields[n - 1].Leaf? then [Into(n - 1, 0, Here)]
                            else LeavesOfChildren(t.fields[n - 1], n - 1, |Children(t.fields[n - 1])|)
  {
  }

  lemma {:induction false} LeavesChild(f: Field, k: nat, n: nat)
    requires 0 < n <= |Children(f)|
    ensures LeavesOfChildren(f, k, n) ==
              LeavesOfChildren(f, k, n - 1) + Under(k, n - 1, Leaves(Children(f)[n - 1], |Children(f)[n - 1].fields|))
  {
    hide Under;
  }

  // ---- Both traversals ascend -------------------------------------------------------------------------------

  lemma {:induction false} AscendingUnder(k: nat, i: nat, list: seq<Address>)
    requires Ascending(list)
    ensures Ascending(Under(k, i, list))
  {
  }

  predicate Has(list: seq<Address>, a: Address) {
    a in list
  }

  /** Every address in the list goes into field k, below child n. */
  predicate Starts(list: seq<Address>, k: nat, n: nat) {
    forall i :: 0 <= i < |list| ==> list[i].Into? && list[i].field == k && list[i].index < n
  }

  predicate StartsBefore(list: seq<Address>, k: nat) {
    forall i :: 0 <= i < |list| ==> list[i].Into? && list[i].field < k
  }

  lemma {:induction false} AscendingJoin(x: seq<Address>, y: seq<Address>)
    requires Ascending(x) && Ascending(y)
    requires forall i, j :: 0 <= i < |x| && 0 <= j < |y| ==> Precedes(x[i], y[j])
    ensures Ascending(x + y)
  {
    hide Precedes;
  }

  /** The addresses under one field after those under the fields before it. */
  lemma {:induction false} FieldsJoin(x: seq<Address>, y: seq<Address>, k: nat, n: nat)
    requires Ascending(x) && StartsBefore(x, k) && Ascending(y) && Starts(y, k, n)
    ensures Ascending(x + y) && StartsBefore(x + y, k + 1)
  {
    hide Ascending;
    AscendingJoin(x, y);
  }

  /** The addresses under one child after those under the children before it. */
  lemma {:induction false} ChildrenJoin(x: seq<Address>, k: nat, n: nat, list: seq<Address>)
    requires Ascending(x) && Starts(x, k, n) && Ascending(list)
    ensures Ascending(x + Under(k, n, list)) && Starts(x + Under(k, n, list), k, n + 1)
  {
    hide Ascending;
    AscendingUnder(k, n, list);
    AscendingJoin(x, Under(k, n, list));
  }

  lemma {:induction false} NothingYet(t: Item)
    ensures WalkFields(t, 0) == [] && Leaves(t, 0) == []
    ensures Ascending([]) && StartsBefore([], 0) && forall a :: !Has([], a)
  {
  }

  lemma {:induction false} NoChildYet(f: Field, k: nat)
    ensures WalkChildren(f, k, 0) == [] && LeavesOfChildren(f, k, 0) == []
    ensures Ascending([]) && Starts([], k, 0) && forall a :: !Has([], a)
  {
  }

  lemma {:induction false} WalkAscends(t: Item)
    ensures Ascending(Walk(t))
    decreases t, |t.fields| + 1
  {
    WalkFieldsAscend(t, |t.fields|);
    AscendingJoin([Here], WalkFields(t, |t.fields|));
  }

  lemma {:induction false} WalkFieldsAscend(t: Item, n: nat)
    requires n <= |t.fields|
    ensures Ascending(WalkFields(t, n)) && StartsBefore(WalkFields(t, n), n)
    decreases t, n
  {
    hide *;
    if n > 0 {
      var f := t.fields[n - 1];
      WalkNext(t, n);
      WalkFieldsAscend(t, n - 1);
      WalkChildrenAscend(f, n - 1, |Children(f)|);
      FieldsJoin(WalkFields(t, n - 1), WalkChildren(f, n - 1, |Children(f)|), n - 1, |Children(f)|);
    } else {
      NothingYet(t);
    }
  }

  lemma {:induction false} WalkChildrenAscend(f: Field, k: nat, n: nat)
    requires n <= |Children(f)|
    ensures Ascending(WalkChildren(f, k, n)) && Starts(WalkChildren(f, k, n), k, n)
    decreases f, n
  {
    hide *;
    if n > 0 {
      ChildIs(f, n - 1);
      var c := if f.Object? then f.child else f.items[n - 1];
      WalkChild(f, k, n);
      WalkChildrenAscend(f, k, n - 1);
      WalkAscends(c);
      ChildrenJoin(WalkChildren(f, k, n - 1), k, n - 1, Walk(c));
    } else {
      NoChildYet(f, k);
    }
  }

  lemma {:induction false} LeavesAscend(t: Item, n: nat)
    requires n <= |t.fields|
    ensures Ascending(Leaves(t, n)) && StartsBefore(Leaves(t, n), n)
    decreases t, n
  {
    hide *;
    if n > 0 {
      var f := t.fields[n - 1];
      LeavesNext(t, n);
      LeavesAscend(t, n - 1);
      if f.Leaf? {
        OneAscends(n - 1);
        FieldsJoin(Leaves(t, n - 1), [Into(n - 1, 0, Here)], n - 1, 1);
      } else {
        LeavesOfChildrenAscend(f, n - 1, |Children(f)|);
        FieldsJoin(Leaves(t, n - 1), LeavesOfChildren(f, n - 1, |Children(f)|), n - 1, |Children(f)|);
      }
    } else {
      NothingYet(t);
    }
  }

  lemma {:induction false} OneAscends(k: nat)
    ensures Ascending([Into(k, 0, Here)]) && Starts([Into(k, 0, Here)], k, 1)
  {
  }

  lemma {:induction false} LeavesOfChildrenAscend(f: Field, k: nat, n: nat)
    requires n <= |Children(f)|
    ensures Ascending(LeavesOfChildren(f, k, n)) && Starts(LeavesOfChildren(f, k, n), k, n)
    decreases f, n
  {
    hide *;
    if n > 0 {
      ChildIs(f, n - 1);
      var c := if f.Object? then f.child else f.items[n - 1];
      LeavesChild(f, k, n);
      LeavesOfChildrenAscend(f, k, n - 1);
      LeavesAscend(c, |c.fields|);
      ChildrenJoin(LeavesOfChildren(f, k, n - 1), k, n - 1, Leaves(c, |c.fields|));
    } else {
      NoChildYet(f, k);
    }
  }

  // ---- Both traversals are complete -------------------------------------------------------------------------

  lemma {:induction false} HasJoin(x: seq<Address>, y: seq<Address>, a: Address)
    ensures Has(x + y, a) <==> Has(x, a) || Has(y, a)
  {
  }

  lemma {:induction false} HasOne(b: Address, a: Address)
    ensures Has([b], a) <==> a == b
  {
  }

  lemma {:induction false} UnderMember(k: nat, i: nat, list: seq<Address>, a: Address)
    ensures Has(Under(k, i, list), a) <==> a.Into? && a.field == k && a.index == i && Has(list, a.rest)
  {
    if a.Into? && a.field == k && a.index == i && Has(list, a.rest) {
      var n :| 0 <= n < |list| && list[n] == a.rest;
      assert Under(k, i, list)[n] == a;
    }
  }

  lemma {:induction false} ItemStep(t: Item, a: Address)
    requires a.Into?
    ensures IsItem(t, a) <==> a.field < |t.fields| && a.index < |Children(t.fields[a.field])| &&
                              IsItem(Children(t.fields[a.field])[a.index], a.rest)
  {
    hide Children;
  }

  lemma {:induction false} LeafStep(t: Item, a: Address)
    ensures IsLeaf(t, a) ==> a.Into? && a.field < |t.fields|
    ensures a.Into? && a.field < |t.fields| && t.fields[a.field].Leaf? ==>
              (IsLeaf(t, a) <==> a == Into(a.field, 0, Here))
    ensures a.Into? && a.field < |t.fields| && !t.fields[a.field].Leaf? ==>
              (IsLeaf(t, a) <==> a.index < |Children(t.fields[a.field])| &&
                                 IsLeaf(Children(t.fields[a.field])[a.index], a.rest))
  {
    hide Children;
  }

  /** The walk visits every item. */
  lemma {:induction false} WalkIsComplete(t: Item, a: Address)
    ensures Has(Walk(t), a) <==> IsItem(t, a)
    decreases t, |t.fields| + 1
  {
    WalkFieldsComplete(t, |t.fields|, a);
    HasJoin([Here], WalkFields(t, |t.fields|), a);
  }

  lemma {:induction false} WalkFieldsComplete(t: Item, n: nat, a: Address)
    requires n <= |t.fields|
    ensures Has(WalkFields(t, n), a) <==> a.Into? && a.field < n && IsItem(t, a)
    decreases t, n
  {
    hide *;
    if n > 0 {
      var f := t.fields[n - 1];
      WalkNext(t, n);
      HasJoin(WalkFields(t, n - 1), WalkChildren(f, n - 1, |Children(f)|), a);
      WalkFieldsComplete(t, n - 1, a);
      WalkChildrenComplete(f, n - 1, |Children(f)|, a);
      if a.Into? {
        ItemStep(t, a);
      }
    } else {
      NothingYet(t);
    }
  }

  lemma {:induction false} WalkChildrenComplete(f: Field, k: nat, n: nat, a: Address)
    requires n <= |Children(f)|
    ensures Has(WalkChildren(f, k, n), a) <==>
              a.Into? && a.field == k && a.index < n && IsItem(Children(f)[a.index], a.rest)
    decreases f, n
  {
    hide *;
    if n > 0 {
      ChildIs(f, n - 1);
      var c := if f.Object? then f.child else f.items[n - 1];
      WalkChild(f, k, n);
      WalkChildrenComplete(f, k, n - 1, a);
      HasJoin(WalkChildren(f, k, n - 1), Under(k, n - 1, Walk(c)), a);
      UnderMember(k, n - 1, Walk(c), a);
      if a.Into? {
        WalkIsComplete(c, a.rest);
      }
    } else {
      NoChildYet(f, k);
    }
  }

  /** Every value field is emitted. */
  lemma {:induction false} LeavesAreComplete(t: Item, n: nat, a: Address)
    requires n <= |t.fields|
    ensures Has(Leaves(t, n), a) <==> IsLeaf(t, a) && a.field < n
    decreases t, n
  {
    hide *;
    LeafStep(t, a);
    if n > 0 {
      var f := t.fields[n - 1];
      LeavesNext(t, n);
      LeavesAreComplete(t, n - 1, a);
      if f.Leaf? {
        HasJoin(Leaves(t, n - 1), [Into(n - 1, 0, Here)], a);
        HasOne(Into(n - 1, 0, Here), a);
      } else {
        HasJoin(Leaves(t, n - 1), LeavesOfChildren(f, n - 1, |Children(f)|), a);
        LeavesOfChildrenComplete(f, n - 1, |Children(f)|, a);
      }
    } else {
      NothingYet(t);
    }
  }

  lemma {:induction false} LeavesOfChildrenComplete(f: Field, k: nat, n: nat, a: Address)
    requires n <= |Children(f)|
    ensures Has(LeavesOfChildren(f, k, n), a) <==>
              a.Into? && a.field == k && a.index < n && IsLeaf(Children(f)[a.index], a.rest)
    decreases f, n
  {
    hide *;
    if n > 0 {
      ChildIs(f, n - 1);
      var c := if f.Object? then f.child else f.items[n - 1];
      if a.Into? {
        LeafStep(c, a.rest);
      }
      LeavesChild(f, k, n);
      LeavesOfChildrenComplete(f, k, n - 1, a);
      HasJoin(LeavesOfChildren(f, k, n - 1), Under(k, n - 1, Leaves(c, |c.fields|)), a);
      UnderMember(k, n - 1, Leaves(c, |c.fields|), a);
      if a.Into? {
        LeavesAreComplete(c, |c.fields|, a.rest);
      }
    } else {
      NoChildYet(f, k);
    }
  }

  // ---- What the orders are ------------------------------------------------------------------------------------

  lemma {:induction false} PositionOf(list: seq<Address>, a: Address) returns (p: nat)
    requires Has(list, a)
    ensures p < |list| && list[p] == a
  {
    p :| 0 <= p < |list| && list[p] == a;
  }

  /** Of two listed addresses, one that precedes the other stands before it. */
  lemma {:induction false} InOrder(list: seq<Address>, p: nat, q: nat)
    requires Ascending(list) && p < |list| && q < |list| && Precedes(list[p], list[q])
    ensures p < q
  {
    PrecedesBothWays(list[p], list[q]);
    PrecedesBothWays(list[q], list[p]);
  }

  lemma {:induction false} BothInside(t: Item, a: Address, b: Address)
    requires IsLeaf(t, a) && IsLeaf(t, b) && Precedes(a, b) && a.field == b.field && a.index == b.index
    ensures Enters(t, a.field, a.index)
    ensures var c := Entered(t, a.field, a.index);
            IsLeaf(c, a.rest) && IsLeaf(c, b.rest) && Precedes(a.rest, b.rest)
  {
    hide Children;
  }

  /**
   * Value fields are emitted field by field in the order of declaration, in an array item by item, and inside one item
   * in the same order again.
   */
  lemma {:induction false} LeavesInFieldOrder(t: Item, i: nat, j: nat) returns (p: nat, q: nat)
    requires i < j < |Leaves(t, |t.fields|)|
    ensures var a, b := Leaves(t, |t.fields|)[i], Leaves(t, |t.fields|)[j];
            && a.Into? && b.Into? && a.field <= b.field && (a.field == b.field ==> a.index <= b.index)
            && (a.field == b.field && a.index == b.index ==>
                  && Enters(t, a.field, a.index)
                  && var c := Entered(t, a.field, a.index);
                  && p < q < |Leaves(c, |c.fields|)|
                  && Leaves(c, |c.fields|)[p] == a.rest && Leaves(c, |c.fields|)[q] == b.rest)
  {
    hide Leaves, Enters, Entered;
    var a, b := Leaves(t, |t.fields|)[i], Leaves(t, |t.fields|)[j];
    LeavesAscend(t, |t.fields|);
    assert Has(Leaves(t, |t.fields|), a) && Has(Leaves(t, |t.fields|), b);
    LeavesAreComplete(t, |t.fields|, a);
    LeavesAreComplete(t, |t.fields|, b);
    p, q := 0, 0;
    if a.field == b.field && a.index == b.index {
      BothInside(t, a, b);
      var c := Entered(t, a.field, a.index);
      LeavesAscend(c, |c.fields|);
      LeavesAreComplete(c, |c.fields|, a.rest);
      LeavesAreComplete(c, |c.fields|, b.rest);
      LeafStep(c, a.rest);
      LeafStep(c, b.rest);
      p := PositionOf(Leaves(c, |c.fields|), a.rest);
      q := PositionOf(Leaves(c, |c.fields|), b.rest);
      InOrder(Leaves(c, |c.fields|), p, q);
    }
  }

  /** The walk begins with the item itself and goes on in the same order. */
  lemma {:induction false} WalkInFieldOrder(t: Item, i: nat, j: nat) returns (p: nat, q: nat)
    requires i < j < |Walk(t)|
    ensures Walk(t)[0] == Here
    ensures var a, b := Walk(t)[i], Walk(t)[j];
            && b.Into? && (a.Here? <==> i == 0)
            && (a.Into? ==> a.field <= b.field && (a.field == b.field ==> a.index <= b.index))
            && (a.Into? && a.field == b.field && a.index == b.index ==>
                  && Enters(t, a.field, a.index)
                  && var c := Entered(t, a.field, a.index);
                  && p < q < |Walk(c)| && Walk(c)[p] == a.rest && Walk(c)[q] == b.rest)
  {
    hide Enters, Entered, WalkFields;
    var a, b := Walk(t)[i], Walk(t)[j];
    assert Walk(t)[0] == Here;
    hide Walk;
    WalkAscends(t);
    assert Has(Walk(t), a) && Has(Walk(t), b);
    WalkIsComplete(t, a);
    WalkIsComplete(t, b);
    assert i > 0 ==> Precedes(Walk(t)[0], a);
    p, q := 0, 0;
    if a.Into? && a.field == b.field && a.index == b.index {
      var c := Entered(t, a.field, a.index);
      WalkAscends(c);
      WalkIsComplete(c, a.rest);
      WalkIsComplete(c, b.rest);
      p := PositionOf(Walk(c), a.rest);
      q := PositionOf(Walk(c), b.rest);
      InOrder(Walk(c), p, q);
    }
  }

  // ---- The order of entries against the order of the walk ---------------------------------------------------

  /** The item that a value field belongs to. */
  function Owner(a: Address): Address
    requires a.Into?
  {
    if a.rest.Here? then Here else Into(a.field, a.index, Owner(a.rest))
  }

  lemma {:induction false} OwnerIsItem(t: Item, a: Address)
    requires IsLeaf(t, a)
    ensures IsItem(t, Owner(a))
    decreases a
  {
    hide Children;
    if a.rest.Into? {
      OwnerIsItem(Entered(t, a.field, a.index), a.rest);
    }
  }

  /** An address properly inside an item. */
  predicate Inside(a: Address, item: Address) {
    a.Into? && (item.Here? || (a.field == item.field && a.index == item.index && Inside(a.rest, item.rest)))
  }

  /** Entries follow the walk of their owners, except that they may return from an item to one that encloses it. */
  lemma {:induction false} OwnersFollow(a: Address, b: Address)
    requires a.Into? && b.Into? && Precedes(a, b)
    ensures Precedes(Owner(a), Owner(b)) || Owner(a) == Owner(b) || Inside(Owner(a), Owner(b))
  {
    if a.rest.Into? && b.rest.Into? && a.field == b.field && a.index == b.index {
      OwnersFollow(a.rest, b.rest);
    }
  }

  /**
   * For two entries in order, the walk visits both owners, and the second after the first unless it is the same or
   * encloses it.
   */
  lemma {:induction false} OwnersInWalk(t: Item, i: nat, j: nat) returns (p: nat, q: nat)
    requires i < j < |Leaves(t, |t.fields|)|
    ensures p < |Walk(t)| && q < |Walk(t)|
    ensures var a, b := Leaves(t, |t.fields|)[i], Leaves(t, |t.fields|)[j];
            && a.Into? && b.Into? && Walk(t)[p] == Owner(a) && Walk(t)[q] == Owner(b)
            && (p < q || p == q || (q < p && Inside(Owner(a), Owner(b))))
  {
    hide Leaves, Walk, Owner, Inside, Precedes, IsLeaf, IsItem;
    var a, b := Leaves(t, |t.fields|)[i], Leaves(t, |t.fields|)[j];
    LeavesAscend(t, |t.fields|);
    assert Has(Leaves(t, |t.fields|), a) && Has(Leaves(t, |t.fields|), b);
    LeavesAreComplete(t, |t.fields|, a);
    LeavesAreComplete(t, |t.fields|, b);
    LeafStep(t, a);
    LeafStep(t, b);
    OwnersFollow(a, b);
    p := Visited(t, a);
    q := Visited(t, b);
    WalkAscends(t);
    PrecedesBothWays(Owner(a), Owner(b));
    PrecedesBothWays(Owner(b), Owner(a));
  }

  /** The position at which the walk visits a value field's owner. */
  lemma {:induction false} Visited(t: Item, a: Address) returns (p: nat)
    requires IsLeaf(t, a)
    ensures p < |Walk(t)| && Walk(t)[p] == Owner(a)
  {
    hide Walk, Owner, IsLeaf, IsItem;
    OwnerIsItem(t, a);
    WalkIsComplete(t, Owner(a));
    p :| 0 <= p < |Walk(t)| && Walk(t)[p] == Owner(a);
  }

  ghost predicate OwnersInWalkOrder(t: Item) {
    forall a, b :: IsLeaf(t, a) && IsLeaf(t, b) && Precedes(a, b) ==>
                     Owner(a) == Owner(b) || Precedes(Owner(a), Owner(b))
  }

  /** No item has a value field after a field that holds values further down. */
  ghost predicate ValuesFirst(t: Item)
    decreases t
  {
    && (forall j, k :: 0 <= j < k < |t.fields| && t.fields[k].Leaf? ==> t.fields[j].Leaf? || !HoldsValues(t, j))
    && forall k :: 0 <= k < |t.fields| ==>
                     match t.fields[k]
                     case Leaf(_, _) => true
                     case Object(_, child) => ValuesFirst(child)
                     case Array(_, items) => forall i :: 0 <= i < |items| ==> ValuesFirst(items[i])
  }

  ghost predicate HoldsValues(t: Item, k: nat) {
    exists a: Address :: a.Into? && a.field == k && IsLeaf(t, a)
  }

  lemma {:induction false} PrecedesBothWays(a: Address, b: Address)
    ensures !(Precedes(a, b) && Precedes(b, a))
    ensures Inside(a, b) ==> Precedes(b, a)
  {
    if a.Into? && b.Into? {
      PrecedesBothWays(a.rest, b.rest);
    }
  }

  lemma {:induction false} NeverReturns(t: Item, a: Address, b: Address)
    requires ValuesFirst(t) && IsLeaf(t, a) && IsLeaf(t, b) && Precedes(a, b)
    ensures !Inside(Owner(a), Owner(b))
    decreases a
  {
    hide ValuesFirst;
    LeafStep(t, a);
    LeafStep(t, b);
    if b.rest.Here? {
      if a.rest.Into? {
        assert HoldsValues(t, a.field);
        ValuesFirstHere(t, a.field, b.field);
      }
    } else if a.rest.Into? && a.field == b.field && a.index == b.index {
      ValuesFirstBelow(t, a.field, a.index);
      NeverReturns(Entered(t, a.field, a.index), a.rest, b.rest);
    }
  }

  lemma {:induction false} ValuesFirstHere(t: Item, j: nat, k: nat)
    requires ValuesFirst(t) && j < k < |t.fields| && t.fields[k].Leaf? && HoldsValues(t, j)
    ensures t.fields[j].Leaf?
  {
    hide HoldsValues;
  }

  lemma {:induction false} ValuesFirstBelow(t: Item, k: nat, i: nat)
    requires ValuesFirst(t) && Enters(t, k, i)
    ensures ValuesFirst(Entered(t, k, i))
  {
  }

  /** Where the condition fails, two entries do return to an enclosing item. */
  lemma {:induction false} Returning(t: Item) returns (a: Address, b: Address)
    requires !ValuesFirst(t)
    ensures IsLeaf(t, a) && IsLeaf(t, b) && Precedes(a, b) && Inside(Owner(a), Owner(b))
    decreases t
  {
    hide HoldsValues;
    if j, k :| 0 <= j < k < |t.fields| && t.fields[k].Leaf? && !t.fields[j].Leaf? && HoldsValues(t, j) {
      a := ValueUnder(t, j);
      b := Into(k, 0, Here);
      LeafStep(t, a);
    } else {
      var k :| 0 <= k < |t.fields| &&
               match t.fields[k]
               case Leaf(_, _) => false
               case Object(_, child) => !ValuesFirst(child)
               case Array(_, items) => exists i :: 0 <= i < |items| && !ValuesFirst(items[i]);
      var i := 0;
      if t.fields[k].Object? {
        a, b := Returning(t.fields[k].child);
      } else {
        i :| 0 <= i < |t.fields[k].items| && !ValuesFirst(t.fields[k].items[i]);
        a, b := Returning(t.fields[k].items[i]);
      }
      a, b := Into(k, i, a), Into(k, i, b);
    }
  }

  lemma {:induction false} ValueUnder(t: Item, k: nat) returns (a: Address)
    requires HoldsValues(t, k)
    ensures a.Into? && a.field == k && IsLeaf(t, a)
  {
    a :| a.Into? && a.field == k && IsLeaf(t, a);
  }

  /** The owners of the entries come in the order of the walk exactly when values precede nested items everywhere. */
  lemma {:induction false} EntryOrder(t: Item)
    ensures OwnersInWalkOrder(t) <==> ValuesFirst(t)
  {
    hide ValuesFirst, Precedes, Inside, IsLeaf, Owner;
    if ValuesFirst(t) {
      forall a, b | IsLeaf(t, a) && IsLeaf(t, b) && Precedes(a, b)
        ensures Owner(a) == Owner(b) || Precedes(Owner(a), Owner(b))
      {
        LeafStep(t, a);
        LeafStep(t, b);
        OwnersFollow(a, b);
        NeverReturns(t, a, b);
      }
    } else {
      var a, b := Returning(t);
      LeafStep(t, a);
      LeafStep(t, b);
      PrecedesBothWays(Owner(a), Owner(b));
      PrecedesBothWays(Owner(b), Owner(a));
      assert !OwnersInWalkOrder(t);
    }
  }
}
