/** The line items of the exported fulfilment list and the order they are
    written in (manapoolsheet.py, the end of main): every item gets the
    total quantity of its location and of its (location, set) pair, and
    the rows are sorted by location total descending, location ascending,
    set total descending, set ascending and name ascending. pandas'
    multi-column sort keeps rows with equal keys in their input order, so
    the model sorts stably. */
module Picking {
  import opened Wrappers
  import opened Ordering

  /** One row of the fulfilment list. The price is kept in cents, as the
      marketplace sends it. */
  datatype LineItem = LineItem(
    orderId: string, orderLabel: string, location: string, quantity: int,
    name: string, setCode: string, number: string, condition: string, finish: string,
    priceCents: int, sku: string, imageUri: string, localImagePath: Option<string>)

  /** groupby('location')['quantity'].transform('sum') for one location. */
  function LocationTotal(items: seq<LineItem>, location: string): int
    decreases |items|
  {
    if items == [] then 0
    else (if items[0].location == location then items[0].quantity else 0) + LocationTotal(items[1..], location)
  }

  /** groupby(['location', 'set'])['quantity'].transform('sum'). */
  function SetTotal(items: seq<LineItem>, location: string, setCode: string): int
    decreases |items|
  {
    if items == [] then 0
    else
      (if items[0].location == location && items[0].setCode == setCode then items[0].quantity else 0)
      + SetTotal(items[1..], location, setCode)
  }

  // ---------------------------------------------------------------- the sort key

  /** One column of the sort key: a number or a string. */
  datatype Field = Int(i: int) | Str(s: string)

  function FieldLess(a: Field, b: Field): bool {
    match (a, b)
    case (Int(x), Int(y)) => x < y
    case (Str(x), Str(y)) => StrLess(x, y)
    case (Int(_), Str(_)) => true
    case (Str(_), Int(_)) => false
  }

  lemma FieldLessStrictTotal()
    ensures StrictTotalOrder(FieldLess)
  {
    CharLessStrictTotal();
    forall a: Field ensures !FieldLess(a, a) {
      if a.Str? { LexIrreflexive(a.s, CharLess); }
    }
    forall a: Field, b: Field, c: Field | FieldLess(a, b) && FieldLess(b, c) ensures FieldLess(a, c) {
      if a.Str? && b.Str? && c.Str? { LexTransitive(a.s, b.s, c.s, CharLess); }
    }
    forall a: Field, b: Field | a != b ensures FieldLess(a, b) || FieldLess(b, a) {
      if a.Str? && b.Str? { LexTrichotomy(a.s, b.s, CharLess); }
    }
  }

  /** The five sort columns of an item; a descending column is negated. */
  function PickKey(items: seq<LineItem>, x: LineItem): seq<Field> {
    [ Int(-LocationTotal(items, x.location)), Str(x.location),
      Int(-SetTotal(items, x.location, x.setCode)), Str(x.setCode), Str(x.name) ]
  }

  /** x may come before y in the pick order of items. */
  function PickLe(items: seq<LineItem>): (LineItem, LineItem) -> bool {
    (x: LineItem, y: LineItem) => LexLe(FieldLess)(PickKey(items, x), PickKey(items, y))
  }

  /** The pick order, column by column, as the sort call states it. */
  predicate ColumnsLe(items: seq<LineItem>, x: LineItem, y: LineItem) {
    var tx := LocationTotal(items, x.location);
    var ty := LocationTotal(items, y.location);
    var sx := SetTotal(items, x.location, x.setCode);
    var sy := SetTotal(items, y.location, y.setCode);
    if tx != ty then tx > ty
    else if x.location != y.location then StrLess(x.location, y.location)
    else if sx != sy then sx > sy
    else if x.setCode != y.setCode then StrLess(x.setCode, y.setCode)
    else StrLe(x.name, y.name)
  }

  /** Comparing the five-column keys is the column-by-column rule. */
  lemma PickLeIsColumnsLe(items: seq<LineItem>, x: LineItem, y: LineItem)
    ensures PickLe(items)(x, y) == ColumnsLe(items, x, y)
  {
    var kx := PickKey(items, x);
    var ky := PickKey(items, y);
    CharLessStrictTotal();
    LexTrichotomy(x.location, y.location, CharLess);
    LexAsymmetric(x.location, y.location, CharLess);
    LexTrichotomy(x.setCode, y.setCode, CharLess);
    LexAsymmetric(x.setCode, y.setCode, CharLess);
    LexIrreflexive(x.name, CharLess);
    LexLessFive(ky, kx);
    assert PickLe(items)(x, y) == LexLe(FieldLess)(kx, ky);
    assert LexLe(FieldLess)(kx, ky) == !LexLess(ky, kx, FieldLess);
  }

  /** Lexicographic order on two five-column keys: the first column where
      they differ decides. */
  lemma LexLessFive(k: seq<Field>, l: seq<Field>)
    requires |k| == 5 && |l| == 5
    ensures LexLess(k, l, FieldLess) ==
      if k[0] != l[0] then FieldLess(k[0], l[0])
      else if k[1] != l[1] then FieldLess(k[1], l[1])
      else if k[2] != l[2] then FieldLess(k[2], l[2])
      else if k[3] != l[3] then FieldLess(k[3], l[3])
      else k[4] != l[4] && FieldLess(k[4], l[4])
  {
    var k1, l1 := k[1..], l[1..];
    var k2, l2 := k1[1..], l1[1..];
    var k3, l3 := k2[1..], l2[1..];
    var k4, l4 := k3[1..], l3[1..];
    assert k4[1..] == [] && l4[1..] == [];
    assert LexLess(k4, l4, FieldLess) == (k4[0] != l4[0] && FieldLess(k4[0], l4[0]));
    assert LexLess(k3, l3, FieldLess) == if k3[0] == l3[0] then LexLess(k4, l4, FieldLess) else FieldLess(k3[0], l3[0]);
    assert LexLess(k2, l2, FieldLess) == if k2[0] == l2[0] then LexLess(k3, l3, FieldLess) else FieldLess(k2[0], l2[0]);
    assert LexLess(k1, l1, FieldLess) == if k1[0] == l1[0] then LexLess(k2, l2, FieldLess) else FieldLess(k1[0], l1[0]);
    assert LexLess(k, l, FieldLess) == if k[0] == l[0] then LexLess(k1, l1, FieldLess) else FieldLess(k[0], l[0]);
    assert k1[0] == k[1] && k2[0] == k[2] && k3[0] == k[3] && k4[0] == k[4];
    assert l1[0] == l[1] && l2[0] == l[2] && l3[0] == l[3] && l4[0] == l[4];
  }

  lemma PickLeTotalPreorder(items: seq<LineItem>)
    ensures TotalPreorder(PickLe(items))
  {
    FieldLessStrictTotal();
    LexLeTotalOrder(FieldLess);
    KeyedTotalPreorder((x: LineItem) => PickKey(items, x), LexLe(FieldLess));
    assert forall x, y :: PickLe(items)(x, y) == LexLe(FieldLess)(PickKey(items, x), PickKey(items, y));
  }

  // ---------------------------------------------------------------- the sort

  /** df.sort_values(by=[...], ascending=[False, True, False, True, True]) */
  function PickOrder(items: seq<LineItem>): seq<LineItem> {
    SortBy(items, PickLe(items))
  }

  /** The written rows are the items rearranged (nothing lost, nothing
      added), in pick order, with tying rows in their original order. */
  lemma PickOrderIsStableSort(items: seq<LineItem>)
    ensures IsStableSortOf(PickOrder(items), items, PickLe(items))
    ensures |PickOrder(items)| == |items|
  {
    PickLeTotalPreorder(items);
    SortByIsStable(items, PickLe(items));
    assert |PickOrder(items)| == |multiset(PickOrder(items))|;
  }

  /** Along the written rows, location totals never increase; within one
      location, set totals never increase; within one set, names ascend. */
  lemma PickOrderColumns(items: seq<LineItem>, i: int, j: int)
    requires 0 <= i < j < |PickOrder(items)|
    ensures var r := PickOrder(items);
      && LocationTotal(items, r[i].location) >= LocationTotal(items, r[j].location)
      && (r[i].location == r[j].location ==>
            SetTotal(items, r[i].location, r[i].setCode) >= SetTotal(items, r[j].location, r[j].setCode))
      && (r[i].location == r[j].location && r[i].setCode == r[j].setCode ==> StrLe(r[i].name, r[j].name))
  {
    PickOrderIsStableSort(items);
    var r := PickOrder(items);
    PickLeIsColumnsLe(items, r[i], r[j]);
  }

  /** The first row belongs to a location with the largest total. */
  lemma PickOrderHead(items: seq<LineItem>)
    requires items != []
    ensures var r := PickOrder(items);
      r != [] && r[0] in items &&
      forall x :: x in items ==> LocationTotal(items, r[0].location) >= LocationTotal(items, x.location)
  {
    PickOrderIsStableSort(items);
    var r := PickOrder(items);
    assert r[0] in multiset(r);
    forall x | x in items ensures LocationTotal(items, r[0].location) >= LocationTotal(items, x.location) {
      assert x in multiset(items);
      var j :| 0 <= j < |r| && r[j] == x;
      if j > 0 {
        PickOrderColumns(items, 0, j);
      }
    }
  }

  function Item(name: string, location: string, setCode: string, quantity: int): LineItem {
    LineItem("1", "N/A", location, quantity, name, setCode, "1", "NM", "NF", 0, "N/A", "N/A", None)
  }

  /** Totals are taken over all items: with A (5) and B (1) in Bin1 and C
      (10) in Bin2, Bin1 totals 6, so C's row comes first. */
  lemma ThreeItemHead(a: LineItem, b: LineItem, c: LineItem)
    requires a == Item("A", "Bin1", "S", 5) && b == Item("B", "Bin1", "S", 1) && c == Item("C", "Bin2", "S", 10)
    ensures |PickOrder([a, b, c])| == 3 && PickOrder([a, b, c])[0] == c
  {
    var items := [a, b, c];
    assert "Bin1" != "Bin2" by { assert "Bin1"[3] != "Bin2"[3]; }
    assert LocationTotal([c], "Bin1") == 0 by { assert [c][1..] == []; }
    assert LocationTotal([c], "Bin2") == 10 by { assert [c][1..] == []; }
    assert items[1..] == [b, c] && [b, c][1..] == [c];
    assert LocationTotal(items, "Bin1") == 6;
    assert LocationTotal(items, "Bin2") == 10;
    PickOrderHead(items);
    PickOrderIsStableSort(items);
    var r := PickOrder(items);
    assert LocationTotal(items, r[0].location) >= 10;
    assert r[0] in multiset(items);
  }

  /** Three items whose pick order starts with c, where a and b share a
      location and a set and a's name is smaller, are picked c, a, b. */
  lemma PickOrderAfterHead(items: seq<LineItem>, a: LineItem, b: LineItem, c: LineItem)
    requires items == [a, b, c] && a != c && b != c
    requires |PickOrder(items)| == 3 && PickOrder(items)[0] == c
    requires a.location == b.location && a.setCode == b.setCode && StrLess(a.name, b.name)
    ensures PickOrder(items) == [c, a, b]
  {
    var r := PickOrder(items);
    CharLessStrictTotal();
    LexIrreflexive(a.name, CharLess);
    assert a in r && b in r by {
      PickOrderIsStableSort(items);
      assert a in multiset(items) && b in multiset(items);
    }
    if r[1] != a {
      PickOrderColumns(items, 1, 2);
      LexAsymmetric(a.name, b.name, CharLess);
      assert false;
    }
  }

  /** The whole pick order of that example: C first; A and B tie on both
      totals and on the set, and the name puts A before B. */
  lemma ThreeItemExample()
    ensures var items := [Item("A", "Bin1", "S", 5), Item("B", "Bin1", "S", 1), Item("C", "Bin2", "S", 10)];
      PickOrder(items) == [Item("C", "Bin2", "S", 10), Item("A", "Bin1", "S", 5), Item("B", "Bin1", "S", 1)]
  {
    var a, b, c := Item("A", "Bin1", "S", 5), Item("B", "Bin1", "S", 1), Item("C", "Bin2", "S", 10);
    ThreeItemHead(a, b, c);
    assert StrLess("A", "B") by { assert "A"[0] == 'A' && "B"[0] == 'B'; }
    PickOrderAfterHead([a, b, c], a, b, c);
  }
}
